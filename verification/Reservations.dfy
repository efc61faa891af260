/**
 Listing reservations: the transition table (src/tradeup/domain/execution.py) and the in-process registry
 (src/tradeup/execution/reservations.py).  Moments are integers.
 */
module Reservations {
  import opened Sorting
  import opened Wrappers

  datatype ListingIdentity = ListingIdentity(venue: int, listing: int)

  /** Identities order by (venue, listing). */
  predicate IdentityLe(a: ListingIdentity, b: ListingIdentity) {
    a.venue < b.venue || (a.venue == b.venue && a.listing <= b.listing)
  }

  lemma IdentityLeIsTotal()
    ensures TotalPreorder(IdentityLe)
  {
  }

  datatype ReservationState = Unclaimed | SoftReserved | PurchasePending | Purchased | Released | Stale

  predicate IsActive(s: ReservationState) {
    s == SoftReserved || s == PurchasePending || s == Purchased
  }

  function NextStates(s: ReservationState): set<ReservationState> {
    match s
    case Unclaimed => {SoftReserved}
    case SoftReserved => {PurchasePending, Released, Stale}
    case PurchasePending => {Purchased, Released, Stale}
    case Purchased => {}
    case Released => {}
    case Stale => {}
  }

  predicate CanTransition(from: ReservationState, to: ReservationState) {
    to in NextStates(from)
  }

  datatype AssetReservation = AssetReservation(
    identity: ListingIdentity,
    candidate: int,
    state: ReservationState,
    reservedAt: int,
    expiresAt: int,
    releasedAt: Option<int>)

  predicate IsExpired(r: AssetReservation, now: int) {
    now >= r.expiresAt
  }

  /** The reservation after a legal step. */
  function Stepped(r: AssetReservation, target: ReservationState, moment: int): AssetReservation {
    r.(state := target, releasedAt := if target == Released || target == Stale then Option.Some(moment) else None)
  }

  /** `transition_to`: an illegal step is refused. */
  function TransitionTo(r: AssetReservation, target: ReservationState, moment: int): Result<AssetReservation, string> {
    if CanTransition(r.state, target) then Ok(Stepped(r, target, moment)) else Err("transition is not permitted")
  }

  // ----- the registry's contents, as values

  type Book = map<ListingIdentity, AssetReservation>

  /** The candidate currently holding a listing, if any. */
  function HolderIn(book: Book, identity: ListingIdentity, now: int): Option<int> {
    if identity in book && IsActive(book[identity].state) && !IsExpired(book[identity], now)
    then Option.Some(book[identity].candidate) else None
  }

  predicate AvailableIn(book: Book, identity: ListingIdentity, candidate: int, now: int) {
    HolderIn(book, identity, now).None? || HolderIn(book, identity, now).value == candidate
  }

  function Fresh(identity: ListingIdentity, candidate: int, now: int, ttl: int): AssetReservation {
    AssetReservation(identity, candidate, SoftReserved, now, now + ttl, None)
  }

  /** The book after a successful claim. */
  function Claimed(book: Book, candidate: int, identities: seq<ListingIdentity>, now: int, ttl: int): (after: Book)
    ensures forall id :: id in after <==> id in book || id in identities
    ensures forall id | id in identities :: after[id] == Fresh(id, candidate, now, ttl)
    ensures forall id | id in book && id !in identities :: after[id] == book[id]
  {
    map id | id in book.Keys + (set x | x in identities) ::
      if id in identities then Fresh(id, candidate, now, ttl) else book[id]
  }

  /** Does releasing the candidate touch this reservation? */
  predicate Releasable(r: AssetReservation, candidate: int) {
    r.candidate == candidate && IsActive(r.state) && CanTransition(r.state, Released)
  }

  function ReleaseOne(r: AssetReservation, candidate: int, now: int): AssetReservation {
    if Releasable(r, candidate) then Stepped(r, Released, now) else r
  }

  /** The book after releasing everything the candidate still can. */
  function ReleasedBy(book: Book, candidate: int, now: int): Book {
    map id | id in book :: ReleaseOne(book[id], candidate, now)
  }

  predicate Expirable(r: AssetReservation, now: int) {
    IsActive(r.state) && IsExpired(r, now) && CanTransition(r.state, Stale)
  }

  function ExpireOne(r: AssetReservation, now: int): AssetReservation {
    if Expirable(r, now) then Stepped(r, Stale, now) else r
  }

  function ExpiredAt(book: Book, now: int): Book {
    map id | id in book :: ExpireOne(book[id], now)
  }

  /** The listings among `ids` whose reservation satisfies `p`. */
  ghost function Which(book: Book, ids: set<ListingIdentity>, p: AssetReservation -> bool): set<ListingIdentity> {
    set id | id in ids && id in book && p(book[id])
  }

  lemma WhichStep(book: Book, todo: set<ListingIdentity>, p: AssetReservation -> bool, id: ListingIdentity)
    requires id in todo && todo <= book.Keys
    ensures |Which(book, book.Keys - (todo - {id}), p)|
         == |Which(book, book.Keys - todo, p)| + if p(book[id]) then 1 else 0
  {
    assert Which(book, book.Keys - (todo - {id}), p)
        == Which(book, book.Keys - todo, p) + if p(book[id]) then {id} else {};
  }

  // ----- field by field

  /** The steps the source permits; nothing leaves a purchase, a release or an expiry. */
  lemma PermittedSteps(r: AssetReservation, target: ReservationState, moment: int)
    ensures TransitionTo(r, target, moment).Ok?
       <==> (r.state, target) in {
              (Unclaimed, SoftReserved),
              (SoftReserved, PurchasePending), (SoftReserved, Released), (SoftReserved, Stale),
              (PurchasePending, Purchased), (PurchasePending, Released), (PurchasePending, Stale)}
    ensures TransitionTo(r, target, moment).Ok? ==>
      TransitionTo(r, target, moment).value
      == AssetReservation(r.identity, r.candidate, target, r.reservedAt, r.expiresAt,
                          if target in {Released, Stale} then Option.Some(moment) else None)
  {
  }

  /** A claim holds every listing of the bundle until its time to live is over, and not a moment longer. */
  lemma ClaimLastsItsTime(book: Book, candidate: int, identities: seq<ListingIdentity>, now: int, ttl: int,
                          id: ListingIdentity, moment: int)
    requires id in identities
    ensures Claimed(book, candidate, identities, now, ttl)[id]
         == AssetReservation(id, candidate, SoftReserved, now, now + ttl, None)
    ensures HolderIn(Claimed(book, candidate, identities, now, ttl), id, moment)
         == if moment < now + ttl then Option.Some(candidate) else None
  {
  }

  /** Only a claimed, pending or bought listing has a holder, and only until it expires. */
  lemma HeldByFields(book: Book, id: ListingIdentity, now: int, candidate: int)
    ensures HolderIn(book, id, now) == Option.Some(candidate)
       <==> id in book && book[id].candidate == candidate && now < book[id].expiresAt
            && book[id].state in {SoftReserved, PurchasePending, Purchased}
  {
  }

  /** A release ends the candidate's claims and pending purchases, and leaves every other reservation as it is. */
  lemma ReleasedByFields(book: Book, candidate: int, now: int, id: ListingIdentity)
    requires id in book
    ensures ReleasedBy(book, candidate, now).Keys == book.Keys
    ensures ReleasedBy(book, candidate, now)[id]
         == if book[id].candidate == candidate && book[id].state in {SoftReserved, PurchasePending}
            then book[id].(state := Released, releasedAt := Option.Some(now)) else book[id]
  {
  }

  /** The sweep ends the claims and pending purchases that are over, bought listings excepted. */
  lemma ExpiredByFields(book: Book, now: int, id: ListingIdentity)
    requires id in book
    ensures ExpiredAt(book, now).Keys == book.Keys
    ensures ExpiredAt(book, now)[id]
         == if book[id].expiresAt <= now && book[id].state in {SoftReserved, PurchasePending}
            then book[id].(state := Stale, releasedAt := Option.Some(now)) else book[id]
  {
  }

  /** A purchased listing is never released, and nothing a claim could not have taken is given to it. */
  lemma ReleaseFreesExactlyTheUnbought(book: Book, candidate: int, now: int, id: ListingIdentity)
    requires id in book && !IsExpired(book[id], now) && IsActive(book[id].state)
    ensures HolderIn(ReleasedBy(book, candidate, now), id, now).None?
       <==> book[id].candidate == candidate && book[id].state != Purchased
  {
  }

  /** Sweeping expired claims changes nobody's holdings: the holder of a listing already ignored them. */
  lemma ExpiryIsInvisible(book: Book, now: int, id: ListingIdentity)
    ensures HolderIn(ExpiredAt(book, now), id, now) == HolderIn(book, id, now)
  {
  }

  // ----- the registry

  datatype ReservationResult = ReservationResult(reserved: seq<AssetReservation>, conflicts: seq<ListingIdentity>)

  class ReservationRegistry {
    const ttl: int
    var byListing: Book

    constructor (ttl: int)
      requires ttl > 0
      ensures this.ttl == ttl && byListing == map[]
    {
      this.ttl := ttl;
      byListing := map[];
    }

    function Holder(identity: ListingIdentity, now: int): Option<int>
      reads this
    {
      HolderIn(byListing, identity, now)
    }

    predicate IsAvailable(identity: ListingIdentity, candidate: int, now: int)
      reads this
    {
      var holder := Holder(identity, now);
      holder.None? || holder.value == candidate
    }

    function StateOf(identity: ListingIdentity): (state: ReservationState)
      reads this
      ensures identity !in byListing ==> state == Unclaimed
    {
      if identity in byListing then byListing[identity].state else Unclaimed
    }

    /** All or nothing: with any conflict the book is left alone. */
    method ClaimBundle(candidate: int, identities: seq<ListingIdentity>, now: int) returns (r: ReservationResult)
      modifies this
      ensures forall id :: id in r.conflicts <==> id in identities && !AvailableIn(old(byListing), id, candidate, now)
      ensures forall i, j | 0 <= i < j < |r.conflicts| ::
        || r.conflicts[i].venue < r.conflicts[j].venue
        || (r.conflicts[i].venue == r.conflicts[j].venue && r.conflicts[i].listing <= r.conflicts[j].listing)
      ensures r.conflicts != [] ==> r.reserved == [] && byListing == old(byListing)
      ensures r.conflicts == [] ==> byListing == Claimed(old(byListing), candidate, identities, now, ttl)
      ensures r.conflicts == [] ==>
        |r.reserved| == |identities|
        && forall i | 0 <= i < |identities| :: r.reserved[i] == Fresh(identities[i], candidate, now, ttl)
    {
      var conflicts := Conflicts(candidate, identities, now);
      if conflicts != [] {
        IdentityLeIsTotal();
        return ReservationResult([], Sort(IdentityLe, conflicts));
      }
      ghost var before := byListing;
      var reserved: seq<AssetReservation> := [];
      for i := 0 to |identities|
        invariant byListing == Claimed(before, candidate, identities[..i], now, ttl)
        invariant |reserved| == i
        invariant forall j | 0 <= j < i :: reserved[j] == Fresh(identities[j], candidate, now, ttl)
      {
        var reservation := Fresh(identities[i], candidate, now, ttl);
        PrefixStep(identities, i);
        byListing := byListing[identities[i] := reservation];
        reserved := reserved + [reservation];
        assert byListing == Claimed(before, candidate, identities[..i + 1], now, ttl);
      }
      WholePrefix(identities);
      r := ReservationResult(reserved, []);
    }

    method Conflicts(candidate: int, identities: seq<ListingIdentity>, now: int)
        returns (conflicts: seq<ListingIdentity>)
      ensures forall id :: id in conflicts <==> id in identities && !AvailableIn(byListing, id, candidate, now)
    {
      conflicts := [];
      for i := 0 to |identities|
        invariant forall id :: id in conflicts <==> id in identities[..i] && !AvailableIn(byListing, id, candidate, now)
      {
        PrefixStep(identities, i);
        if !IsAvailable(identities[i], candidate, now) {
          conflicts := conflicts + [identities[i]];
        }
      }
      WholePrefix(identities);
    }

    method Transition(identity: ListingIdentity, target: ReservationState, now: int)
        returns (r: Result<AssetReservation, string>)
      modifies this
      ensures r.Ok? <==> identity in old(byListing) && CanTransition(old(byListing)[identity].state, target)
      ensures r.Ok? ==> r.value == Stepped(old(byListing)[identity], target, now)
      ensures byListing == if r.Ok? then old(byListing)[identity := r.value] else old(byListing)
    {
      if identity !in byListing {
        return Err("no reservation to transition");
      }
      r := TransitionTo(byListing[identity], target, now);
      if r.Ok? {
        byListing := byListing[identity := r.value];
      }
    }

    method ReleaseCandidate(candidate: int, now: int) returns (released: nat)
      modifies this
      ensures byListing == ReleasedBy(old(byListing), candidate, now)
      ensures released
           == |Which(old(byListing), old(byListing).Keys, (r: AssetReservation) => Releasable(r, candidate))|
    {
      released := 0;
      var todo := byListing.Keys;
      ghost var before := byListing;
      ghost var touched := (r: AssetReservation) => Releasable(r, candidate);
      while todo != {}
        invariant todo <= before.Keys && byListing.Keys == before.Keys
        invariant forall id | id in todo :: byListing[id] == before[id]
        invariant forall id | id in before && id !in todo :: byListing[id] == ReleaseOne(before[id], candidate, now)
        invariant released == |Which(before, before.Keys - todo, touched)|
        decreases |todo|
      {
        var identity :| identity in todo;
        var reservation := byListing[identity];
        WhichStep(before, todo, touched, identity);
        if Releasable(reservation, candidate) {
          byListing := byListing[identity := Stepped(reservation, Released, now)];
          released := released + 1;
        }
        todo := todo - {identity};
      }
      assert before.Keys - todo == before.Keys;
    }

    method ExpireStale(now: int) returns (expired: nat)
      modifies this
      ensures byListing == ExpiredAt(old(byListing), now)
      ensures expired == |Which(old(byListing), old(byListing).Keys, (r: AssetReservation) => Expirable(r, now))|
    {
      expired := 0;
      var todo := byListing.Keys;
      ghost var before := byListing;
      ghost var touched := (r: AssetReservation) => Expirable(r, now);
      while todo != {}
        invariant todo <= before.Keys && byListing.Keys == before.Keys
        invariant forall id | id in todo :: byListing[id] == before[id]
        invariant forall id | id in before && id !in todo :: byListing[id] == ExpireOne(before[id], now)
        invariant expired == |Which(before, before.Keys - todo, touched)|
        decreases |todo|
      {
        var identity :| identity in todo;
        var reservation := byListing[identity];
        WhichStep(before, todo, touched, identity);
        if Expirable(reservation, now) {
          byListing := byListing[identity := Stepped(reservation, Stale, now)];
          expired := expired + 1;
        }
        todo := todo - {identity};
      }
      assert before.Keys - todo == before.Keys;
    }
  }
}
