/**
 The allocation loop of a scan (src/tradeup/pipeline/scan.py, `run`): candidates claim their listings, face the
 final gate, and give the listings back when it refuses them.

 What ingestion, the optimizer and the candidate builder produce for each composition and float budget is the
 input `proposals`, `None` where nothing was solved or built.  The gates' other rules are arbitrary predicates.
 */
module Scan {
  import opened Purchasing
  import opened Reservations
  import opened Sorting
  import opened Wrappers

  datatype Gates = Gates(discovery: TradeupCandidate -> bool, finalRules: TradeupCandidate -> bool)

  /** The registry's contents with the outcomes so far. */
  datatype Ledger = Ledger(book: Book, approved: seq<TradeupCandidate>, rejected: seq<TradeupCandidate>)

  /** What one candidate does to the ledger. */
  ghost function Offered(l: Ledger, c: TradeupCandidate, gates: Gates, moment: int, ttl: int): Ledger {
    if !gates.discovery(c) then
      l.(rejected := l.rejected + [c])
    else if AllAvailable(l.book, c, moment) && gates.finalRules(c) then
      Ledger(Claimed(l.book, c.id, Ids(c), moment, ttl), l.approved + [c], l.rejected)
    else if AllAvailable(l.book, c, moment) then
      Ledger(ReleasedBy(Claimed(l.book, c.id, Ids(c), moment, ttl), c.id, moment), l.approved, l.rejected + [c])
    else
      Ledger(ReleasedBy(l.book, c.id, moment), l.approved, l.rejected + [c])
  }

  ghost function Allocated(book: Book, cs: seq<TradeupCandidate>, gates: Gates, moment: int, ttl: int): Ledger {
    if cs == [] then Ledger(book, [], [])
    else Offered(Allocated(book, cs[..|cs| - 1], gates, moment, ttl), cs[|cs| - 1], gates, moment, ttl)
  }

  lemma OneMore(book: Book, cs: seq<TradeupCandidate>, c: TradeupCandidate, gates: Gates, moment: int, ttl: int)
    ensures Allocated(book, cs + [c], gates, moment, ttl)
         == Offered(Allocated(book, cs, gates, moment, ttl), c, gates, moment, ttl)
  {
    assert (cs + [c])[..|cs|] == cs;
  }

  // ----- which candidates are considered

  function CandidateIds(cs: seq<TradeupCandidate>): set<int> {
    set c | c in cs :: c.id
  }

  /** One composition's budgets: a candidate already seen is skipped. */
  function Considering(seen: seq<TradeupCandidate>, budgets: seq<Option<TradeupCandidate>>): (r: seq<TradeupCandidate>)
    ensures seen <= r
  {
    if budgets == [] then seen
    else
      var before := Considering(seen, budgets[..|budgets| - 1]);
      var last := budgets[|budgets| - 1];
      if last.Some? && last.value.id !in CandidateIds(before) then before + [last.value] else before
  }

  /** All compositions, stopping before one once the cap is reached. */
  function Considered(proposals: seq<seq<Option<TradeupCandidate>>>, maxCandidates: int): seq<TradeupCandidate> {
    if proposals == [] then []
    else
      var before := Considered(proposals[..|proposals| - 1], maxCandidates);
      if |before| >= maxCandidates then before else Considering(before, proposals[|proposals| - 1])
  }

  lemma {:induction false} CapEndsTheScan(proposals: seq<seq<Option<TradeupCandidate>>>, maxCandidates: int, k: nat)
    requires k <= |proposals| && |Considered(proposals[..k], maxCandidates)| >= maxCandidates
    ensures Considered(proposals, maxCandidates) == Considered(proposals[..k], maxCandidates)
  {
    if k == |proposals| {
      WholePrefix(proposals);
    } else {
      assert proposals[..|proposals| - 1][..k] == proposals[..k];
      CapEndsTheScan(proposals[..|proposals| - 1], maxCandidates, k);
    }
  }

  ghost predicate DistinctIds(cs: seq<TradeupCandidate>) {
    forall i, j | 0 <= i < j < |cs| :: cs[i].id != cs[j].id
  }

  lemma {:induction false} ConsideringKeepsIdsDistinct(seen: seq<TradeupCandidate>,
                                                       budgets: seq<Option<TradeupCandidate>>)
    requires DistinctIds(seen)
    ensures DistinctIds(Considering(seen, budgets))
  {
    if budgets != [] {
      ConsideringKeepsIdsDistinct(seen, budgets[..|budgets| - 1]);
      var before := Considering(seen, budgets[..|budgets| - 1]);
      assert forall i | 0 <= i < |before| :: before[i].id in CandidateIds(before);
    }
  }

  /** No candidate is offered twice. */
  lemma {:induction false} ConsideredOnce(proposals: seq<seq<Option<TradeupCandidate>>>, maxCandidates: int)
    ensures DistinctIds(Considered(proposals, maxCandidates))
  {
    if proposals != [] {
      ConsideredOnce(proposals[..|proposals| - 1], maxCandidates);
      ConsideringKeepsIdsDistinct(Considered(proposals[..|proposals| - 1], maxCandidates), proposals[|proposals| - 1]);
    }
  }

  lemma {:induction false} ConsideringCoversBudgets(seen: seq<TradeupCandidate>, budgets: seq<Option<TradeupCandidate>>,
                                                    b: nat)
    requires b < |budgets| && budgets[b].Some?
    ensures budgets[b].value.id in CandidateIds(Considering(seen, budgets))
  {
    var n := |budgets| - 1;
    var before := Considering(seen, budgets[..n]);
    if b < n {
      ConsideringCoversBudgets(seen, budgets[..n], b);
      assert forall c | c in before :: c in Considering(seen, budgets);
    } else if budgets[n].value.id !in CandidateIds(before) {
      assert Considering(seen, budgets)[|before|] == budgets[n].value;
    }
  }

  /** A proposal is passed over only if the cap was reached before its composition. */
  lemma {:induction false} NothingPassedOver(proposals: seq<seq<Option<TradeupCandidate>>>, maxCandidates: int,
                                             k: nat, b: nat)
    requires k < |proposals| && b < |proposals[k]| && proposals[k][b].Some?
    ensures proposals[k][b].value.id in CandidateIds(Considered(proposals, maxCandidates))
         || |Considered(proposals[..k], maxCandidates)| >= maxCandidates
  {
    var n := |proposals| - 1;
    var before := Considered(proposals[..n], maxCandidates);
    if k < n {
      assert proposals[..n][..k] == proposals[..k];
      NothingPassedOver(proposals[..n], maxCandidates, k, b);
      assert forall c | c in before :: c in Considered(proposals, maxCandidates);
    } else if |before| < maxCandidates {
      ConsideringCoversBudgets(before, proposals[n], b);
    }
  }

  // ----- the loop

  class ScanPipeline {
    const reservations: ReservationRegistry
    const maxCandidates: int

    constructor (reservations: ReservationRegistry, maxCandidates: int)
      ensures this.reservations == reservations && this.maxCandidates == maxCandidates
    {
      this.reservations, this.maxCandidates := reservations, maxCandidates;
    }

    function ReservedListings(reserved: seq<AssetReservation>): set<int> {
      set r | r in reserved :: r.identity.listing
    }

    /** The final gate's allocation rule looks only at the listing part of the identities. */
    predicate AllReserved(c: TradeupCandidate, reserved: seq<AssetReservation>) {
      forall i | 0 <= i < |c.inputs| :: c.inputs[i].identity.listing in ReservedListings(reserved)
    }

    /** Past discovery: claim, gate, and release on refusal. */
    method ClaimAndGate(c: TradeupCandidate, gates: Gates, moment: int) returns (approved: bool)
      modifies reservations
      ensures var before := old(reservations.byListing);
        && (approved <==> AllAvailable(before, c, moment) && gates.finalRules(c))
        && (approved ==> reservations.byListing == Claimed(before, c.id, Ids(c), moment, reservations.ttl))
        && (!approved && AllAvailable(before, c, moment) ==>
              reservations.byListing
              == ReleasedBy(Claimed(before, c.id, Ids(c), moment, reservations.ttl), c.id, moment))
        && (!AllAvailable(before, c, moment) ==> reservations.byListing == ReleasedBy(before, c.id, moment))
    {
      ghost var before := reservations.byListing;
      var claim := reservations.ClaimBundle(c.id, Ids(c), moment);
      ClaimReservesAll(c, before, claim, moment);
      approved := gates.finalRules(c) && AllReserved(c, claim.reserved);
      if !approved {
        var _ := reservations.ReleaseCandidate(c.id, moment);
      }
    }

    /** One candidate's turn. */
    method Offer(c: TradeupCandidate, gates: Gates, moment: int, approved: seq<TradeupCandidate>,
                 rejected: seq<TradeupCandidate>)
        returns (approved': seq<TradeupCandidate>, rejected': seq<TradeupCandidate>)
      modifies reservations
      ensures Ledger(reservations.byListing, approved', rejected')
           == Offered(Ledger(old(reservations.byListing), approved, rejected), c, gates, moment, reservations.ttl)
    {
      if !gates.discovery(c) {
        return approved, rejected + [c];
      }
      var passed := ClaimAndGate(c, gates, moment);
      if passed {
        return approved + [c], rejected;
      }
      return approved, rejected + [c];
    }

    /** A claim succeeds on all of a bundle or on none of it, and the final gate can tell which. */
    lemma ClaimReservesAll(c: TradeupCandidate, before: Book, claim: ReservationResult, moment: int)
      requires forall id :: id in claim.conflicts <==> id in Ids(c) && !AvailableIn(before, id, c.id, moment)
      requires claim.conflicts != [] ==> claim.reserved == []
      requires claim.conflicts == [] ==>
        |claim.reserved| == |Ids(c)|
        && forall i | 0 <= i < |Ids(c)| :: claim.reserved[i] == Fresh(Ids(c)[i], c.id, moment, reservations.ttl)
      ensures claim.conflicts == [] <==> AllAvailable(before, c, moment)
      ensures AllReserved(c, claim.reserved) <==> AllAvailable(before, c, moment)
    {
      NoConflictIsAvailable(c, before, moment, claim.conflicts);
      if claim.conflicts != [] {
        assert claim.conflicts[0] in claim.conflicts;
        var i :| 0 <= i < |Ids(c)| && Ids(c)[i] == claim.conflicts[0];
        assert c.inputs[i].identity.listing !in ReservedListings(claim.reserved);
      } else {
        forall i | 0 <= i < |c.inputs|
          ensures c.inputs[i].identity.listing in ReservedListings(claim.reserved)
        {
          assert claim.reserved[i].identity == Ids(c)[i];
          assert claim.reserved[i] in claim.reserved;
        }
      }
    }

    /** The ledger after considering `cs`. */
    ghost predicate Settled(start: Book, cs: seq<TradeupCandidate>, gates: Gates, moment: int,
                            approved: seq<TradeupCandidate>, rejected: seq<TradeupCandidate>)
      reads reservations
    {
      Ledger(reservations.byListing, approved, rejected) == Allocated(start, cs, gates, moment, reservations.ttl)
    }

    /** One composition's turn, budget by budget. */
    method OfferBudgets(budgets: seq<Option<TradeupCandidate>>, gates: Gates, moment: int, seen: set<int>,
                        approved: seq<TradeupCandidate>, rejected: seq<TradeupCandidate>, ghost start: Book,
                        ghost considered: seq<TradeupCandidate>)
        returns (seen': set<int>, built: nat, approved': seq<TradeupCandidate>, rejected': seq<TradeupCandidate>)
      requires seen == CandidateIds(considered) && Settled(start, considered, gates, moment, approved, rejected)
      modifies reservations
      ensures seen' == CandidateIds(Considering(considered, budgets))
      ensures |considered| + built == |Considering(considered, budgets)|
      ensures Settled(start, Considering(considered, budgets), gates, moment, approved', rejected')
    {
      ghost var all := considered;
      seen', built, approved', rejected' := seen, 0, approved, rejected;
      for b := 0 to |budgets|
        invariant all == Considering(considered, budgets[..b])
        invariant |considered| + built == |all| && seen' == CandidateIds(all)
        invariant Settled(start, all, gates, moment, approved', rejected')
      {
        assert budgets[..b + 1][..b] == budgets[..b];
        if budgets[b].None? || budgets[b].value.id in seen' {
          continue;
        }
        var c := budgets[b].value;
        seen' := seen' + {c.id};
        built := built + 1;
        OneMore(start, all, c, gates, moment, reservations.ttl);
        all := all + [c];
        approved', rejected' := Offer(c, gates, moment, approved', rejected');
      }
      WholePrefix(budgets);
    }

    method Run(proposals: seq<seq<Option<TradeupCandidate>>>, gates: Gates, moment: int)
        returns (approved: seq<TradeupCandidate>, rejected: seq<TradeupCandidate>, candidatesBuilt: nat)
      modifies reservations
      ensures Ledger(reservations.byListing, approved, rejected)
           == Allocated(old(reservations.byListing), Considered(proposals, maxCandidates), gates, moment,
                        reservations.ttl)
      ensures candidatesBuilt == |Considered(proposals, maxCandidates)|
    {
      ghost var start := reservations.byListing;
      approved, rejected, candidatesBuilt := [], [], 0;
      var seen: set<int> := {};
      for k := 0 to |proposals|
        invariant candidatesBuilt == |Considered(proposals[..k], maxCandidates)|
        invariant seen == CandidateIds(Considered(proposals[..k], maxCandidates))
        invariant Settled(start, Considered(proposals[..k], maxCandidates), gates, moment, approved, rejected)
      {
        if candidatesBuilt >= maxCandidates {
          CapEndsTheScan(proposals, maxCandidates, k);
          return;
        }
        var built;
        seen, built, approved, rejected :=
          OfferBudgets(proposals[k], gates, moment, seen, approved, rejected, start,
                       Considered(proposals[..k], maxCandidates));
        candidatesBuilt := candidatesBuilt + built;
        assert proposals[..k + 1][..k] == proposals[..k];
      }
      WholePrefix(proposals);
    }
  }

  // ----- what an allocation guarantees

  /** The bundle contains the listing. */
  ghost predicate Uses(c: TradeupCandidate, id: ListingIdentity) {
    id in Ids(c)
  }

  ghost predicate HoldsItsBundle(book: Book, c: TradeupCandidate, moment: int) {
    forall id | id in Ids(c) :: HolderIn(book, id, moment) == Option.Some(c.id)
  }

  ghost predicate AllHold(l: Ledger, moment: int) {
    forall a | a in l.approved :: HoldsItsBundle(l.book, a, moment)
  }

  ghost predicate PairwiseDisjoint(cs: seq<TradeupCandidate>) {
    forall i, j | 0 <= i < |cs| && 0 <= j < |cs| && i != j :: Disjoint(cs[i], cs[j])
  }

  ghost predicate Disjoint(a: TradeupCandidate, b: TradeupCandidate) {
    forall id | id in Ids(a) :: id !in Ids(b)
  }

  /** The decisions are about the considered candidates, each counted once. */
  ghost predicate Within(l: Ledger, cs: seq<TradeupCandidate>) {
    multiset(l.approved) + multiset(l.rejected) == multiset(cs)
  }

  lemma OfferDecides(l: Ledger, c: TradeupCandidate, gates: Gates, moment: int, ttl: int)
    ensures multiset(Offered(l, c, gates, moment, ttl).approved) + multiset(Offered(l, c, gates, moment, ttl).rejected)
         == multiset(l.approved) + multiset(l.rejected) + multiset{c}
  {
  }

  /** Conservation: every candidate considered is either approved or rejected, once. */
  lemma {:induction false} EveryCandidateIsDecided(book: Book, cs: seq<TradeupCandidate>, gates: Gates, moment: int,
                                                   ttl: int)
    ensures Within(Allocated(book, cs, gates, moment, ttl), cs)
  {
    if cs != [] {
      EveryCandidateIsDecided(book, cs[..|cs| - 1], gates, moment, ttl);
      OfferDecides(Allocated(book, cs[..|cs| - 1], gates, moment, ttl), cs[|cs| - 1], gates, moment, ttl);
      assert cs == cs[..|cs| - 1] + [cs[|cs| - 1]];
    }
  }

  /** Only its own id appears among decided candidates' ids. */
  lemma NewIdIsNew(book: Book, cs: seq<TradeupCandidate>, gates: Gates, moment: int, ttl: int)
    requires cs != [] && DistinctIds(cs)
    ensures forall a | a in Allocated(book, cs[..|cs| - 1], gates, moment, ttl).approved :: a.id != cs[|cs| - 1].id
  {
    var rest := cs[..|cs| - 1];
    var l := Allocated(book, rest, gates, moment, ttl);
    EveryCandidateIsDecided(book, rest, gates, moment, ttl);
    forall a | a in l.approved ensures a.id != cs[|cs| - 1].id {
      assert a in multiset(rest);
      var i :| 0 <= i < |rest| && rest[i] == a;
      assert cs[i] == a;
    }
  }

  /** Offering one candidate leaves every bundle held by somebody else alone. */
  lemma OfferKeepsHeldBundles(l: Ledger, c: TradeupCandidate, gates: Gates, moment: int, ttl: int, a: TradeupCandidate)
    requires a.id != c.id && HoldsItsBundle(l.book, a, moment)
    ensures HoldsItsBundle(Offered(l, c, gates, moment, ttl).book, a, moment)
    ensures AllAvailable(l.book, c, moment) ==> Disjoint(a, c) && Disjoint(c, a)
  {
    if AllAvailable(l.book, c, moment) {
      forall id | id in Ids(a) ensures id !in Ids(c) {
        forall i | 0 <= i < |Ids(c)| ensures Ids(c)[i] != id {
          assert AvailableIn(l.book, c.inputs[i].identity, c.id, moment);
        }
      }
    }
  }

  /** Approved candidates hold all their listings, and no two of them share one, whatever was in the registry before. */
  lemma {:induction false} ApprovedBundlesAreDisjoint(book: Book, cs: seq<TradeupCandidate>, gates: Gates,
                                                      moment: int, ttl: int)
    requires DistinctIds(cs) && ttl > 0
    ensures AllHold(Allocated(book, cs, gates, moment, ttl), moment)
    ensures PairwiseDisjoint(Allocated(book, cs, gates, moment, ttl).approved)
  {
    if cs != [] {
      var rest, c := cs[..|cs| - 1], cs[|cs| - 1];
      var before := Allocated(book, rest, gates, moment, ttl);
      var after := Offered(before, c, gates, moment, ttl);
      ApprovedBundlesAreDisjoint(book, rest, gates, moment, ttl);
      NewIdIsNew(book, cs, gates, moment, ttl);
      forall a | a in before.approved
        ensures HoldsItsBundle(after.book, a, moment)
        ensures AllAvailable(before.book, c, moment) ==> Disjoint(a, c) && Disjoint(c, a)
      {
        OfferKeepsHeldBundles(before, c, gates, moment, ttl, a);
      }
      if after.approved != before.approved {
        assert after.approved == before.approved + [c] && HoldsItsBundle(after.book, c, moment);
        forall i | 0 <= i < |before.approved|
          ensures Disjoint(after.approved[i], c) && Disjoint(c, after.approved[i])
        {
          assert before.approved[i] in before.approved;
        }
      }
    }
  }

  /** The candidate has no active reservation. */
  ghost predicate HoldsNothing(book: Book, candidate: int) {
    forall id | id in book :: book[id].candidate == candidate ==> !IsActive(book[id].state)
  }

  ghost predicate NoneHeldBy(book: Book, cs: seq<TradeupCandidate>) {
    forall i | 0 <= i < |cs| :: HoldsNothing(book, cs[i].id)
  }

  /** An approval takes exactly the bundle; a rejection, whatever was claimed on the way, changes no holding. */
  lemma OfferTakesAllOrNothing(l: Ledger, c: TradeupCandidate, gates: Gates, moment: int, ttl: int, id: ListingIdentity)
    requires HoldsNothing(l.book, c.id) && ttl > 0
    ensures HolderIn(Offered(l, c, gates, moment, ttl).book, id, moment)
         == if gates.discovery(c) && gates.finalRules(c) && AllAvailable(l.book, c, moment) && id in Ids(c)
            then Option.Some(c.id) else HolderIn(l.book, id, moment)
  {
    if AllAvailable(l.book, c, moment) && id in Ids(c) {
      var i :| 0 <= i < |Ids(c)| && Ids(c)[i] == id;
      assert AvailableIn(l.book, c.inputs[i].identity, c.id, moment);
    }
  }

  lemma {:induction false} LaterCandidatesHoldNothing(book: Book, cs: seq<TradeupCandidate>, gates: Gates, moment: int,
                                                      ttl: int, candidate: int)
    requires HoldsNothing(book, candidate) && forall i | 0 <= i < |cs| :: cs[i].id != candidate
    ensures HoldsNothing(Allocated(book, cs, gates, moment, ttl).book, candidate)
  {
    if cs != [] {
      LaterCandidatesHoldNothing(book, cs[..|cs| - 1], gates, moment, ttl, candidate);
    }
  }

  /** Who holds a listing after a run: the approved candidate using it, else whoever held it before. */
  ghost predicate HeldAsAllocated(book: Book, l: Ledger, moment: int, id: ListingIdentity) {
    && (forall a | a in l.approved && Uses(a, id) :: HolderIn(l.book, id, moment) == Option.Some(a.id))
    && ((forall a | a in l.approved :: !Uses(a, id)) ==> HolderIn(l.book, id, moment) == HolderIn(book, id, moment))
  }

  /** No leak: rejected candidates leave no trace in who holds what. */
  lemma {:induction false} RejectedCandidatesLeaveNothing(book: Book, cs: seq<TradeupCandidate>, gates: Gates,
                                                          moment: int, ttl: int, id: ListingIdentity)
    requires DistinctIds(cs) && NoneHeldBy(book, cs) && ttl > 0
    ensures HeldAsAllocated(book, Allocated(book, cs, gates, moment, ttl), moment, id)
  {
    if cs != [] {
      var rest, c := cs[..|cs| - 1], cs[|cs| - 1];
      var before := Allocated(book, rest, gates, moment, ttl);
      var after := Offered(before, c, gates, moment, ttl);
      assert forall i | 0 <= i < |rest| :: rest[i] == cs[i];
      RejectedCandidatesLeaveNothing(book, rest, gates, moment, ttl, id);
      LaterCandidatesHoldNothing(book, rest, gates, moment, ttl, c.id);
      OfferTakesAllOrNothing(before, c, gates, moment, ttl, id);
      ApprovedBundlesAreDisjoint(book, cs, gates, moment, ttl);
      assert forall a | a in after.approved && Uses(a, id) :: HoldsItsBundle(after.book, a, moment);
      assert forall a | a in before.approved :: a in after.approved;
      assert after.approved != before.approved ==> c in after.approved;
    }
  }

  /** From an empty registry, what is reserved at the end is exactly the union of the approved bundles. */
  lemma FreshRegistryHoldsExactlyTheApproved(cs: seq<TradeupCandidate>, gates: Gates, moment: int, ttl: int,
                                             id: ListingIdentity)
    requires DistinctIds(cs) && ttl > 0
    ensures var l := Allocated(map[], cs, gates, moment, ttl);
            HolderIn(l.book, id, moment).Some? <==> exists a :: a in l.approved && Uses(a, id)
  {
    RejectedCandidatesLeaveNothing(map[], cs, gates, moment, ttl, id);
  }

  // ----- when is a candidate approved?

  /** Some listing of the bundle belongs to another approved candidate, or to an outsider since before the run. */
  ghost predicate Blocked(book: Book, approved: seq<TradeupCandidate>, c: TradeupCandidate, moment: int) {
    exists id :: id in Ids(c) && Obstructed(book, approved, c, moment, id)
  }

  ghost predicate Obstructed(book: Book, approved: seq<TradeupCandidate>, c: TradeupCandidate, moment: int,
                             id: ListingIdentity)
  {
    HolderIn(book, id, moment).Some? || exists a :: a in approved && a.id != c.id && Uses(a, id)
  }

  /** At its turn, a listing is available exactly when nobody who counts already has it. */
  lemma AvailableWhenUnobstructed(book: Book, cs: seq<TradeupCandidate>, gates: Gates, moment: int, ttl: int,
                                  id: ListingIdentity)
    requires cs != [] && DistinctIds(cs) && NoneHeldBy(book, cs) && ttl > 0
    ensures var before, c := Allocated(book, cs[..|cs| - 1], gates, moment, ttl), cs[|cs| - 1];
            AvailableIn(before.book, id, c.id, moment) <==> !Obstructed(book, before.approved, c, moment, id)
  {
    var rest, c := cs[..|cs| - 1], cs[|cs| - 1];
    var before := Allocated(book, rest, gates, moment, ttl);
    assert forall i | 0 <= i < |rest| :: rest[i] == cs[i];
    RejectedCandidatesLeaveNothing(book, rest, gates, moment, ttl, id);
    LaterCandidatesHoldNothing(book, rest, gates, moment, ttl, c.id);
    NewIdIsNew(book, cs, gates, moment, ttl);
  }

  lemma LastIsApprovedWhenUnblocked(book: Book, cs: seq<TradeupCandidate>, gates: Gates, moment: int, ttl: int)
    requires cs != [] && DistinctIds(cs) && NoneHeldBy(book, cs) && ttl > 0
    ensures var approved, c := Allocated(book, cs, gates, moment, ttl).approved, cs[|cs| - 1];
            c in approved <==> gates.discovery(c) && gates.finalRules(c) && !Blocked(book, approved, c, moment)
  {
    var before, c := Allocated(book, cs[..|cs| - 1], gates, moment, ttl), cs[|cs| - 1];
    var approved := Allocated(book, cs, gates, moment, ttl).approved;
    NewIdIsNew(book, cs, gates, moment, ttl);
    forall id ensures AvailableIn(before.book, id, c.id, moment) <==> !Obstructed(book, approved, c, moment, id) {
      AvailableWhenUnobstructed(book, cs, gates, moment, ttl, id);
      assert forall a | a in approved && a.id != c.id :: a in before.approved;
      assert forall a | a in before.approved :: a in approved && a.id != c.id;
    }
    assert forall i | 0 <= i < |c.inputs| :: Ids(c)[i] == c.inputs[i].identity && Ids(c)[i] in Ids(c);
  }

  /** Later approvals never take a listing an approved candidate uses, nor free one a rejected candidate wanted. */
  lemma VerdictStands(book: Book, before: seq<TradeupCandidate>, after: seq<TradeupCandidate>, d: TradeupCandidate,
                      moment: int)
    requires forall a | a in before :: a in after
    requires d in before ==> forall a | a in after && a.id != d.id :: Disjoint(d, a)
    requires d in before <==> !Blocked(book, before, d, moment)
    ensures d in before <==> !Blocked(book, after, d, moment)
  {
    if d in before {
      forall id | id in Ids(d) ensures !Obstructed(book, after, d, moment, id) {
        assert !Obstructed(book, before, d, moment, id);
      }
    } else {
      var id :| id in Ids(d) && Obstructed(book, before, d, moment, id);
      assert Obstructed(book, after, d, moment, id);
    }
  }

  /**
   Which candidates are approved: exactly those that pass both gates and whose listings nobody else ends up with.
   So the rejections are all necessary, and the result cannot be enlarged by any rejected candidate.
   */
  lemma {:induction false} ApprovedExactlyWhenUnblocked(book: Book, cs: seq<TradeupCandidate>, gates: Gates,
                                                        moment: int,
                                                        ttl: int, k: nat)
    requires k < |cs| && DistinctIds(cs) && NoneHeldBy(book, cs) && ttl > 0
    ensures cs[k] in Allocated(book, cs, gates, moment, ttl).approved
       <==> gates.discovery(cs[k]) && gates.finalRules(cs[k])
            && !Blocked(book, Allocated(book, cs, gates, moment, ttl).approved, cs[k], moment)
  {
    var rest, c := cs[..|cs| - 1], cs[|cs| - 1];
    if k == |cs| - 1 {
      LastIsApprovedWhenUnblocked(book, cs, gates, moment, ttl);
    } else {
      var before := Allocated(book, rest, gates, moment, ttl).approved;
      var after := Allocated(book, cs, gates, moment, ttl).approved;
      assert forall i | 0 <= i < |rest| :: rest[i] == cs[i];
      ApprovedExactlyWhenUnblocked(book, rest, gates, moment, ttl, k);
      assert cs[k] in before <==> cs[k] in after;
      if gates.discovery(cs[k]) && gates.finalRules(cs[k]) {
        SharesWithNoOther(book, cs, gates, moment, ttl, cs[k]);
        VerdictStands(book, before, after, cs[k], moment);
      }
    }
  }

  lemma SharesWithNoOther(book: Book, cs: seq<TradeupCandidate>, gates: Gates, moment: int, ttl: int,
                          d: TradeupCandidate)
    requires DistinctIds(cs) && ttl > 0
    ensures var approved := Allocated(book, cs, gates, moment, ttl).approved;
            d in approved ==> forall a | a in approved && a.id != d.id :: Disjoint(d, a)
  {
    var approved := Allocated(book, cs, gates, moment, ttl).approved;
    ApprovedBundlesAreDisjoint(book, cs, gates, moment, ttl);
    forall a | d in approved && a in approved && a.id != d.id ensures Disjoint(d, a) {
      var i :| 0 <= i < |approved| && approved[i] == d;
      var j :| 0 <= j < |approved| && approved[j] == a;
      assert i != j;
    }
  }
}
