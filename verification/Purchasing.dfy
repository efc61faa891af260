/**
 The gated auto-buy engine (src/tradeup/purchasing/auto_buyer.py).

 A venue adapter is arbitrary: each reply is any function of every call made so far, so a venue may answer whatever
 it likes, consistently or not.  An adapter that raises instead of answering is not modelled.  Amounts are minor units
 of the base currency; the explanatory `detail` texts are dropped.
 */
module Purchasing {
  import opened Reservations
  import opened Wrappers

  datatype CapabilityStatus =
    | SupportedExecutionDisabled
    | OperatorActionRequired
    | AuthenticationRequired
    | RateLimited
    | TemporarilyUnavailable
    | Unsupported
    | PolicyBlocked

  /** An adapter's answer: data, or a typed refusal. */
  datatype Capability<+T> = Granted(value: T) | Refused(status: CapabilityStatus)

  datatype ListingStatus = Active | Sold | Withdrawn | Repriced | Unknown

  datatype ListingVerification = ListingVerification(status: ListingStatus, price: Option<int>)

  predicate IsPresent(v: ListingVerification) {
    v.status == Active || v.status == Repriced
  }

  predicate StillAsQuoted(v: ListingVerification, price: int) {
    v.status == Active && (v.price.None? || v.price.value == price)
  }

  datatype ExecutionStatus =
    NotAttempted | BlockedByPolicy | AwaitingOperator | Succeeded | Failed | ListingGone | PriceChanged

  datatype IntentId = IntentId(candidate: int, position: nat)

  datatype Report = Report(intent: IntentId, status: ExecutionStatus, actualPrice: Option<int>)

  /** Only a success records a price paid, and it always does. */
  type ExecutionResult = r: Report | r.status == Succeeded <==> r.actualPrice.Some?
    witness Report(IntentId(0, 0), NotAttempted, None)

  datatype PurchaseIntent = PurchaseIntent(id: IntentId, identity: ListingIdentity, maxPrice: nat)

  datatype Call =
    | VerifyCall(identity: ListingIdentity)
    | SubmitCall(intent: PurchaseIntent)
    | ReconcileCall(id: IntentId)

  datatype MarketAdapter = MarketAdapter(
    verify: (seq<Call>, ListingIdentity) -> Capability<ListingVerification>,
    submit: (seq<Call>, PurchaseIntent) -> Capability<PurchaseIntent>,
    reconcile: (seq<Call>, IntentId) -> Capability<ExecutionResult>)

  type Adapters = map<int, MarketAdapter>

  datatype Input = Input(identity: ListingIdentity, price: nat)

  datatype Bundle = Bundle(id: int, inputs: seq<Input>)

  /** A listing cannot occupy two slots in one contract. */
  type TradeupCandidate = c: Bundle |
    forall i, j | 0 <= i < j < |c.inputs| :: c.inputs[i].identity != c.inputs[j].identity
    witness Bundle(0, [])

  function RefusalStatus(s: CapabilityStatus): ExecutionStatus {
    match s
    case OperatorActionRequired => AwaitingOperator
    case Unsupported => BlockedByPolicy
    case PolicyBlocked => BlockedByPolicy
    case SupportedExecutionDisabled => BlockedByPolicy
    case AuthenticationRequired => Failed
    case RateLimited => Failed
    case TemporarilyUnavailable => Failed
  }

  // ----- the run, as a function of what the venues answer

  function Intent(c: TradeupCandidate, i: nat): PurchaseIntent
    requires i < |c.inputs|
  {
    PurchaseIntent(IntentId(c.id, i), c.inputs[i].identity, c.inputs[i].price)
  }

  function Ids(c: TradeupCandidate): (ids: seq<ListingIdentity>)
    ensures |ids| == |c.inputs| && forall i | 0 <= i < |ids| :: ids[i] == c.inputs[i].identity
  {
    seq(|c.inputs|, i requires 0 <= i < |c.inputs| => c.inputs[i].identity)
  }

  predicate AllAdapted(c: TradeupCandidate, adapters: Adapters) {
    forall i | 0 <= i < |c.inputs| :: c.inputs[i].identity.venue in adapters
  }

  /** No listing of the bundle is held by another candidate. */
  ghost predicate AllAvailable(book: Book, c: TradeupCandidate, moment: int) {
    forall i | 0 <= i < |c.inputs| :: AvailableIn(book, c.inputs[i].identity, c.id, moment)
  }

  lemma NoConflictIsAvailable(c: TradeupCandidate, book: Book, moment: int, conflicts: seq<ListingIdentity>)
    requires forall id :: id in conflicts <==> id in Ids(c) && !AvailableIn(book, id, c.id, moment)
    ensures conflicts == [] <==> AllAvailable(book, c, moment)
  {
    assert forall i | 0 <= i < |c.inputs| :: Ids(c)[i] == c.inputs[i].identity && Ids(c)[i] in Ids(c);
    if conflicts != [] {
      assert conflicts[0] in conflicts;
    }
  }

  function CeilingOf(inputs: seq<Input>): nat {
    if inputs == [] then 0 else CeilingOf(inputs[..|inputs| - 1]) + inputs[|inputs| - 1].price
  }

  /** The calls of the first `n` revalidations. */
  function VerifyCalls(c: TradeupCandidate, n: nat): seq<Call>
    requires n <= |c.inputs|
  {
    if n == 0 then [] else VerifyCalls(c, n - 1) + [VerifyCall(c.inputs[n - 1].identity)]
  }

  function VerifyReply(c: TradeupCandidate, adapters: Adapters, base: seq<Call>, i: nat)
      : Capability<ListingVerification>
    requires i < |c.inputs| && AllAdapted(c, adapters)
  {
    adapters[c.inputs[i].identity.venue].verify(base + VerifyCalls(c, i), c.inputs[i].identity)
  }

  /** The venue answers that the listing is active, at the quoted price or without naming one. */
  ghost predicate Confirms(reply: Capability<ListingVerification>, quoted: nat) {
    reply.Granted? && reply.value.status == Active && reply.value.price in {None, Option.Some(quoted)}
  }

  ghost predicate Passes(c: TradeupCandidate, adapters: Adapters, base: seq<Call>, i: nat)
    requires i < |c.inputs| && AllAdapted(c, adapters)
  {
    Confirms(VerifyReply(c, adapters, base, i), c.inputs[i].price)
  }

  /** Why a failed revalidation stops the bundle: no answer, no listing, or one no longer on offer at its price. */
  ghost function AbortStatus(reply: Capability<ListingVerification>): ExecutionStatus {
    match reply
    case Refused(_) => Failed
    case Granted(ListingVerification(Active, _)) => PriceChanged
    case Granted(ListingVerification(Repriced, _)) => PriceChanged
    case Granted(_) => ListingGone
  }

  /** The calls of the first `n` completed purchases. */
  function BuyCalls(c: TradeupCandidate, n: nat): seq<Call>
    requires n <= |c.inputs|
  {
    if n == 0 then []
    else BuyCalls(c, n - 1) + [SubmitCall(Intent(c, n - 1)), ReconcileCall(Intent(c, n - 1).id)]
  }

  function SubmitReply(c: TradeupCandidate, adapters: Adapters, base: seq<Call>, i: nat): Capability<PurchaseIntent>
    requires i < |c.inputs| && AllAdapted(c, adapters)
  {
    adapters[c.inputs[i].identity.venue].submit(base + BuyCalls(c, i), Intent(c, i))
  }

  function ReconcileReply(c: TradeupCandidate, adapters: Adapters, base: seq<Call>, i: nat): Capability<ExecutionResult>
    requires i < |c.inputs| && AllAdapted(c, adapters)
  {
    adapters[c.inputs[i].identity.venue].reconcile(base + BuyCalls(c, i) + [SubmitCall(Intent(c, i))], Intent(c, i).id)
  }

  /** The venue accepts the i-th purchase and reconciles it as succeeded. */
  predicate Delivers(c: TradeupCandidate, adapters: Adapters, base: seq<Call>, i: nat)
    requires i < |c.inputs| && AllAdapted(c, adapters)
  {
    && SubmitReply(c, adapters, base, i).Granted?
    && ReconcileReply(c, adapters, base, i).Granted?
    && ReconcileReply(c, adapters, base, i).value.status == Succeeded
  }

  /** Submitted, but the venue will not say what happened: money may have moved. */
  predicate InDoubt(c: TradeupCandidate, adapters: Adapters, base: seq<Call>, i: nat)
    requires i < |c.inputs| && AllAdapted(c, adapters)
  {
    SubmitReply(c, adapters, base, i).Granted? && ReconcileReply(c, adapters, base, i).Refused?
  }

  /** What the run records for input `i` when the first `bought` inputs were delivered and no more. */
  function ResultAt(c: TradeupCandidate, adapters: Adapters, base: seq<Call>, bought: nat, i: nat): ExecutionResult
    requires i < |c.inputs| && AllAdapted(c, adapters)
  {
    if i > bought then Report(Intent(c, i).id, NotAttempted, None)
    else if SubmitReply(c, adapters, base, i).Refused? then
      Report(Intent(c, i).id, RefusalStatus(SubmitReply(c, adapters, base, i).status), None)
    else if ReconcileReply(c, adapters, base, i).Refused? then Report(Intent(c, i).id, Failed, None)
    else ReconcileReply(c, adapters, base, i).value
  }

  /** What the run leaves of the reservation of input `i`. */
  function ReservationAt(c: TradeupCandidate, adapters: Adapters, base: seq<Call>, bought: nat, i: nat,
                         claim: AssetReservation, moment: int): AssetReservation
    requires i < |c.inputs| && AllAdapted(c, adapters)
  {
    var pending := Stepped(claim, PurchasePending, moment);
    if i < bought then Stepped(pending, Purchased, moment)
    else if i > bought then Stepped(claim, Released, moment)
    else if InDoubt(c, adapters, base, i) then pending
    else Stepped(pending, Released, moment)
  }

  /** The calls made once the first `bought` inputs were delivered and no more. */
  function RunCalls(c: TradeupCandidate, adapters: Adapters, base: seq<Call>, bought: nat): seq<Call>
    requires bought <= |c.inputs| && AllAdapted(c, adapters)
  {
    BuyCalls(c, bought)
    + if bought == |c.inputs| then []
      else if SubmitReply(c, adapters, base, bought).Refused? then [SubmitCall(Intent(c, bought))]
      else [SubmitCall(Intent(c, bought)), ReconcileCall(Intent(c, bought).id)]
  }

  /** `bought` inputs are delivered, in order, before the first that is not. */
  ghost predicate StopsAt(c: TradeupCandidate, adapters: Adapters, base: seq<Call>, bought: nat)
    requires AllAdapted(c, adapters)
  {
    && bought <= |c.inputs|
    && (forall i | 0 <= i < bought :: Delivers(c, adapters, base, i))
    && (bought < |c.inputs| ==> !Delivers(c, adapters, base, bought))
  }

  // ----- the engine

  class AutoBuyer {
    const liveExecutionEnabled: bool
    const maxDailySpend: int
    const spentToday: Option<int>
    const adapters: Adapters
    const reservations: ReservationRegistry
    /** Every call made to a venue, oldest first. */
    var trace: seq<Call>

    constructor (liveExecutionEnabled: bool, maxDailySpend: int, spentToday: Option<int>, adapters: Adapters,
                 reservations: ReservationRegistry)
      ensures this.liveExecutionEnabled == liveExecutionEnabled && this.maxDailySpend == maxDailySpend
      ensures this.spentToday == spentToday && this.adapters == adapters
      ensures this.reservations == reservations && trace == []
    {
      this.liveExecutionEnabled, this.maxDailySpend, this.spentToday := liveExecutionEnabled, maxDailySpend, spentToday;
      this.adapters, this.reservations := adapters, reservations;
      trace := [];
    }

    /** The rungs before any venue or reservation is touched. */
    predicate Gated(c: TradeupCandidate) {
      || !liveExecutionEnabled
      || spentToday.None?
      || spentToday.value + CeilingOf(c.inputs) > maxDailySpend
      || !AllAdapted(c, adapters)
    }

    function All(c: TradeupCandidate, status: ExecutionStatus): (r: seq<ExecutionResult>)
      requires status != Succeeded
      ensures |r| == |c.inputs|
      ensures forall i | 0 <= i < |r| :: r[i] == Report(IntentId(c.id, i), status, None)
    {
      seq(|c.inputs|, i requires 0 <= i < |c.inputs| => Report(IntentId(c.id, i), status, None))
    }

    /** The failing intent gets the status, every other one is recorded as not attempted. */
    function AbortOn(c: TradeupCandidate, failing: nat, status: ExecutionStatus): (r: seq<ExecutionResult>)
      requires status != Succeeded
      ensures |r| == |c.inputs|
      ensures forall i | 0 <= i < |r| ::
        r[i] == Report(IntentId(c.id, i), if i == failing then status else NotAttempted, None)
    {
      seq(|c.inputs|, i requires 0 <= i < |c.inputs| =>
        Report(IntentId(c.id, i), if i == failing then status else NotAttempted, None))
    }

    /** Re-checks every listing; `None` means proceed. */
    method Reverify(c: TradeupCandidate) returns (abort: Option<seq<ExecutionResult>>, ghost failing: nat)
      requires AllAdapted(c, adapters)
      modifies this
      ensures forall i | 0 <= i < failing && i < |c.inputs| :: Passes(c, adapters, old(trace), i)
      ensures abort.None? <==> failing == |c.inputs|
      ensures abort.None? ==> trace == old(trace) + VerifyCalls(c, |c.inputs|)
      ensures abort.Some? ==>
        && failing < |c.inputs| && !Passes(c, adapters, old(trace), failing)
        && trace == old(trace) + VerifyCalls(c, failing + 1)
        && abort.value == AbortOn(c, failing, AbortStatus(VerifyReply(c, adapters, old(trace), failing)))
    {
      ghost var base := trace;
      failing := |c.inputs|;
      for i := 0 to |c.inputs|
        invariant trace == base + VerifyCalls(c, i)
        invariant forall j | 0 <= j < i :: Passes(c, adapters, base, j)
      {
        var identity := c.inputs[i].identity;
        var verification := adapters[identity.venue].verify(trace, identity);
        trace := trace + [VerifyCall(identity)];
        assert trace == base + VerifyCalls(c, i + 1);
        if verification.Refused? {
          failing := i;
          return Option.Some(AbortOn(c, i, Failed)), failing;
        }
        if !IsPresent(verification.value) {
          failing := i;
          return Option.Some(AbortOn(c, i, ListingGone)), failing;
        }
        if !StillAsQuoted(verification.value, c.inputs[i].price) {
          failing := i;
          return Option.Some(AbortOn(c, i, PriceChanged)), failing;
        }
      }
      abort := None;
    }

    /** The listing's claim, and the steps still open to it. */
    ghost predicate HoldsClaim(c: TradeupCandidate, book: Book, i: nat)
      requires i < |c.inputs|
    {
      c.inputs[i].identity in book && book[c.inputs[i].identity].state == SoftReserved
    }

    /** Where the registry stands after the first `n` inputs of a run that delivers `bought`. */
    ghost predicate BookAfter(c: TradeupCandidate, base: seq<Call>, before: Book, book: Book, bought: nat, n: nat,
                              moment: int)
      requires n <= |c.inputs| && AllAdapted(c, adapters)
    {
      && book.Keys == before.Keys
      && (forall i | 0 <= i < |c.inputs| :: BookedAt(c, base, before, book, bought, n, moment, i))
      && (forall id | id in before && id !in Ids(c) :: book[id] == before[id])
    }

    ghost predicate BookedAt(c: TradeupCandidate, base: seq<Call>, before: Book, book: Book, bought: nat, n: nat,
                             moment: int, i: nat)
      requires n <= |c.inputs| && i < |c.inputs| && AllAdapted(c, adapters)
    {
      var id := c.inputs[i].identity;
      id in before && id in book
      && book[id] == if i < n then ReservationAt(c, adapters, base, bought, i, before[id], moment) else before[id]
    }

    /** `_release`: frees the listing unless it is bought or was never held. */
    method Release(identity: ListingIdentity, moment: int)
      modifies reservations
      ensures var before := old(reservations.byListing);
        reservations.byListing ==
          if identity in before && IsActive(before[identity].state) && before[identity].state != Purchased
          then before[identity := Stepped(before[identity], Released, moment)] else before
    {
      var state := reservations.StateOf(identity);
      if IsActive(state) && state != Purchased {
        var released := reservations.Transition(identity, Released, moment);
        assert released.Ok?;
      }
    }

    /** One purchase attempt: reserve as pending, submit, reconcile, and settle the reservation. */
    method BuyOne(c: TradeupCandidate, i: nat, moment: int, ghost base: seq<Call>)
        returns (result: ExecutionResult, stop: bool)
      requires i < |c.inputs| && AllAdapted(c, adapters)
      requires HoldsClaim(c, reservations.byListing, i) && trace == base + BuyCalls(c, i)
      modifies this, reservations
      ensures stop <==> !Delivers(c, adapters, base, i)
      ensures result == ResultAt(c, adapters, base, if stop then i else i + 1, i)
      ensures !stop ==> trace == base + BuyCalls(c, i + 1)
      ensures stop ==> trace == base + RunCalls(c, adapters, base, i)
      ensures var before, id := old(reservations.byListing), c.inputs[i].identity;
        reservations.byListing ==
          before[id := ReservationAt(c, adapters, base, if stop then i else i + 1, i, before[id], moment)]
    {
      var intent := Intent(c, i);
      var adapter := adapters[intent.identity.venue];
      var pending := reservations.Transition(intent.identity, PurchasePending, moment);
      assert pending.Ok?;
      var submitted := adapter.submit(trace, intent);
      trace := trace + [SubmitCall(intent)];
      if submitted.Refused? {
        Release(intent.identity, moment);
        return Report(intent.id, RefusalStatus(submitted.status), None), true;
      }
      assert trace == base + BuyCalls(c, i) + [SubmitCall(intent)];
      var reconciled := adapter.reconcile(trace, intent.id);
      trace := trace + [ReconcileCall(intent.id)];
      assert trace == base + BuyCalls(c, i + 1);
      if reconciled.Refused? {
        // Money may have moved: the reservation stays pending on purpose.
        return Report(intent.id, Failed, None), true;
      }
      var outcome := reconciled.value;
      if outcome.status == Succeeded {
        var purchased := reservations.Transition(intent.identity, Purchased, moment);
        assert purchased.Ok?;
        return outcome, false;
      }
      Release(intent.identity, moment);
      return outcome, true;
    }

    ghost predicate ResultsAre(c: TradeupCandidate, base: seq<Call>, bought: nat, results: seq<ExecutionResult>)
      requires |results| <= |c.inputs| && AllAdapted(c, adapters)
    {
      forall i | 0 <= i < |results| :: results[i] == ResultAt(c, adapters, base, bought, i)
    }

    lemma ResultStep(c: TradeupCandidate, base: seq<Call>, results: seq<ExecutionResult>, bought: nat, bought': nat,
                     result: ExecutionResult)
      requires |results| < |c.inputs| && AllAdapted(c, adapters)
      requires ResultsAre(c, base, bought, results)
      requires bought' == bought < |results| || (bought == |results| && bought <= bought' <= bought + 1)
      requires result == ResultAt(c, adapters, base, bought', |results|)
      ensures ResultsAre(c, base, bought', results + [result])
    {
    }

    lemma BookStart(c: TradeupCandidate, base: seq<Call>, before: Book, moment: int)
      requires AllAdapted(c, adapters) && forall i | 0 <= i < |c.inputs| :: HoldsClaim(c, before, i)
      ensures BookAfter(c, base, before, before, 0, 0, moment)
    {
      forall i | 0 <= i < |c.inputs| ensures BookedAt(c, base, before, before, 0, 0, moment, i) {
        assert HoldsClaim(c, before, i);
      }
    }

    lemma StillHeld(c: TradeupCandidate, base: seq<Call>, before: Book, book: Book, bought: nat, i: nat, moment: int)
      requires i < |c.inputs| && AllAdapted(c, adapters) && BookAfter(c, base, before, book, bought, i, moment)
      requires HoldsClaim(c, before, i)
      ensures HoldsClaim(c, book, i) && book[c.inputs[i].identity] == before[c.inputs[i].identity]
    {
      assert BookedAt(c, base, before, book, bought, i, moment, i);
    }

    /** Settling input `i` extends the account of the registry by one input. */
    lemma BookStep(c: TradeupCandidate, base: seq<Call>, before: Book, book: Book, after: Book, bought: nat,
                   bought': nat, i: nat, moment: int)
      requires i < |c.inputs| && AllAdapted(c, adapters)
      requires BookAfter(c, base, before, book, bought, i, moment)
      requires bought' == bought < i || (bought == i && i <= bought' <= i + 1)
      requires c.inputs[i].identity in before
      requires after == book[c.inputs[i].identity :=
        ReservationAt(c, adapters, base, bought', i, before[c.inputs[i].identity], moment)]
      ensures BookAfter(c, base, before, after, bought', i + 1, moment)
    {
      var n := i + 1;
      forall j | 0 <= j < |c.inputs| ensures BookedAt(c, base, before, after, bought', n, moment, j) {
        assert BookedAt(c, base, before, book, bought, i, moment, j);
        assert j != i ==> c.inputs[j].identity != c.inputs[i].identity;
      }
      assert Ids(c)[i] == c.inputs[i].identity;
    }

    /** After `i` turns: everything was delivered so far, or the run stopped at `bought`. */
    ghost predicate Progress(c: TradeupCandidate, base: seq<Call>, bought: nat, i: nat, aborted: bool, calls: seq<Call>)
      requires i <= |c.inputs| && AllAdapted(c, adapters)
    {
      && bought <= i && (forall j | 0 <= j < bought :: Delivers(c, adapters, base, j))
      && (!aborted ==> bought == i && calls == base + BuyCalls(c, i))
      && (aborted ==>
            bought < i && !Delivers(c, adapters, base, bought) && calls == base + RunCalls(c, adapters, base, bought))
    }

    /** One turn of the purchase loop after it stopped: the claim on input `i` is given back. */
    method SkipInput(c: TradeupCandidate, i: nat, moment: int, ghost base: seq<Call>, ghost before: Book,
                     ghost bought: nat)
        returns (result: ExecutionResult)
      requires bought < i < |c.inputs| && AllAdapted(c, adapters)
      requires HoldsClaim(c, before, i) && BookAfter(c, base, before, reservations.byListing, bought, i, moment)
      modifies reservations
      ensures result == ResultAt(c, adapters, base, bought, i)
      ensures BookAfter(c, base, before, reservations.byListing, bought, i + 1, moment)
    {
      ghost var book := reservations.byListing;
      StillHeld(c, base, before, book, bought, i, moment);
      result := Report(Intent(c, i).id, NotAttempted, None);
      Release(c.inputs[i].identity, moment);
      BookStep(c, base, before, book, reservations.byListing, bought, bought, i, moment);
    }

    /** One turn before it: everything up to input `i` was delivered. */
    method BuyInput(c: TradeupCandidate, i: nat, moment: int, ghost base: seq<Call>, ghost before: Book)
        returns (result: ExecutionResult, stop: bool, ghost bought: nat)
      requires i < |c.inputs| && AllAdapted(c, adapters)
      requires HoldsClaim(c, before, i) && BookAfter(c, base, before, reservations.byListing, i, i, moment)
      requires Progress(c, base, i, i, false, trace)
      modifies this, reservations
      ensures bought == if stop then i else i + 1
      ensures result == ResultAt(c, adapters, base, bought, i)
      ensures Progress(c, base, bought, i + 1, stop, trace)
      ensures BookAfter(c, base, before, reservations.byListing, bought, i + 1, moment)
    {
      ghost var book := reservations.byListing;
      StillHeld(c, base, before, book, i, i, moment);
      result, stop := BuyOne(c, i, moment, base);
      bought := if stop then i else i + 1;
      BookStep(c, base, before, book, reservations.byListing, i, bought, i, moment);
    }

    /** `bought` inputs are delivered before the first that is not; `calls` and `book` are what that leaves. */
    ghost predicate BoughtFrom(c: TradeupCandidate, base: seq<Call>, claimed: Book, moment: int,
                               results: seq<ExecutionResult>, bought: nat, calls: seq<Call>, book: Book)
      requires AllAdapted(c, adapters)
    {
      && |results| == |c.inputs| && StopsAt(c, adapters, base, bought)
      && ResultsAre(c, base, bought, results)
      && calls == base + RunCalls(c, adapters, base, bought)
      && BookAfter(c, base, claimed, book, bought, |c.inputs|, moment)
    }

    method BuySequentially(c: TradeupCandidate, moment: int) returns (results: seq<ExecutionResult>, ghost bought: nat)
      requires AllAdapted(c, adapters)
      requires forall i | 0 <= i < |c.inputs| :: HoldsClaim(c, reservations.byListing, i)
      modifies this, reservations
      ensures BoughtFrom(c, old(trace), old(reservations.byListing), moment, results, bought, trace,
                         reservations.byListing)
    {
      ghost var base, before := trace, reservations.byListing;
      results, bought := [], 0;
      var aborted := false;
      BookStart(c, base, before, moment);
      for i := 0 to |c.inputs|
        invariant |results| == i && bought <= i && ResultsAre(c, base, bought, results)
        invariant Progress(c, base, bought, i, aborted, trace)
        invariant BookAfter(c, base, before, reservations.byListing, bought, i, moment)
      {
        assert HoldsClaim(c, before, i);
        ghost var bought' := bought;
        var result;
        if aborted {
          result := SkipInput(c, i, moment, base, before, bought);
        } else {
          result, aborted, bought' := BuyInput(c, i, moment, base, before);
        }
        ResultStep(c, base, results, bought, bought', result);
        results := results + [result];
        bought := bought';
      }
    }

    /** No venue is contacted and no reservation is touched. */
    twostate predicate NothingHappened()
      reads this, reservations
    {
      trace == old(trace) && reservations.byListing == old(reservations.byListing)
    }

    /**
     What happens to a bundle whose listings are all claimed.  Aborted at `failing`: no purchase was ever submitted,
     and everything the candidate can still release is released.  Otherwise the run buys what the venues deliver, in
     order, up to the first failure.
     */
    ghost predicate Executed(c: TradeupCandidate, base: seq<Call>, claimed: Book, moment: int,
                             results: seq<ExecutionResult>, failing: nat, bought: nat, calls: seq<Call>, book: Book)
      requires AllAdapted(c, adapters)
    {
      && |results| == |c.inputs| && failing <= |c.inputs|
      && (forall i | 0 <= i < failing :: Passes(c, adapters, base, i))
      && if failing < |c.inputs| then
           && !Passes(c, adapters, base, failing)
           && results == AbortOn(c, failing, AbortStatus(VerifyReply(c, adapters, base, failing)))
           && calls == base + VerifyCalls(c, failing + 1)
           && book == ReleasedBy(claimed, c.id, moment)
         else
           BoughtFrom(c, base + VerifyCalls(c, |c.inputs|), claimed, moment, results, bought, calls, book)
    }

    method VerifyAndBuy(c: TradeupCandidate, moment: int)
        returns (results: seq<ExecutionResult>, ghost failing: nat, ghost bought: nat)
      requires AllAdapted(c, adapters)
      requires forall i | 0 <= i < |c.inputs| :: HoldsClaim(c, reservations.byListing, i)
      modifies this, reservations
      ensures Executed(c, old(trace), old(reservations.byListing), moment, results, failing, bought, trace,
                       reservations.byListing)
    {
      var abort;
      abort, failing := Reverify(c);
      if abort.Some? {
        var _ := reservations.ReleaseCandidate(c.id, moment);
        return abort.value, failing, 0;
      }
      results, bought := BuySequentially(c, moment);
    }

    lemma ClaimIsHeld(c: TradeupCandidate, book: Book, moment: int)
      ensures forall i | 0 <= i < |c.inputs| ::
        HoldsClaim(c, Claimed(book, c.id, Ids(c), moment, reservations.ttl), i)
    {
      assert forall i | 0 <= i < |c.inputs| :: Ids(c)[i] == c.inputs[i].identity && Ids(c)[i] in Ids(c);
    }

    /**
     The whole ladder.  Blocked: every intent refused, nothing touched.  Conflicted: nothing attempted, nothing
     touched.  Otherwise the bundle is claimed and executed.
     */
    method ExecuteCandidate(c: TradeupCandidate, moment: int)
        returns (results: seq<ExecutionResult>, ghost failing: nat, ghost bought: nat)
      modifies this, reservations
      ensures |results| == |c.inputs|
      ensures Gated(c) ==> results == All(c, BlockedByPolicy) && NothingHappened()
      ensures !Gated(c) && !AllAvailable(old(reservations.byListing), c, moment) ==>
        results == All(c, NotAttempted) && NothingHappened()
      ensures !Gated(c) && AllAvailable(old(reservations.byListing), c, moment) ==>
        Executed(c, old(trace), Claimed(old(reservations.byListing), c.id, Ids(c), moment, reservations.ttl), moment,
                 results, failing, bought, trace, reservations.byListing)
      ensures !Gated(c) ==> RequestsOnlyAsQuoted(c, adapters, old(trace), trace)
    {
      failing, bought := 0, 0;
      if !liveExecutionEnabled {
        return All(c, BlockedByPolicy), failing, bought;
      }
      if spentToday.None? {
        return All(c, BlockedByPolicy), failing, bought;
      }
      if spentToday.value + CeilingOf(c.inputs) > maxDailySpend {
        return All(c, BlockedByPolicy), failing, bought;
      }
      if !AllAdapted(c, adapters) {
        return All(c, BlockedByPolicy), failing, bought;
      }
      ghost var before := reservations.byListing;
      var claim := reservations.ClaimBundle(c.id, Ids(c), moment);
      NoConflictIsAvailable(c, before, moment, claim.conflicts);
      if claim.conflicts != [] {
        NothingIsRequested(c, adapters, trace);
        return All(c, NotAttempted), failing, bought;
      }
      ClaimIsHeld(c, before, moment);
      ghost var base, claimed := trace, reservations.byListing;
      results, failing, bought := VerifyAndBuy(c, moment);
      BuysOnlyAsQuoted(this, c, base, claimed, moment, results, failing, bought, trace, reservations.byListing);
    }
  }

  // ----- what a run means

  /**
   The shape of every run: successes first, then at most one other outcome, then nothing attempted.  A listing
   ends purchased exactly where its result is a success, pending exactly where money may have moved unseen,
   and released everywhere else.
   */
  lemma RunShape(c: TradeupCandidate, adapters: Adapters, base: seq<Call>, bought: nat, i: nat,
                 claim: AssetReservation, moment: int)
    requires AllAdapted(c, adapters) && StopsAt(c, adapters, base, bought) && i < |c.inputs|
    requires claim.state == SoftReserved
    ensures ResultAt(c, adapters, base, bought, i).status == Succeeded <==> i < bought
    ensures i > bought ==> ResultAt(c, adapters, base, bought, i).status == NotAttempted
    ensures var state := ReservationAt(c, adapters, base, bought, i, claim, moment).state;
            && (state == Purchased <==> ResultAt(c, adapters, base, bought, i).status == Succeeded)
            && (state == PurchasePending <==> i == bought && InDoubt(c, adapters, base, i))
            && (state == Released <==> i > bought || (i == bought && !InDoubt(c, adapters, base, i)))
  {
    if i < bought {
      assert Delivers(c, adapters, base, i);
    }
  }

  /**
   The result of the input a run stops at, in the venue's own words: refused by policy, left to a person, failed, in
   doubt and so failed, or whatever the venue itself reported.  Nothing is recorded as paid unless it says so.
   */
  lemma StoppingResult(c: TradeupCandidate, adapters: Adapters, base: seq<Call>, bought: nat)
    requires AllAdapted(c, adapters) && StopsAt(c, adapters, base, bought) && bought < |c.inputs|
    ensures var submitted := SubmitReply(c, adapters, base, bought);
            var reconciled := ReconcileReply(c, adapters, base, bought);
            ResultAt(c, adapters, base, bought, bought)
            == if submitted.Refused? && submitted.status in {SupportedExecutionDisabled, Unsupported, PolicyBlocked}
               then Report(IntentId(c.id, bought), BlockedByPolicy, None)
               else if submitted.Refused? && submitted.status == OperatorActionRequired
               then Report(IntentId(c.id, bought), AwaitingOperator, None)
               else if submitted.Refused? || reconciled.Refused?
               then Report(IntentId(c.id, bought), Failed, None)
               else reconciled.value
    ensures ResultAt(c, adapters, base, bought, bought).status != Succeeded
  {
  }

  /** Every reservation in a run moves only along the transition table. */
  lemma RunStepsAreLegal(c: TradeupCandidate, adapters: Adapters, base: seq<Call>, bought: nat, i: nat,
                         claim: AssetReservation, moment: int)
    requires AllAdapted(c, adapters) && i < |c.inputs| && claim.state == SoftReserved
    ensures var final := ReservationAt(c, adapters, base, bought, i, claim, moment);
            || TransitionTo(claim, final.state, moment) == Ok(final)
            || exists via: ReservationState ::
                 TransitionTo(claim, via, moment).Ok?
                 && TransitionTo(TransitionTo(claim, via, moment).value, final.state, moment) == Ok(final)
  {
    var final := ReservationAt(c, adapters, base, bought, i, claim, moment);
    assert TransitionTo(claim, PurchasePending, moment) == Ok(Stepped(claim, PurchasePending, moment));
    if i <= bought && final.state != PurchasePending {
      assert TransitionTo(TransitionTo(claim, PurchasePending, moment).value, final.state, moment) == Ok(final);
    }
  }

  lemma {:induction false} VerifyCallsAre(c: TradeupCandidate, n: nat)
    requires n <= |c.inputs|
    ensures |VerifyCalls(c, n)| == n
    ensures forall i | 0 <= i < n :: VerifyCalls(c, n)[i] == VerifyCall(c.inputs[i].identity)
  {
    if n > 0 {
      VerifyCallsAre(c, n - 1);
    }
  }

  lemma {:induction false} BuyCallsAre(c: TradeupCandidate, n: nat)
    requires n <= |c.inputs|
    ensures |BuyCalls(c, n)| == 2 * n && forall j | 0 <= j < 2 * n :: !BuyCalls(c, n)[j].VerifyCall?
  {
    if n > 0 {
      BuyCallsAre(c, n - 1);
    }
  }

  /** Every listing of the bundle is revalidated before the first purchase request, and none afterwards. */
  lemma VerifiedBeforeBuying(c: TradeupCandidate, adapters: Adapters, base: seq<Call>, bought: nat, j: nat)
    requires AllAdapted(c, adapters) && bought <= |c.inputs|
    requires j < |VerifyCalls(c, |c.inputs|) + RunCalls(c, adapters, base, bought)|
    ensures var calls := VerifyCalls(c, |c.inputs|) + RunCalls(c, adapters, base, bought);
            calls[j].VerifyCall? <==> j < |c.inputs| && calls[j] == VerifyCall(c.inputs[j].identity)
    ensures var calls := VerifyCalls(c, |c.inputs|) + RunCalls(c, adapters, base, bought);
            calls[j].SubmitCall? ==> forall i | 0 <= i < |c.inputs| :: VerifyCall(c.inputs[i].identity) in calls[..j]
  {
    var calls := VerifyCalls(c, |c.inputs|) + RunCalls(c, adapters, base, bought);
    VerifyCallsAre(c, |c.inputs|);
    BuyCallsAre(c, bought);
    if calls[j].SubmitCall? {
      assert j >= |c.inputs|;
      forall i | 0 <= i < |c.inputs| ensures VerifyCall(c.inputs[i].identity) in calls[..j] {
        assert calls[..j][i] == VerifyCall(c.inputs[i].identity);
      }
    }
  }

  /** The venue's answer about input `i`, field by field: on offer, and not at another price. */
  ghost predicate OnOfferAsQuoted(c: TradeupCandidate, adapters: Adapters, base: seq<Call>, i: nat)
    requires i < |c.inputs| && AllAdapted(c, adapters)
  {
    var reply := VerifyReply(c, adapters, base, i);
    && reply.Granted? && reply.value.status == Active
    && (reply.value.price.Some? ==> reply.value.price.value == c.inputs[i].price)
  }

  ghost predicate Submits(calls: seq<Call>) {
    exists j | 0 <= j < |calls| :: calls[j].SubmitCall?
  }

  /** Nothing is requested from a venue unless every venue answered that its listing is on offer as quoted. */
  ghost predicate RequestsOnlyAsQuoted(c: TradeupCandidate, adapters: Adapters, base: seq<Call>, calls: seq<Call>)
    requires AllAdapted(c, adapters)
  {
    && base <= calls
    && (Submits(calls[|base|..]) ==> forall i | 0 <= i < |c.inputs| :: OnOfferAsQuoted(c, adapters, base, i))
  }

  lemma NothingIsRequested(c: TradeupCandidate, adapters: Adapters, base: seq<Call>)
    requires AllAdapted(c, adapters)
    ensures RequestsOnlyAsQuoted(c, adapters, base, base)
  {
    assert base[|base|..] == [];
  }

  /** A purchase is requested only after every venue answered that its listing is on offer as quoted. */
  lemma BuysOnlyAsQuoted(buyer: AutoBuyer, c: TradeupCandidate, base: seq<Call>, claimed: Book, moment: int,
                         results: seq<ExecutionResult>, failing: nat, bought: nat, calls: seq<Call>, book: Book)
    requires AllAdapted(c, buyer.adapters)
    requires buyer.Executed(c, base, claimed, moment, results, failing, bought, calls, book)
    ensures RequestsOnlyAsQuoted(c, buyer.adapters, base, calls)
  {
    if failing < |c.inputs| {
      VerifyCallsAre(c, failing + 1);
      assert calls[|base|..] == VerifyCalls(c, failing + 1);
    } else {
      forall i | 0 <= i < |c.inputs| ensures OnOfferAsQuoted(c, buyer.adapters, base, i) {
        assert Passes(c, buyer.adapters, base, i);
      }
    }
  }

  /**
   At the first listing that is not, the bundle is given up: that input alone carries the reason, which is that the
   venue refused to answer, that the listing is gone, or that it is there but not at its price; nothing is requested.
   */
  lemma FirstDoubtAborts(buyer: AutoBuyer, c: TradeupCandidate, base: seq<Call>, claimed: Book, moment: int,
                         results: seq<ExecutionResult>, failing: nat, bought: nat, calls: seq<Call>, book: Book, i: nat)
    requires AllAdapted(c, buyer.adapters) && i < |c.inputs| && !OnOfferAsQuoted(c, buyer.adapters, base, i)
    requires forall j | 0 <= j < i :: OnOfferAsQuoted(c, buyer.adapters, base, j)
    requires buyer.Executed(c, base, claimed, moment, results, failing, bought, calls, book)
    ensures base <= calls && !Submits(calls[|base|..]) && book == ReleasedBy(claimed, c.id, moment)
    ensures forall j | 0 <= j < |c.inputs| && j != i :: results[j] == Report(IntentId(c.id, j), NotAttempted, None)
    ensures var reply := VerifyReply(c, buyer.adapters, base, i);
            results[i] == Report(IntentId(c.id, i),
              if reply.Refused? then Failed
              else if reply.value.status in {Sold, Withdrawn, Unknown} then ListingGone
              else PriceChanged, None)
  {
    BuysOnlyAsQuoted(buyer, c, base, claimed, moment, results, failing, bought, calls, book);
    assert !Passes(c, buyer.adapters, base, i);
    assert failing <= i;
    assert failing < i ==> OnOfferAsQuoted(c, buyer.adapters, base, failing);
    assert failing == i;
    VerifyCallsAre(c, failing + 1);
    assert calls[|base|..] == VerifyCalls(c, failing + 1);
  }

  /** The ceilings of all purchase requests in a trace. */
  function SubmittedTotal(calls: seq<Call>): nat {
    if calls == [] then 0
    else SubmittedTotal(calls[..|calls| - 1])
         + if calls[|calls| - 1].SubmitCall? then calls[|calls| - 1].intent.maxPrice else 0
  }

  lemma {:induction false} SubmittedAppend(a: seq<Call>, b: seq<Call>)
    ensures SubmittedTotal(a + b) == SubmittedTotal(a) + SubmittedTotal(b)
  {
    if b == [] {
      assert a + b == a;
    } else {
      assert (a + b)[..|a + b| - 1] == a + b[..|b| - 1];
      SubmittedAppend(a, b[..|b| - 1]);
    }
  }

  lemma {:induction false} NoSubmissionIn(calls: seq<Call>)
    requires forall i | 0 <= i < |calls| :: !calls[i].SubmitCall?
    ensures SubmittedTotal(calls) == 0
  {
    if calls != [] {
      NoSubmissionIn(calls[..|calls| - 1]);
    }
  }

  lemma {:induction false} BoughtTotal(c: TradeupCandidate, n: nat)
    requires n <= |c.inputs|
    ensures SubmittedTotal(BuyCalls(c, n)) == CeilingOf(c.inputs[..n])
  {
    if n > 0 {
      BoughtTotal(c, n - 1);
      PairTotal(Intent(c, n - 1));
      SubmittedAppend(BuyCalls(c, n - 1), [SubmitCall(Intent(c, n - 1)), ReconcileCall(Intent(c, n - 1).id)]);
      assert c.inputs[..n][..n - 1] == c.inputs[..n - 1];
    }
  }

  lemma PairTotal(intent: PurchaseIntent)
    ensures SubmittedTotal([SubmitCall(intent)]) == intent.maxPrice
    ensures SubmittedTotal([SubmitCall(intent), ReconcileCall(intent.id)]) == intent.maxPrice
  {
    SubmittedAppend([SubmitCall(intent)], [ReconcileCall(intent.id)]);
    NoSubmissionIn([ReconcileCall(intent.id)]);
    assert [SubmitCall(intent)] + [ReconcileCall(intent.id)] == [SubmitCall(intent), ReconcileCall(intent.id)];
    assert [SubmitCall(intent)][..0] == [];
  }

  lemma {:induction false} CeilingPrefix(inputs: seq<Input>, n: nat)
    requires n <= |inputs|
    ensures CeilingOf(inputs[..n]) <= CeilingOf(inputs)
  {
    if n == |inputs| {
      assert inputs[..n] == inputs;
    } else {
      assert inputs[..|inputs| - 1][..n] == inputs[..n];
      CeilingPrefix(inputs[..|inputs| - 1], n);
    }
  }

  lemma LastRequest(c: TradeupCandidate, adapters: Adapters, base: seq<Call>, bought: nat)
    requires AllAdapted(c, adapters) && bought < |c.inputs|
    ensures SubmittedTotal(RunCalls(c, adapters, base, bought))
         == SubmittedTotal(BuyCalls(c, bought)) + c.inputs[bought].price
  {
    PairTotal(Intent(c, bought));
    SubmittedAppend(BuyCalls(c, bought), [SubmitCall(Intent(c, bought))]);
    SubmittedAppend(BuyCalls(c, bought), [SubmitCall(Intent(c, bought)), ReconcileCall(Intent(c, bought).id)]);
  }

  /** A run asks for exactly the inputs up to the one it stops at, each once, so never more than the bundle ceiling. */
  lemma RunAsksFor(c: TradeupCandidate, adapters: Adapters, base: seq<Call>, bought: nat)
    requires AllAdapted(c, adapters) && bought <= |c.inputs|
    ensures SubmittedTotal(RunCalls(c, adapters, base, bought))
         == CeilingOf(c.inputs[..if bought < |c.inputs| then bought + 1 else bought])
    ensures SubmittedTotal(RunCalls(c, adapters, base, bought)) <= CeilingOf(c.inputs)
  {
    BoughtTotal(c, bought);
    if bought < |c.inputs| {
      LastRequest(c, adapters, base, bought);
      assert c.inputs[..bought + 1][..bought] == c.inputs[..bought];
    } else {
      assert BuyCalls(c, bought) + [] == BuyCalls(c, bought);
    }
    CeilingPrefix(c.inputs, if bought < |c.inputs| then bought + 1 else bought);
  }

  /** Money asked for in an ungated run, together with what was spent today, respects the daily limit. */
  lemma DailyLimitHolds(buyer: AutoBuyer, c: TradeupCandidate, base: seq<Call>, bought: nat)
    requires !buyer.Gated(c) && bought <= |c.inputs|
    ensures buyer.spentToday.value
            + SubmittedTotal(VerifyCalls(c, |c.inputs|) + RunCalls(c, buyer.adapters, base, bought))
         <= buyer.maxDailySpend
  {
    RunAsksFor(c, buyer.adapters, base, bought);
    SubmittedAppend(VerifyCalls(c, |c.inputs|), RunCalls(c, buyer.adapters, base, bought));
    VerifyCallsAre(c, |c.inputs|);
    NoSubmissionIn(VerifyCalls(c, |c.inputs|));
  }

  // ----- what is paid

  /** The prices the venues report as paid. */
  function PaidTotal(results: seq<ExecutionResult>): int {
    if results == [] then 0
    else
      var last := results[|results| - 1];
      PaidTotal(results[..|results| - 1]) + if last.actualPrice.Some? then last.actualPrice.value else 0
  }

  /** What a claimed bundle can come to, whatever the registry: the part of `Executed` that the venues decide. */
  ghost predicate Ran(c: TradeupCandidate, adapters: Adapters, base: seq<Call>, results: seq<ExecutionResult>,
                      failing: nat, bought: nat)
    requires AllAdapted(c, adapters)
  {
    && |results| == |c.inputs| && failing <= |c.inputs|
    && (forall i | 0 <= i < failing :: Passes(c, adapters, base, i))
    && if failing < |c.inputs| then
         && !Passes(c, adapters, base, failing)
         && forall i | 0 <= i < |results| :: results[i].actualPrice.None?
       else
         && StopsAt(c, adapters, base + VerifyCalls(c, |c.inputs|), bought)
         && forall i | 0 <= i < |results| ::
              results[i] == ResultAt(c, adapters, base + VerifyCalls(c, |c.inputs|), bought, i)
  }

  lemma ExecutedRan(buyer: AutoBuyer, c: TradeupCandidate, base: seq<Call>, claimed: Book, moment: int,
                    results: seq<ExecutionResult>, failing: nat, bought: nat, calls: seq<Call>, book: Book)
    requires AllAdapted(c, buyer.adapters)
    requires buyer.Executed(c, base, claimed, moment, results, failing, bought, calls, book)
    ensures Ran(c, buyer.adapters, base, results, failing, bought)
  {
  }

  /** Each input paid for is paid within its own intent's ceiling. */
  ghost predicate WithinCeilings(c: TradeupCandidate, results: seq<ExecutionResult>)
    requires |results| == |c.inputs|
  {
    forall i | 0 <= i < |results| ::
      results[i].actualPrice.Some? ==> results[i].actualPrice.value <= c.inputs[i].price
  }

  /** Whatever was asked before, the venues never report a delivery of this bundle above its ceiling. */
  ghost predicate HonourCeilings(c: TradeupCandidate, adapters: Adapters)
    requires AllAdapted(c, adapters)
  {
    forall i, calls | 0 <= i < |c.inputs| :: HonoursCeiling(c, adapters, i, calls)
  }

  ghost predicate HonoursCeiling(c: TradeupCandidate, adapters: Adapters, i: nat, calls: seq<Call>)
    requires i < |c.inputs| && AllAdapted(c, adapters)
  {
    var reply := adapters[c.inputs[i].identity.venue].reconcile(calls, Intent(c, i).id);
    reply.Granted? && reply.value.actualPrice.Some? ==> reply.value.actualPrice.value <= c.inputs[i].price
  }

  lemma {:induction false} PaidWithinCeilings(inputs: seq<Input>, results: seq<ExecutionResult>)
    requires |inputs| == |results|
    requires forall i | 0 <= i < |results| ::
      results[i].actualPrice.Some? ==> results[i].actualPrice.value <= inputs[i].price
    ensures PaidTotal(results) <= CeilingOf(inputs)
  {
    if results != [] {
      PaidWithinCeilings(inputs[..|results| - 1], results[..|results| - 1]);
    }
  }

  /** Venues that honour the ceilings are paid within each of them, and so within the bundle ceiling. */
  lemma HonestVenuesStayWithin(c: TradeupCandidate, adapters: Adapters, base: seq<Call>,
                               results: seq<ExecutionResult>, failing: nat, bought: nat)
    requires AllAdapted(c, adapters) && HonourCeilings(c, adapters)
    requires Ran(c, adapters, base, results, failing, bought)
    ensures WithinCeilings(c, results) && PaidTotal(results) <= CeilingOf(c.inputs)
  {
    if failing == |c.inputs| {
      var from := base + VerifyCalls(c, |c.inputs|);
      forall i | 0 <= i < |results| && results[i].actualPrice.Some?
        ensures results[i].actualPrice.value <= c.inputs[i].price
      {
        assert results[i] == ResultAt(c, adapters, from, bought, i);
        assert HonoursCeiling(c, adapters, i, from + BuyCalls(c, i) + [SubmitCall(Intent(c, i))]);
      }
    }
    PaidWithinCeilings(c.inputs, results);
  }

  /** For a buyer that lets the bundle through: the daily limit holds of what is paid, not only of what is asked for. */
  lemma HonestVenuesKeepTheLimit(buyer: AutoBuyer, c: TradeupCandidate, base: seq<Call>, claimed: Book, moment: int,
                                 results: seq<ExecutionResult>, failing: nat, bought: nat, calls: seq<Call>, book: Book)
    requires !buyer.Gated(c) && HonourCeilings(c, buyer.adapters)
    requires buyer.Executed(c, base, claimed, moment, results, failing, bought, calls, book)
    ensures WithinCeilings(c, results) && buyer.spentToday.value + PaidTotal(results) <= buyer.maxDailySpend
  {
    ExecutedRan(buyer, c, base, claimed, moment, results, failing, bought, calls, book);
    HonestVenuesStayWithin(c, buyer.adapters, base, results, failing, bought);
  }

  // ----- no venue is held to a ceiling

  /** Venues that accept every request and report `price` paid. */
  function Charging(venues: set<int>, price: int): Adapters {
    map v | v in venues :: MarketAdapter(
      (_, _) => Granted(ListingVerification(Active, None)),
      (_, intent) => Granted(intent),
      (_, id) => Granted(Report(id, Succeeded, Option.Some(price))))
  }

  function Venues(c: TradeupCandidate): set<int> {
    set i | 0 <= i < |c.inputs| :: c.inputs[i].identity.venue
  }

  function PaidEach(c: TradeupCandidate, n: nat, price: int): (results: seq<ExecutionResult>)
    ensures |results| == n
    ensures forall i | 0 <= i < n :: results[i] == Report(IntentId(c.id, i), Succeeded, Option.Some(price))
  {
    seq(n, i requires 0 <= i < n => Report(IntentId(c.id, i), Succeeded, Option.Some(price)))
  }

  lemma {:induction false} PaidEachTotal(c: TradeupCandidate, n: nat, price: int)
    ensures PaidTotal(PaidEach(c, n, price)) == n * price
  {
    if n > 0 {
      PaidEachTotal(c, n - 1, price);
      assert PaidEach(c, n, price)[..n - 1] == PaidEach(c, n - 1, price);
    }
  }

  lemma ChargingIsAdapted(c: TradeupCandidate, price: int)
    ensures AllAdapted(c, Charging(Venues(c), price))
  {
    assert forall i | 0 <= i < |c.inputs| :: c.inputs[i].identity.venue in Venues(c);
  }

  lemma ChargingAlways(c: TradeupCandidate, price: int, base: seq<Call>, i: nat, bought: nat)
    requires i < |c.inputs| && i <= bought && AllAdapted(c, Charging(Venues(c), price))
    ensures Passes(c, Charging(Venues(c), price), base, i) && Delivers(c, Charging(Venues(c), price), base, i)
    ensures ResultAt(c, Charging(Venues(c), price), base, bought, i)
         == Report(IntentId(c.id, i), Succeeded, Option.Some(price))
  {
  }

  /** Every run delivers everything, at the price the venues choose. */
  lemma ChargingDelivers(c: TradeupCandidate, price: int, base: seq<Call>, results: seq<ExecutionResult>, failing: nat,
                         bought: nat)
    requires AllAdapted(c, Charging(Venues(c), price))
    requires Ran(c, Charging(Venues(c), price), base, results, failing, bought)
    ensures failing == bought == |c.inputs| && results == PaidEach(c, |c.inputs|, price)
  {
    var from := base + VerifyCalls(c, |c.inputs|);
    if failing < |c.inputs| {
      ChargingAlways(c, price, base, failing, failing);
    }
    if bought < |c.inputs| {
      ChargingAlways(c, price, from, bought, bought);
    }
    forall i | 0 <= i < |c.inputs| ensures results[i] == PaidEach(c, |c.inputs|, price)[i] {
      ChargingAlways(c, price, from, i, bought);
    }
  }

  /** And there is such a run. */
  lemma ChargingRuns(c: TradeupCandidate, price: int, base: seq<Call>)
    requires AllAdapted(c, Charging(Venues(c), price))
    ensures Ran(c, Charging(Venues(c), price), base, PaidEach(c, |c.inputs|, price), |c.inputs|, |c.inputs|)
  {
    var adapters, n := Charging(Venues(c), price), |c.inputs|;
    forall i | 0 <= i < n ensures Passes(c, adapters, base, i) {
      ChargingAlways(c, price, base, i, n);
    }
    var from := base + VerifyCalls(c, n);
    forall i | 0 <= i < n ensures Delivers(c, adapters, from, i) {
      ChargingAlways(c, price, from, i, n);
    }
    forall i | 0 <= i < n ensures PaidEach(c, n, price)[i] == ResultAt(c, adapters, from, n, i) {
      ChargingAlways(c, price, from, i, n);
    }
  }

  /** Over every run with these venues, no more than `room` is paid. */
  ghost predicate PaysWithin(c: TradeupCandidate, adapters: Adapters, room: int)
    requires AllAdapted(c, adapters)
  {
    forall base, results, failing: nat, bought: nat ::
      Ran(c, adapters, base, results, failing, bought) ==> PaidTotal(results) <= room
  }

  /** Over every run with these venues, each input is paid within its ceiling. */
  ghost predicate KeepsCeilings(c: TradeupCandidate, adapters: Adapters)
    requires AllAdapted(c, adapters)
  {
    forall base, results, failing: nat, bought: nat ::
      Ran(c, adapters, base, results, failing, bought) ==> WithinCeilings(c, results)
  }

  lemma {:induction false} OnePriceIsLess(inputs: seq<Input>, i: nat)
    requires i < |inputs|
    ensures inputs[i].price <= CeilingOf(inputs)
  {
    if i < |inputs| - 1 {
      OnePriceIsLess(inputs[..|inputs| - 1], i);
    }
  }

  /** Some venues are paid more than the room, and more than every ceiling. */
  lemma SomeVenuesOvercharge(c: TradeupCandidate, room: int)
    requires c.inputs != [] && CeilingOf(c.inputs) <= room
    ensures AllAdapted(c, Charging(Venues(c), room + 1))
    ensures !PaysWithin(c, Charging(Venues(c), room + 1), room)
    ensures !KeepsCeilings(c, Charging(Venues(c), room + 1))
  {
    var price, n := room + 1, |c.inputs|;
    var results := PaidEach(c, n, price);
    ChargingIsAdapted(c, price);
    ChargingRuns(c, price, []);
    PaidEachTotal(c, n, price);
    AtLeastOnce(n, price);
    OnePriceIsLess(c.inputs, 0);
    assert Ran(c, Charging(Venues(c), price), [], results, n, n) && results[0].actualPrice == Option.Some(price);
  }

  lemma AtLeastOnce(n: nat, price: nat)
    requires n > 0
    ensures price <= n * price
  {
  }

  lemma EmptyBundlesAreSafe(c: TradeupCandidate, adapters: Adapters, room: int)
    requires c.inputs == [] && room >= 0
    ensures AllAdapted(c, adapters) && PaysWithin(c, adapters, room) && KeepsCeilings(c, adapters)
  {
    forall base, results, failing: nat, bought: nat | Ran(c, adapters, base, results, failing, bought)
      ensures PaidTotal(results) <= room
    {
      assert results == [];
    }
  }

  /**
   The engine compares no reported price with a ceiling.  So over all venues, a bundle whose ceilings fit the room left
   for today stays within that room, and within its own ceilings, if and only if it buys nothing at all.
   */
  lemma OnlyEmptyBundlesAreSafe(c: TradeupCandidate, room: int)
    requires CeilingOf(c.inputs) <= room
    ensures (forall adapters | AllAdapted(c, adapters) :: PaysWithin(c, adapters, room)) <==> c.inputs == []
    ensures (forall adapters | AllAdapted(c, adapters) :: KeepsCeilings(c, adapters)) <==> c.inputs == []
  {
    if c.inputs == [] {
      forall adapters | AllAdapted(c, adapters) ensures PaysWithin(c, adapters, room) && KeepsCeilings(c, adapters) {
        EmptyBundlesAreSafe(c, adapters, room);
      }
    } else {
      SomeVenuesOvercharge(c, room);
    }
  }

  lemma ExecutedCharged(buyer: AutoBuyer, c: TradeupCandidate, price: int, base: seq<Call>, claimed: Book, moment: int,
                        results: seq<ExecutionResult>, failing: nat, bought: nat, calls: seq<Call>, book: Book)
    requires buyer.adapters == Charging(Venues(c), price) && AllAdapted(c, buyer.adapters)
    requires buyer.Executed(c, base, claimed, moment, results, failing, bought, calls, book)
    ensures results == PaidEach(c, |c.inputs|, price)
  {
    ExecutedRan(buyer, c, base, claimed, moment, results, failing, bought, calls, book);
    ChargingDelivers(c, price, base, results, failing, bought);
  }

  /** In the engine: with such venues every rung passes, and every executed run pays past the daily limit. */
  lemma OverchargedPastTheLimit(buyer: AutoBuyer, c: TradeupCandidate, base: seq<Call>, claimed: Book, moment: int,
                                results: seq<ExecutionResult>, failing: nat, bought: nat, calls: seq<Call>, book: Book)
    requires buyer.liveExecutionEnabled && buyer.spentToday.Some? && c.inputs != []
    requires buyer.spentToday.value + CeilingOf(c.inputs) <= buyer.maxDailySpend
    requires buyer.adapters == Charging(Venues(c), buyer.maxDailySpend - buyer.spentToday.value + 1)
    ensures !buyer.Gated(c)
    ensures buyer.Executed(c, base, claimed, moment, results, failing, bought, calls, book) ==>
      buyer.spentToday.value + PaidTotal(results) > buyer.maxDailySpend
  {
    var price := buyer.maxDailySpend - buyer.spentToday.value + 1;
    ChargingIsAdapted(c, price);
    PaidEachTotal(c, |c.inputs|, price);
    AtLeastOnce(|c.inputs|, price);
    if buyer.Executed(c, base, claimed, moment, results, failing, bought, calls, book) {
      ExecutedCharged(buyer, c, price, base, claimed, moment, results, failing, bought, calls, book);
    }
  }

  /** One listing quoted at 100. */
  function QuotedAtHundred(): TradeupCandidate {
    Bundle(0, [Input(ListingIdentity(0, 0), 100)])
  }

  /** For instance: a bundle that just fits the limit passes every rung, and more than the limit is paid for it. */
  lemma CeilingIsNotEnforced(buyer: AutoBuyer, base: seq<Call>, claimed: Book, moment: int,
                             results: seq<ExecutionResult>, failing: nat, bought: nat, calls: seq<Call>, book: Book)
    requires buyer.liveExecutionEnabled && buyer.maxDailySpend == 100 && buyer.spentToday == Option.Some(0)
    requires buyer.adapters == Charging({0}, 101)
    ensures !buyer.Gated(QuotedAtHundred())
    ensures buyer.Executed(QuotedAtHundred(), base, claimed, moment, results, failing, bought, calls, book)
            ==> results == [Report(IntentId(0, 0), Succeeded, Option.Some(101))] && PaidTotal(results) == 101
  {
    var c := QuotedAtHundred();
    assert Venues(c) == {0} by { assert c.inputs[0].identity.venue == 0; }
    assert c.inputs[..0] == [] && CeilingOf(c.inputs) == 100;
    PaidEachTotal(c, 1, 101);
    if buyer.Executed(c, base, claimed, moment, results, failing, bought, calls, book) {
      ExecutedCharged(buyer, c, 101, base, claimed, moment, results, failing, bought, calls, book);
    }
  }

  /** After an abort nobody holds a listing of the bundle, not even one bought before: the claim overwrote that. */
  lemma AbortFreesTheBundle(book: Book, c: TradeupCandidate, moment: int, ttl: int, i: nat)
    requires i < |c.inputs|
    ensures var after := ReleasedBy(Claimed(book, c.id, Ids(c), moment, ttl), c.id, moment);
            HolderIn(after, c.inputs[i].identity, moment).None?
  {
    assert Ids(c)[i] in Ids(c);
  }

  /** Other candidates' holdings survive both a claim and its release. */
  lemma OthersAreUntouched(book: Book, c: TradeupCandidate, moment: int, ttl: int, id: ListingIdentity)
    requires forall i | 0 <= i < |c.inputs| :: AvailableIn(book, c.inputs[i].identity, c.id, moment)
    requires HolderIn(book, id, moment).Some? && HolderIn(book, id, moment).value != c.id
    ensures id !in Ids(c)
    ensures HolderIn(ReleasedBy(Claimed(book, c.id, Ids(c), moment, ttl), c.id, moment), id, moment)
         == HolderIn(book, id, moment)
  {
    forall i | 0 <= i < |Ids(c)| ensures Ids(c)[i] != id {
      assert AvailableIn(book, c.inputs[i].identity, c.id, moment);
    }
  }
}
