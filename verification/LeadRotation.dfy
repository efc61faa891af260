/**
 Rotating the confirmation budget over the board (src/tradeup/pipeline/confirm_batch.py: `select_leads` and the
 exclusion set of `run_confirmation_batch`).  Keys are (collection, rarity, quality, wear); moments are integers.
 */
module LeadRotation {
  import opened Sorting
  import opened Wrappers

  datatype LeadKey = LeadKey(collection: int, rarity: int, quality: int, wear: int)

  /** A ranked estimate; several variants can share a key. */
  datatype Prospect = Prospect(key: LeadKey, variant: int, estimatedRoi: real)

  function Keys(s: seq<Prospect>): set<LeadKey> {
    set p | p in s :: p.key
  }

  /** The distinct above-floor leads, best-ranked variant first. */
  function DistinctLeads(prospects: seq<Prospect>, floor: real): seq<Prospect> {
    if prospects == [] then []
    else
      var before := DistinctLeads(prospects[..|prospects| - 1], floor);
      var last := prospects[|prospects| - 1];
      if last.estimatedRoi < floor || last.key in Keys(before) then before else before + [last]
  }

  /** The leads whose key is not excluded. */
  function Unconfirmed(leads: seq<Prospect>, exclude: set<LeadKey>): seq<Prospect> {
    if leads == [] then []
    else
      var before := Unconfirmed(leads[..|leads| - 1], exclude);
      if leads[|leads| - 1].key in exclude then before else before + [leads[|leads| - 1]]
  }

  function Prefix(s: seq<Prospect>, n: nat): seq<Prospect> {
    if |s| <= n then s else s[..n]
  }

  /** The loop takes a lead before it looks at `top`, so it always takes one. */
  function BatchSize(top: int): nat {
    if top < 1 then 1 else top
  }

  function Selection(leads: seq<Prospect>, top: int, exclude: set<LeadKey>): seq<Prospect> {
    var open := Unconfirmed(leads, exclude);
    if open == [] then Prefix(leads, BatchSize(top)) else Prefix(open, BatchSize(top))
  }

  // ----- what the distinct leads are

  /** `p` at position `j` is the best-ranked above-floor variant of its key. */
  ghost predicate IsBestVariant(prospects: seq<Prospect>, floor: real, j: nat)
    requires j < |prospects|
  {
    prospects[j].estimatedRoi >= floor
    && forall i | 0 <= i < j :: prospects[i].estimatedRoi >= floor ==> prospects[i].key != prospects[j].key
  }

  lemma {:induction false} KeysOfDistinctLeads(prospects: seq<Prospect>, floor: real, key: LeadKey)
    ensures key in Keys(DistinctLeads(prospects, floor))
       <==> exists i | 0 <= i < |prospects| :: prospects[i].estimatedRoi >= floor && prospects[i].key == key
  {
    if prospects != [] {
      var n := |prospects| - 1;
      var rest, before, all := prospects[..n], DistinctLeads(prospects[..n], floor), DistinctLeads(prospects, floor);
      KeysOfDistinctLeads(rest, floor, key);
      assert all == before || all == before + [prospects[n]];
      assert all == before + [prospects[n]] ==> prospects[n] in all;
      assert forall p | p in before :: p in all;
      assert forall i | 0 <= i < n :: rest[i] == prospects[i];
    }
  }

  /** The leads are exactly the best-ranked above-floor variants, one per key. */
  lemma {:induction false} LeadsAreBestVariants(prospects: seq<Prospect>, floor: real, p: Prospect)
    ensures p in DistinctLeads(prospects, floor)
       <==> exists j | 0 <= j < |prospects| :: prospects[j] == p && IsBestVariant(prospects, floor, j)
  {
    if prospects != [] {
      var n := |prospects| - 1;
      var rest := prospects[..n];
      LeadsAreBestVariants(rest, floor, p);
      KeysOfDistinctLeads(rest, floor, prospects[n].key);
      forall j | 0 <= j < n ensures IsBestVariant(prospects, floor, j) <==> IsBestVariant(rest, floor, j) {
        assert forall i | 0 <= i <= j :: rest[i] == prospects[i];
      }
      assert IsBestVariant(prospects, floor, n)
        <==> prospects[n].estimatedRoi >= floor && prospects[n].key !in Keys(DistinctLeads(rest, floor));
      assert forall j | 0 <= j < n :: rest[j] == prospects[j];
    }
  }

  ghost predicate DistinctKeys(leads: seq<Prospect>) {
    forall i, j | 0 <= i < j < |leads| :: leads[i].key != leads[j].key
  }

  lemma {:induction false} LeadsHaveDistinctKeys(prospects: seq<Prospect>, floor: real)
    ensures DistinctKeys(DistinctLeads(prospects, floor))
  {
    if prospects != [] {
      LeadsHaveDistinctKeys(prospects[..|prospects| - 1], floor);
      var before := DistinctLeads(prospects[..|prospects| - 1], floor);
      assert forall i | 0 <= i < |before| :: before[i].key in Keys(before);
    }
  }

  // ----- the selection loop

  lemma {:induction false} OpenLeadsGrow(prospects: seq<Prospect>, floor: real, exclude: set<LeadKey>, i: nat)
    requires i <= |prospects|
    ensures Unconfirmed(DistinctLeads(prospects[..i], floor), exclude)
         <= Unconfirmed(DistinctLeads(prospects, floor), exclude)
  {
    if i == |prospects| {
      WholePrefix(prospects);
    } else {
      var n := |prospects| - 1;
      assert prospects[..n][..i] == prospects[..i];
      OpenLeadsGrow(prospects[..n], floor, exclude, i);
      UnconfirmedStep(DistinctLeads(prospects[..n], floor), prospects[n], exclude);
    }
  }

  lemma UnconfirmedStep(leads: seq<Prospect>, p: Prospect, exclude: set<LeadKey>)
    ensures Unconfirmed(leads + [p], exclude) == Unconfirmed(leads, exclude) + if p.key in exclude then [] else [p]
  {
    assert (leads + [p])[..|leads|] == leads;
  }

  lemma BatchIsFull(prospects: seq<Prospect>, floor: real, exclude: set<LeadKey>, i: nat, top: int)
    requires i <= |prospects|
    requires |Unconfirmed(DistinctLeads(prospects[..i], floor), exclude)| == BatchSize(top)
    ensures Unconfirmed(DistinctLeads(prospects[..i], floor), exclude)
         == Selection(DistinctLeads(prospects, floor), top, exclude)
  {
    OpenLeadsGrow(prospects, floor, exclude, i);
  }

  lemma ScanStep(prospects: seq<Prospect>, floor: real, exclude: set<LeadKey>, i: nat)
    requires i < |prospects|
    ensures var before, after := DistinctLeads(prospects[..i], floor), DistinctLeads(prospects[..i + 1], floor);
            var p := prospects[i];
            if p.estimatedRoi < floor || p.key in Keys(before) then after == before
            else Keys(after) == Keys(before) + {p.key}
                 && Unconfirmed(after, exclude) == Unconfirmed(before, exclude) + if p.key in exclude then [] else [p]
  {
    assert prospects[..i + 1][..i] == prospects[..i];
    UnconfirmedStep(DistinctLeads(prospects[..i], floor), prospects[i], exclude);
  }

  method SelectLeads(prospects: seq<Prospect>, top: int, floor: real, exclude: set<LeadKey>)
      returns (leads: seq<Prospect>)
    ensures leads == Selection(DistinctLeads(prospects, floor), top, exclude)
    decreases exclude
  {
    var seen: set<LeadKey> := {};
    var skippedRecent := false;
    leads := [];
    for i := 0 to |prospects|
      invariant seen == Keys(DistinctLeads(prospects[..i], floor))
      invariant leads == Unconfirmed(DistinctLeads(prospects[..i], floor), exclude)
      invariant skippedRecent <==> !(seen !! exclude)
      invariant |leads| < BatchSize(top)
    {
      var prospect := prospects[i];
      ScanStep(prospects, floor, exclude, i);
      if prospect.estimatedRoi < floor || prospect.key in seen {
        continue;
      }
      seen := seen + {prospect.key};
      if prospect.key in exclude {
        skippedRecent := true;
        continue;
      }
      leads := leads + [prospect];
      assert leads == Unconfirmed(DistinctLeads(prospects[..i + 1], floor), exclude);
      if |leads| >= top {
        BatchIsFull(prospects, floor, exclude, i + 1, top);
        return;
      }
    }
    WholePrefix(prospects);
    if leads == [] && skippedRecent {
      leads := SelectLeads(prospects, top, floor, {});
      NothingExcluded(DistinctLeads(prospects, floor));
    } else if leads == [] {
      NothingSkipped(DistinctLeads(prospects, floor), exclude);
    }
  }

  lemma {:induction false} NothingExcluded(leads: seq<Prospect>)
    ensures Unconfirmed(leads, {}) == leads
  {
    if leads != [] {
      NothingExcluded(leads[..|leads| - 1]);
    }
  }

  lemma {:induction false} NothingSkipped(leads: seq<Prospect>, exclude: set<LeadKey>)
    requires Keys(leads) !! exclude
    ensures Unconfirmed(leads, exclude) == leads
  {
    if leads != [] {
      var rest, last := leads[..|leads| - 1], leads[|leads| - 1];
      assert last.key in Keys(leads);
      assert Keys(rest) <= Keys(leads);
      NothingSkipped(rest, exclude);
    }
  }

  // ----- batches

  datatype ConfirmationRow = ConfirmationRow(key: LeadKey, confirmedAt: int)

  /** What a batch works on: the distinct leads of the board, the budget, the rotation window and the rarity filter. */
  datatype Plan = Plan(leads: seq<Prospect>, top: int, window: int, rarities: Option<set<int>>)

  datatype Times = Times(sweptAt: int, recordedAt: int)

  function RecentlyConfirmed(rows: seq<ConfirmationRow>, window: int, sweptAt: int): set<LeadKey> {
    if window > 0 then set r | r in rows && r.confirmedAt >= sweptAt - window :: r.key else {}
  }

  function RowsFor(leads: seq<Prospect>, recordedAt: int): (r: seq<ConfirmationRow>)
    ensures |r| == |leads| && forall i | 0 <= i < |r| :: r[i] == ConfirmationRow(leads[i].key, recordedAt)
  {
    seq(|leads|, i requires 0 <= i < |leads| => ConfirmationRow(leads[i].key, recordedAt))
  }

  /** The leads of an allowed rarity; no filter allows all. */
  function Allowed(leads: seq<Prospect>, rarities: Option<set<int>>): seq<Prospect> {
    if leads == [] then []
    else
      var before := Allowed(leads[..|leads| - 1], rarities);
      var last := leads[|leads| - 1];
      if rarities.None? || last.key.rarity in rarities.value then before + [last] else before
  }

  /** The leads a batch confirms, given what was recorded before it. */
  function Picked(plan: Plan, rows: seq<ConfirmationRow>, sweptAt: int): seq<Prospect> {
    Allowed(Selection(plan.leads, plan.top, RecentlyConfirmed(rows, plan.window, sweptAt)), plan.rarities)
  }

  class ConfirmationLog {
    var rows: seq<ConfirmationRow>

    constructor ()
      ensures rows == []
    {
      rows := [];
    }

    /** Every confirmed lead is recorded, whatever came of it. */
    method RunBatch(prospects: seq<Prospect>, top: int, floor: real, window: int, rarities: Option<set<int>>,
                    times: Times)
        returns (leads: seq<Prospect>)
      modifies this
      ensures leads == Picked(Plan(DistinctLeads(prospects, floor), top, window, rarities), old(rows), times.sweptAt)
      ensures rows == old(rows) + RowsFor(leads, times.recordedAt)
    {
      var prior, recent := rows, {};
      if window > 0 {
        var horizon := times.sweptAt - window;
        for i := 0 to |prior|
          invariant rows == prior && recent == set r | r in prior[..i] && r.confirmedAt >= horizon :: r.key
        {
          PrefixStep(prior, i);
          if prior[i].confirmedAt >= horizon {
            recent := recent + {prior[i].key};
          }
        }
        WholePrefix(prior);
      }
      var selected := SelectLeads(prospects, top, floor, recent);
      leads := [];
      for i := 0 to |selected|
        invariant rows == prior && leads == Allowed(selected[..i], rarities)
      {
        assert selected[..i + 1][..i] == selected[..i];
        if rarities.None? || selected[i].key.rarity in rarities.value {
          leads := leads + [selected[i]];
        }
      }
      WholePrefix(selected);
      for i := 0 to |leads|
        invariant rows == prior + RowsFor(leads[..i], times.recordedAt)
      {
        rows := rows + [ConfirmationRow(leads[i].key, times.recordedAt)];
        assert RowsFor(leads[..i + 1], times.recordedAt)
            == RowsFor(leads[..i], times.recordedAt) + [ConfirmationRow(leads[i].key, times.recordedAt)];
      }
      WholePrefix(leads);
    }
  }
}
