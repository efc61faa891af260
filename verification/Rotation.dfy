/**
 What rotation achieves over a run of batches on an unchanged board: which leads are confirmed, and when
 (the comments in src/tradeup/pipeline/confirm_batch.py:74-77 and 311-313).
 */
module Rotation {
  import opened LeadRotation
  import opened Sorting
  import opened Wrappers

  /** A run: the recorded rows before each batch and after the last, and what each batch confirmed. */
  datatype Run = Run(plan: Plan, times: seq<Times>, rows: seq<seq<ConfirmationRow>>, picks: seq<seq<Prospect>>)

  /** Batch `b` did what a batch does. */
  ghost predicate IsBatch(run: Run, b: nat)
    requires b < |run.times| == |run.picks| && |run.rows| == |run.times| + 1
  {
    && run.picks[b] == Picked(run.plan, run.rows[b], run.times[b].sweptAt)
    && run.rows[b + 1] == run.rows[b] + RowsFor(run.picks[b], run.times[b].recordedAt)
  }

  predicate StillRecent(window: int, recorded: Times, swept: Times) {
    recorded.recordedAt >= swept.sweptAt - window
  }

  predicate NoneRecent(plan: Plan, rows: seq<ConfirmationRow>, swept: Times) {
    RecentlyConfirmed(rows, plan.window, swept.sweptAt) !! Keys(plan.leads)
  }

  /**
   A run of batches within one rotation window, on a board with distinct leads none of which was confirmed recently
   before it.
   */
  ghost predicate IsRun(run: Run) {
    && |run.times| == |run.picks| && |run.rows| == |run.times| + 1
    && DistinctKeys(run.plan.leads) && run.plan.window > 0
    && (forall b {:trigger IsBatch(run, b)} | 0 <= b < |run.times| :: IsBatch(run, b))
    && (forall i, j {:trigger StillRecent(run.plan.window, run.times[i], run.times[j])} |
          0 <= i < j < |run.times| :: StillRecent(run.plan.window, run.times[i], run.times[j]))
    && (forall b {:trigger NoneRecent(run.plan, run.rows[0], run.times[b])} |
          0 <= b < |run.times| :: NoneRecent(run.plan, run.rows[0], run.times[b]))
  }

  // ----- within one window, what is recent is what the batches confirmed

  /** The keys confirmed by the first `b` batches. */
  ghost function Confirmed(picks: seq<seq<Prospect>>, b: nat): set<LeadKey>
    requires b <= |picks|
  {
    if b == 0 then {} else Confirmed(picks, b - 1) + Keys(picks[b - 1])
  }

  ghost predicate SameLeads(leads: seq<Prospect>, a: set<LeadKey>, b: set<LeadKey>) {
    forall i | 0 <= i < |leads| :: leads[i].key in a <==> leads[i].key in b
  }

  lemma SameLeadsWith(leads: seq<Prospect>, a: set<LeadKey>, b: set<LeadKey>, more: set<LeadKey>)
    requires SameLeads(leads, a, b)
    ensures SameLeads(leads, a + more, b + more)
  {
  }

  lemma RecentAppend(rows: seq<ConfirmationRow>, leads: seq<Prospect>, recordedAt: int, window: int, sweptAt: int)
    requires window > 0 && recordedAt >= sweptAt - window
    ensures RecentlyConfirmed(rows + RowsFor(leads, recordedAt), window, sweptAt)
         == RecentlyConfirmed(rows, window, sweptAt) + Keys(leads)
  {
    var all := rows + RowsFor(leads, recordedAt);
    forall k | k in Keys(leads) ensures k in RecentlyConfirmed(all, window, sweptAt) {
      var i :| 0 <= i < |leads| && leads[i].key == k;
      assert all[|rows| + i] == ConfirmationRow(k, recordedAt);
    }
    forall k | k in RecentlyConfirmed(rows, window, sweptAt) ensures k in RecentlyConfirmed(all, window, sweptAt) {
      var r :| r in rows && r.confirmedAt >= sweptAt - window && r.key == k;
      assert r in all;
    }
    forall k | k in RecentlyConfirmed(all, window, sweptAt)
      ensures k in RecentlyConfirmed(rows, window, sweptAt) + Keys(leads)
    {
      var r :| r in all && r.confirmedAt >= sweptAt - window && r.key == k;
      if r !in rows {
        var i :| 0 <= i < |leads| && RowsFor(leads, recordedAt)[i] == r;
        assert leads[i] in leads;
      }
    }
  }

  lemma {:induction false} RecentIsConfirmed(run: Run, b: nat, j: nat)
    requires IsRun(run) && b <= j < |run.times|
    ensures SameLeads(run.plan.leads, RecentlyConfirmed(run.rows[b], run.plan.window, run.times[j].sweptAt),
                      Confirmed(run.picks, b))
  {
    if b == 0 {
      assert NoneRecent(run.plan, run.rows[0], run.times[j]);
      assert forall i | 0 <= i < |run.plan.leads| :: run.plan.leads[i].key in Keys(run.plan.leads);
    } else {
      var a := b - 1;
      RecentIsConfirmed(run, a, j);
      assert IsBatch(run, a) && StillRecent(run.plan.window, run.times[a], run.times[j]);
      RecentAppend(run.rows[a], run.picks[a], run.times[a].recordedAt, run.plan.window, run.times[j].sweptAt);
      SameLeadsWith(run.plan.leads, RecentlyConfirmed(run.rows[a], run.plan.window, run.times[j].sweptAt),
                    Confirmed(run.picks, a), Keys(run.picks[a]));
    }
  }

  lemma {:induction false} UnconfirmedAgrees(leads: seq<Prospect>, a: set<LeadKey>, b: set<LeadKey>)
    requires SameLeads(leads, a, b)
    ensures Unconfirmed(leads, a) == Unconfirmed(leads, b)
  {
    if leads != [] {
      UnconfirmedAgrees(leads[..|leads| - 1], a, b);
    }
  }

  /** So a batch's choice depends only on what the batches before it confirmed. */
  lemma PicksAvoidConfirmed(run: Run, b: nat)
    requires IsRun(run) && b < |run.times|
    ensures run.picks[b] == Allowed(Selection(run.plan.leads, run.plan.top, Confirmed(run.picks, b)), run.plan.rarities)
  {
    RecentIsConfirmed(run, b, b);
    assert IsBatch(run, b);
    UnconfirmedAgrees(run.plan.leads, RecentlyConfirmed(run.rows[b], run.plan.window, run.times[b].sweptAt),
                      Confirmed(run.picks, b));
  }

  // ----- rotation without a rarity filter

  function AtMost(n: nat, total: nat): nat {
    if n <= total then n else total
  }

  /** How many of the leads the first `b` batches have reached. */
  function Reached(b: nat, size: nat, total: nat): nat {
    if b == 0 then 0 else AtMost(Reached(b - 1, size, total) + size, total)
  }

  lemma {:induction false} ReachedIsProduct(b: nat, size: nat, total: nat)
    ensures Reached(b, size, total) == AtMost(b * size, total)
  {
    if b > 0 {
      ReachedIsProduct(b - 1, size, total);
      assert b * size == (b - 1) * size + size;
    }
  }

  lemma {:induction false} OpenAfterPrefix(leads: seq<Prospect>, exclude: set<LeadKey>, m: nat, k: nat)
    requires m <= |leads| && k <= |leads|
    requires forall i | 0 <= i < |leads| :: leads[i].key in exclude <==> i < m
    ensures Unconfirmed(leads[..k], exclude) == if k <= m then [] else leads[m..k]
  {
    if k > 0 {
      assert leads[..k][..k - 1] == leads[..k - 1];
      OpenAfterPrefix(leads, exclude, m, k - 1);
    }
  }

  /** With exactly the first `m` leads excluded, a batch takes the next ones, and wraps when none is left. */
  lemma SelectionAfterPrefix(leads: seq<Prospect>, top: int, exclude: set<LeadKey>, m: nat)
    requires m <= |leads| && forall i | 0 <= i < |leads| :: leads[i].key in exclude <==> i < m
    ensures Selection(leads, top, exclude)
         == if m == |leads| then Prefix(leads, BatchSize(top))
            else leads[m..AtMost(m + BatchSize(top), |leads|)]
  {
    OpenAfterPrefix(leads, exclude, m, |leads|);
    WholePrefix(leads);
  }

  lemma {:induction false} NoFilter(leads: seq<Prospect>)
    ensures Allowed(leads, None) == leads
  {
    if leads != [] {
      NoFilter(leads[..|leads| - 1]);
    }
  }

  /** What batch `b` takes. */
  ghost function Slice(leads: seq<Prospect>, n: nat, b: nat): seq<Prospect>
    requires n >= 1
  {
    var m := Reached(b, n, |leads|);
    if m == |leads| then Prefix(leads, n) else leads[m..AtMost(m + n, |leads|)]
  }

  lemma KeyInSlice(leads: seq<Prospect>, from: nat, to: nat, i: nat)
    requires from <= to <= |leads| && i < |leads| && DistinctKeys(leads)
    ensures leads[i].key in Keys(leads[from..to]) <==> from <= i < to
  {
    var slice := leads[from..to];
    if from <= i < to {
      assert slice[i - from] == leads[i];
    }
    if leads[i].key in Keys(slice) {
      var k :| 0 <= k < |slice| && slice[k].key == leads[i].key;
      assert slice[k] == leads[from + k];
    }
  }

  lemma ReachedAfterBatch(leads: seq<Prospect>, n: nat, b: nat, before: set<LeadKey>, after: set<LeadKey>, i: nat)
    requires n >= 1 && i < |leads| && DistinctKeys(leads)
    requires leads[i].key in before <==> i < Reached(b, n, |leads|)
    requires after == before + Keys(Slice(leads, n, b))
    ensures leads[i].key in after <==> i < Reached(b + 1, n, |leads|)
  {
    var m := Reached(b, n, |leads|);
    KeyInSlice(leads, m, AtMost(m + n, |leads|), i);
  }

  lemma SliceIsSelected(leads: seq<Prospect>, top: int, exclude: set<LeadKey>, b: nat)
    requires forall i | 0 <= i < |leads| :: leads[i].key in exclude <==> i < Reached(b, BatchSize(top), |leads|)
    ensures Selection(leads, top, exclude) == Slice(leads, BatchSize(top), b)
  {
    SelectionAfterPrefix(leads, top, exclude, Reached(b, BatchSize(top), |leads|));
  }

  ghost predicate ReachedAreConfirmed(plan: Plan, confirmed: set<LeadKey>, b: nat) {
    forall i | 0 <= i < |plan.leads| ::
      plan.leads[i].key in confirmed <==> i < Reached(b, BatchSize(plan.top), |plan.leads|)
  }

  lemma SliceIsReached(plan: Plan, before: set<LeadKey>, b: nat)
    requires DistinctKeys(plan.leads) && ReachedAreConfirmed(plan, before, b)
    ensures ReachedAreConfirmed(plan, before + Keys(Slice(plan.leads, BatchSize(plan.top), b)), b + 1)
  {
    var after := before + Keys(Slice(plan.leads, BatchSize(plan.top), b));
    forall i | 0 <= i < |plan.leads|
      ensures plan.leads[i].key in after <==> i < Reached(b + 1, BatchSize(plan.top), |plan.leads|)
    {
      ReachedAfterBatch(plan.leads, BatchSize(plan.top), b, before, after, i);
    }
  }

  lemma NextSlice(run: Run, b: nat)
    requires IsRun(run) && b < |run.times| && run.plan.rarities == None
    requires ReachedAreConfirmed(run.plan, Confirmed(run.picks, b), b)
    ensures run.picks[b] == Slice(run.plan.leads, BatchSize(run.plan.top), b)
  {
    PicksAvoidConfirmed(run, b);
    SliceIsSelected(run.plan.leads, run.plan.top, Confirmed(run.picks, b), b);
    NoFilter(Slice(run.plan.leads, BatchSize(run.plan.top), b));
  }

  lemma {:induction false} ConfirmedInOrder(run: Run, b: nat)
    requires IsRun(run) && b <= |run.times| && run.plan.rarities == None
    ensures ReachedAreConfirmed(run.plan, Confirmed(run.picks, b), b)
  {
    if b > 0 {
      ConfirmedInOrder(run, b - 1);
      NextSlice(run, b - 1);
      SliceIsReached(run.plan, Confirmed(run.picks, b - 1), b - 1);
    }
  }

  /**
   Batch `b` takes the next `top` leads of the board, in rank order; once all are confirmed within the window, every
   further batch takes the best ones again.
   */
  lemma BatchTakesTheNextLeads(run: Run, b: nat)
    requires IsRun(run) && b < |run.times| && run.plan.rarities == None
    ensures var n, leads := BatchSize(run.plan.top), run.plan.leads;
            run.picks[b] == if b * n >= |leads| then Prefix(leads, n) else leads[b * n..AtMost(b * n + n, |leads|)]
  {
    ConfirmedInOrder(run, b);
    NextSlice(run, b);
    ReachedIsProduct(b, BatchSize(run.plan.top), |run.plan.leads|);
  }

  /** Each lead is confirmed once before any is confirmed again: lead `i` in batch `i / top`, among ceil(L / top). */
  lemma EveryLeadHasItsBatch(run: Run, b: nat, i: nat)
    requires IsRun(run) && b < |run.times| && run.plan.rarities == None && i < |run.plan.leads|
    requires b * BatchSize(run.plan.top) < |run.plan.leads|
    ensures run.plan.leads[i] in run.picks[b] <==> b == i / BatchSize(run.plan.top)
    ensures i / BatchSize(run.plan.top) * BatchSize(run.plan.top) < |run.plan.leads|
  {
    var n, leads := BatchSize(run.plan.top), run.plan.leads;
    BatchTakesTheNextLeads(run, b);
    InBatch(i, n, b);
    InSlice(leads, b * n, AtMost(b * n + n, |leads|), i);
  }

  lemma InSlice(leads: seq<Prospect>, from: nat, to: nat, i: nat)
    requires from <= to <= |leads| && i < |leads| && DistinctKeys(leads)
    ensures leads[i] in leads[from..to] <==> from <= i < to
  {
    if from <= i < to {
      assert leads[from..to][i - from] == leads[i];
    }
    if leads[i] in leads[from..to] {
      var k :| 0 <= k < to - from && leads[from..to][k] == leads[i];
      assert leads[from + k] == leads[i];
    }
  }

  lemma InBatch(i: nat, n: nat, b: nat)
    requires n >= 1
    ensures b == i / n <==> b * n <= i < b * n + n
    ensures i / n * n <= i
  {
    var q := i / n;
    assert q * n <= i < q * n + n;
    if b < q {
      assert (b + 1) * n <= q * n;
    } else if b > q {
      assert (q + 1) * n <= b * n;
    }
  }

  // ----- rotation under a rarity filter

  /**
   The filter is applied after the batch was cut, and a lead it drops is never recorded, so never rotated out.  Such
   leads block the board once `top` of them rank above everything still open.
   */
  predicate Permitted(rarities: Option<set<int>>, key: LeadKey) {
    rarities.None? || key.rarity in rarities.value
  }

  /** How many leads of `s` the filter drops. */
  function Blockers(s: seq<Prospect>, rarities: Option<set<int>>): nat {
    if s == [] then 0
    else Blockers(s[..|s| - 1], rarities) + if Permitted(rarities, s[|s| - 1].key) then 0 else 1
  }

  lemma {:induction false} AllowedContents(leads: seq<Prospect>, rarities: Option<set<int>>)
    ensures forall p :: p in Allowed(leads, rarities) <==> p in leads && Permitted(rarities, p.key)
  {
    if leads != [] {
      AllowedContents(leads[..|leads| - 1], rarities);
      assert leads == leads[..|leads| - 1] + [leads[|leads| - 1]];
    }
  }

  lemma {:induction false} UnconfirmedContents(leads: seq<Prospect>, exclude: set<LeadKey>)
    ensures forall p :: p in Unconfirmed(leads, exclude) <==> p in leads && p.key !in exclude
  {
    if leads != [] {
      UnconfirmedContents(leads[..|leads| - 1], exclude);
      assert leads == leads[..|leads| - 1] + [leads[|leads| - 1]];
    }
  }

  /** Only permitted keys are ever confirmed. */
  lemma {:induction false} ConfirmedArePermitted(run: Run, b: nat)
    requires IsRun(run) && b <= |run.times|
    ensures forall k | k in Confirmed(run.picks, b) :: Permitted(run.plan.rarities, k)
  {
    if b > 0 {
      ConfirmedArePermitted(run, b - 1);
      PicksAvoidConfirmed(run, b - 1);
      AllowedContents(Selection(run.plan.leads, run.plan.top, Confirmed(run.picks, b - 1)), run.plan.rarities);
    }
  }

  lemma {:induction false} OpenPrefix(leads: seq<Prospect>, exclude: set<LeadKey>, i: nat)
    requires i <= |leads|
    ensures Unconfirmed(leads[..i], exclude) <= Unconfirmed(leads, exclude)
  {
    if i == |leads| {
      WholePrefix(leads);
    } else {
      assert leads[..|leads| - 1][..i] == leads[..i];
      OpenPrefix(leads[..|leads| - 1], exclude, i);
    }
  }

  /** Blockers stay open: the open leads of a prefix contain all its blockers, and no others are blockers. */
  lemma {:induction false} BlockersStayOpen(leads: seq<Prospect>, rarities: Option<set<int>>, exclude: set<LeadKey>)
    requires forall k | k in exclude :: Permitted(rarities, k)
    ensures Blockers(Unconfirmed(leads, exclude), rarities) == Blockers(leads, rarities)
    ensures |Unconfirmed(leads, exclude)| >= Blockers(leads, rarities)
  {
    if leads != [] {
      BlockersStayOpen(leads[..|leads| - 1], rarities, exclude);
      var before := Unconfirmed(leads[..|leads| - 1], exclude);
      assert (before + [leads[|leads| - 1]])[..|before|] == before;
    }
  }

  /** An open lead is selected exactly when fewer than a batch of open leads rank above it. */
  lemma SelectedByRank(leads: seq<Prospect>, top: int, exclude: set<LeadKey>, i: nat)
    requires DistinctKeys(leads) && i < |leads| && leads[i].key !in exclude
    ensures leads[i] in Selection(leads, top, exclude) <==> |Unconfirmed(leads[..i], exclude)| < BatchSize(top)
  {
    var open, above := Unconfirmed(leads, exclude), Unconfirmed(leads[..i], exclude);
    assert leads[..i + 1][..i] == leads[..i];
    OpenPrefix(leads, exclude, i + 1);
    assert Unconfirmed(leads[..i + 1], exclude) == above + [leads[i]] <= open;
    assert open[|above|] == leads[i];
    UnconfirmedContents(leads[..i], exclude);
    forall k | 0 <= k < |above| ensures open[k] != leads[i] {
      assert above[k] in leads[..i];
    }
    if |above| < BatchSize(top) {
      assert Prefix(open, BatchSize(top))[|above|] == leads[i];
    }
  }

  /** What is selected while something is open, is open. */
  lemma SelectedAreOpen(leads: seq<Prospect>, top: int, exclude: set<LeadKey>)
    ensures forall p | p in Selection(leads, top, exclude) :: p in leads
    ensures Unconfirmed(leads, exclude) != [] ==>
      forall p | p in Selection(leads, top, exclude) :: p.key !in exclude
  {
    UnconfirmedContents(leads, exclude);
  }

  /** Behind a full batch of blockers, a lead is never confirmed. */
  lemma BlockedIsNeverConfirmed(run: Run, b: nat, i: nat)
    requires IsRun(run) && b < |run.times| && i < |run.plan.leads|
    requires Blockers(run.plan.leads[..i], run.plan.rarities) >= BatchSize(run.plan.top)
    ensures run.plan.leads[i] !in run.picks[b]
  {
    var plan, confirmed := run.plan, Confirmed(run.picks, b);
    PicksAvoidConfirmed(run, b);
    ConfirmedArePermitted(run, b);
    AllowedContents(Selection(plan.leads, plan.top, confirmed), plan.rarities);
    BlockersStayOpen(plan.leads[..i], plan.rarities, confirmed);
    OpenPrefix(plan.leads, confirmed, i);
    SelectedAreOpen(plan.leads, plan.top, confirmed);
    if plan.leads[i].key !in confirmed {
      SelectedByRank(plan.leads, plan.top, confirmed, i);
    }
  }

  lemma {:induction false} BlockersPrefix(s: seq<Prospect>, rarities: Option<set<int>>, n: nat)
    requires n <= |s|
    ensures Blockers(s[..n], rarities) <= Blockers(s, rarities)
  {
    if n == |s| {
      WholePrefix(s);
    } else {
      assert s[..|s| - 1][..n] == s[..n];
      BlockersPrefix(s[..|s| - 1], rarities, n);
    }
  }

  lemma {:induction false} SomePermitted(s: seq<Prospect>, rarities: Option<set<int>>) returns (k: nat)
    requires Blockers(s, rarities) < |s|
    ensures k < |s| && Permitted(rarities, s[k].key)
  {
    k := |s| - 1;
    if !Permitted(rarities, s[k].key) {
      k := SomePermitted(s[..k], rarities);
    }
  }

  lemma {:induction false} OpenShrinks(s: seq<Prospect>, exclude: set<LeadKey>, more: set<LeadKey>, k: nat)
    requires k < |s| && s[k].key in more && s[k].key !in exclude
    ensures |Unconfirmed(s, exclude + more)| < |Unconfirmed(s, exclude)|
  {
    var n := |s| - 1;
    if k < n {
      OpenShrinks(s[..n], exclude, more, k);
    } else {
      OpenNeverGrows(s[..n], exclude, more);
    }
  }

  lemma {:induction false} OpenNeverGrows(s: seq<Prospect>, exclude: set<LeadKey>, more: set<LeadKey>)
    ensures |Unconfirmed(s, exclude + more)| <= |Unconfirmed(s, exclude)|
  {
    if s != [] {
      OpenNeverGrows(s[..|s| - 1], exclude, more);
    }
  }

  /** A batch that does not get to lead `i` confirms some permitted lead above it. */
  lemma ProgressAbove(plan: Plan, confirmed: set<LeadKey>, i: nat) returns (k: nat)
    requires i < |plan.leads| && forall key | key in confirmed :: Permitted(plan.rarities, key)
    requires Blockers(plan.leads[..i], plan.rarities) < BatchSize(plan.top)
             <= |Unconfirmed(plan.leads[..i], confirmed)|
    ensures k < i && plan.leads[k].key !in confirmed
    ensures plan.leads[k] in Allowed(Selection(plan.leads, plan.top, confirmed), plan.rarities)
  {
    var n, above := BatchSize(plan.top), Unconfirmed(plan.leads[..i], confirmed);
    OpenPrefix(plan.leads, confirmed, i);
    assert Selection(plan.leads, plan.top, confirmed) == above[..n];
    BlockersStayOpen(plan.leads[..i], plan.rarities, confirmed);
    BlockersPrefix(above, plan.rarities, n);
    var j := SomePermitted(above[..n], plan.rarities);
    AllowedContents(above[..n], plan.rarities);
    UnconfirmedContents(plan.leads[..i], confirmed);
    assert above[..n][j] in above[..n] && above[j] in plan.leads[..i];
    k :| 0 <= k < i && plan.leads[k] == above[j];
  }

  lemma UnpickedStaysUnconfirmed(run: Run, b: nat, i: nat)
    requires IsRun(run) && b < |run.times| && i < |run.plan.leads|
    requires run.plan.leads[i].key !in Confirmed(run.picks, b) && run.plan.leads[i] !in run.picks[b]
    ensures run.plan.leads[i].key !in Confirmed(run.picks, b + 1)
  {
    var plan, confirmed := run.plan, Confirmed(run.picks, b);
    PicksAvoidConfirmed(run, b);
    AllowedContents(Selection(plan.leads, plan.top, confirmed), plan.rarities);
    SelectedAreOpen(plan.leads, plan.top, confirmed);
    forall p | p in run.picks[b] ensures p.key != plan.leads[i].key {
      var k :| 0 <= k < |plan.leads| && plan.leads[k] == p;
    }
  }

  /** Past fewer blockers than a batch holds, every batch makes progress, so lead `i` is confirmed by batch `i`. */
  lemma {:induction false} UnblockedIsConfirmed(run: Run, b: nat, i: nat) returns (c: nat)
    requires IsRun(run) && b <= i < |run.plan.leads| && i < |run.times|
    requires Permitted(run.plan.rarities, run.plan.leads[i].key)
    requires Blockers(run.plan.leads[..i], run.plan.rarities) < BatchSize(run.plan.top)
    requires run.plan.leads[i].key !in Confirmed(run.picks, b)
    requires |Unconfirmed(run.plan.leads[..i], Confirmed(run.picks, b))| + b
             <= i + Blockers(run.plan.leads[..i], run.plan.rarities)
    ensures c <= i && run.plan.leads[i] in run.picks[c]
    decreases i - b
  {
    var plan, confirmed := run.plan, Confirmed(run.picks, b);
    PicksAvoidConfirmed(run, b);
    ConfirmedArePermitted(run, b);
    AllowedContents(Selection(plan.leads, plan.top, confirmed), plan.rarities);
    SelectedByRank(plan.leads, plan.top, confirmed, i);
    if plan.leads[i] in run.picks[b] {
      c := b;
    } else {
      var k := ProgressAbove(plan, confirmed, i);
      assert plan.leads[..i][k] == plan.leads[k];
      OpenShrinks(plan.leads[..i], confirmed, Keys(run.picks[b]), k);
      UnpickedStaysUnconfirmed(run, b, i);
      ConfirmedArePermitted(run, b + 1);
      BlockersStayOpen(plan.leads[..i], plan.rarities, Confirmed(run.picks, b + 1));
      c := UnblockedIsConfirmed(run, b + 1, i);
    }
  }

  lemma {:induction false} NoMoreOpenThanLeads(s: seq<Prospect>, exclude: set<LeadKey>)
    ensures |Unconfirmed(s, exclude)| <= |s|
  {
    if s != [] {
      NoMoreOpenThanLeads(s[..|s| - 1], exclude);
    }
  }

  /**
   Rotation reaches "every possible trade-up" exactly as far as the blockers let it: given enough batches within the
   window, a permitted lead is confirmed if and only if fewer than `top` dropped leads rank above it.
   */
  lemma RotationReachesExactly(run: Run, i: nat)
    requires IsRun(run) && i < |run.plan.leads| && i < |run.times|
    requires Permitted(run.plan.rarities, run.plan.leads[i].key)
    ensures (exists b | 0 <= b < |run.times| :: run.plan.leads[i] in run.picks[b])
       <==> Blockers(run.plan.leads[..i], run.plan.rarities) < BatchSize(run.plan.top)
  {
    if Blockers(run.plan.leads[..i], run.plan.rarities) < BatchSize(run.plan.top) {
      NoMoreOpenThanLeads(run.plan.leads[..i], {});
      var c := UnblockedIsConfirmed(run, 0, i);
    } else {
      forall b | 0 <= b < |run.times| ensures run.plan.leads[i] !in run.picks[b] {
        BlockedIsNeverConfirmed(run, b, i);
      }
    }
  }

  // ----- an input on which rotation does not reach everything

  /** A batch of one over two leads, of which only the second has an allowed rarity. */
  function BlockedPlan(window: int): Plan {
    var first, second := LeadKey(0, 4, 0, 0), LeadKey(0, 3, 0, 0);
    Plan([Prospect(first, 0, 2.0), Prospect(second, 0, 1.0)], 1, window, Option.Some({3}))
  }

  /** `n` batches, one a moment, with nothing recorded before: not one of them confirms or records anything. */
  function BlockedRun(n: nat): Run {
    Run(BlockedPlan(n + 1), seq(n, i => Times(i, i)), seq(n + 1, i => []), seq(n, i => []))
  }

  lemma BlockedBatch(window: int, sweptAt: int)
    ensures Picked(BlockedPlan(window), [], sweptAt) == []
    ensures Blockers(BlockedPlan(window).leads[..1], BlockedPlan(window).rarities) == 1
  {
    var leads, rarities := BlockedPlan(window).leads, BlockedPlan(window).rarities;
    NothingExcluded(leads);
    assert RecentlyConfirmed([], window, sweptAt) == {};
    assert Selection(leads, 1, {}) == [leads[0]];
    assert [leads[0]][..0] == [] && leads[..1] == [leads[0]];
    assert Allowed([], rarities) == [] && Allowed([leads[0]], rarities) == [];
    assert Blockers([], rarities) == 0;
  }

  /** However many batches run, the permitted second lead is never confirmed. */
  lemma BlockedRunMissesALead(n: nat)
    ensures var run := BlockedRun(n);
            && IsRun(run) && |run.times| == n && |run.plan.leads| == 2
            && Permitted(run.plan.rarities, run.plan.leads[1].key)
            && Blockers(run.plan.leads[..1], run.plan.rarities) == BatchSize(run.plan.top)
            && forall b | 0 <= b < n :: run.plan.leads[1] !in run.picks[b]
  {
    var run := BlockedRun(n);
    BlockedBatch(run.plan.window, 0);
    forall b | 0 <= b < |run.times| ensures IsBatch(run, b) {
      BlockedBatch(run.plan.window, run.times[b].sweptAt);
      assert run.rows[b + 1] == run.rows[b] + RowsFor(run.picks[b], run.times[b].recordedAt);
    }
    forall b | 0 <= b < |run.times| ensures NoneRecent(run.plan, run.rows[0], run.times[b]) {
      assert RecentlyConfirmed(run.rows[0], run.plan.window, run.times[b].sweptAt) == {};
    }
  }
}
