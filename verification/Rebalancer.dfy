/**
 Rebalancing inventory between venues: the loop that pairs the most over-allocated venue with the
 most under-allocated one and moves half of the smaller excess.
 */
module Rebalancer {
  import opened Sums
  import opened Sorting

  /** The deviation of a venue from its target, in percent: positive is over-allocated. */
  datatype Deviation = Deviation(venue: string, diff: real)

  datatype RebalanceAction = RebalanceAction(fromVenue: string, toVenue: string, amountUSD: real)

  datatype Config = Config(threshPct: real, minTransferUSD: real, maxTransferUSD: real)

  /** The loop's state: positions i and j close in from both ends. */
  datatype State = State(devs: seq<Deviation>, i: int, j: int, actions: seq<RebalanceAction>)

  function Diff(d: Deviation): real {
    d.diff
  }

  /** Largest first. */
  function Descending(d: Deviation): real {
    -d.diff
  }

  function Excess(d: Deviation): real {
    if d.diff > 0.0 then d.diff else 0.0
  }

  predicate Indexed(s: State) {
    0 <= s.i && s.j < |s.devs|
  }

  /** The loop goes on while both ends are off by the threshold. */
  predicate Continues(s: State, c: Config)
    requires Indexed(s)
  {
    s.i < s.j && s.devs[s.i].diff >= c.threshPct && s.devs[s.j].diff <= -c.threshPct
  }

  function TransferPct(s: State): real
    requires Indexed(s) && s.i < s.j
  {
    Min(s.devs[s.i].diff, -s.devs[s.j].diff) / 2.0
  }

  /** A percentage of all equity. */
  function Dollars(pct: real, totalEquity: real): real {
    pct / 100.0 * totalEquity
  }

  function Amount(transferPct: real, totalEquity: real, c: Config): real {
    Max(c.minTransferUSD, Min(c.maxTransferUSD, Dollars(transferPct, totalEquity)))
  }

  function Moved(devs: seq<Deviation>, i: nat, j: nat, t: real): (r: seq<Deviation>)
    requires i < |devs| && j < |devs|
    ensures |r| == |devs|
  {
    devs[i := devs[i].(diff := devs[i].diff - t)][j := devs[j].(diff := devs[j].diff + t)]
  }

  /** One pass of the loop. */
  function Step(s: State, totalEquity: real, c: Config): (r: State)
    requires Indexed(s) && Continues(s, c)
    ensures Indexed(r) && |r.devs| == |s.devs|
  {
    var t := TransferPct(s);
    var devs := Moved(s.devs, s.i, s.j, t);
    State(devs,
          if devs[s.i].diff < c.threshPct then s.i + 1 else s.i,
          if devs[s.j].diff > -c.threshPct then s.j - 1 else s.j,
          s.actions + [RebalanceAction(s.devs[s.i].venue, s.devs[s.j].venue, Amount(t, totalEquity, c))])
  }

  // ----- Termination -------------------------------------------------------------------------

  lemma {:induction false} SumByUpdate(f: Deviation -> real, s: seq<Deviation>, i: nat, d: Deviation)
    requires i < |s|
    ensures SumBy(f, s[i := d]) == SumBy(f, s) - f(s[i]) + f(d)
  {
    var n := |s| - 1;
    if i == n {
      assert s[i := d][..n] == s[..n];
    } else {
      assert s[i := d][..n] == s[..n][i := d];
      SumByUpdate(f, s[..n], i, d);
    }
  }

  lemma {:induction false} ExcessNonnegative(s: seq<Deviation>)
    ensures SumBy(Excess, s) >= 0.0
  {
    if s != [] {
      ExcessNonnegative(s[..|s| - 1]);
    }
  }

  /** A pass conserves the sum of the deviations and lowers their excess by what it moves. */
  lemma StepSums(s: State, totalEquity: real, c: Config)
    requires Indexed(s) && Continues(s, c) && c.threshPct > 0.0
    ensures var r := Step(s, totalEquity, c);
            && SumBy(Diff, r.devs) == SumBy(Diff, s.devs)
            && SumBy(Excess, r.devs) == SumBy(Excess, s.devs) - TransferPct(s)
            && TransferPct(s) >= c.threshPct / 2.0
  {
    var t := TransferPct(s);
    var x, y := s.devs[s.i], s.devs[s.j];
    var once := s.devs[s.i := x.(diff := x.diff - t)];
    SumByUpdate(Diff, s.devs, s.i, x.(diff := x.diff - t));
    SumByUpdate(Diff, once, s.j, y.(diff := y.diff + t));
    SumByUpdate(Excess, s.devs, s.i, x.(diff := x.diff - t));
    SumByUpdate(Excess, once, s.j, y.(diff := y.diff + t));
  }

  /** How many passes the excess can still pay for, at half a threshold each. */
  function PassesLeft(s: State, c: Config): (n: nat)
    requires c.threshPct > 0.0
  {
    ExcessNonnegative(s.devs);
    (SumBy(Excess, s.devs) / (c.threshPct / 2.0)).Floor
  }

  lemma QuotientFalls(x: real, t: real, h: real)
    requires h > 0.0 && t >= h && x - t >= 0.0
    ensures ((x - t) / h).Floor < (x / h).Floor
  {
    assert (x - t) / h == x / h - t / h;
    assert t / h >= 1.0;
  }

  /** Every pass lowers the excess by at least half the threshold, so there are only so many. */
  lemma StepDecreases(s: State, totalEquity: real, c: Config)
    requires Indexed(s) && Continues(s, c) && c.threshPct > 0.0
    ensures PassesLeft(Step(s, totalEquity, c), c) < PassesLeft(s, c)
  {
    StepSums(s, totalEquity, c);
    ExcessNonnegative(Step(s, totalEquity, c).devs);
    QuotientFalls(SumBy(Excess, s.devs), TransferPct(s), c.threshPct / 2.0);
  }

  /** Does the loop end?  SettlesExactly shows that it does exactly then. */
  predicate Ends(s: State, c: Config)
    requires Indexed(s)
  {
    c.threshPct > 0.0 || !Continues(s, c)
  }

  function Bound(s: State, c: Config): nat {
    if c.threshPct > 0.0 then PassesLeft(s, c) else 0
  }

  /** The loop from a state to its exit. */
  function Run(s: State, totalEquity: real, c: Config): (r: State)
    requires Indexed(s) && Ends(s, c)
    ensures Indexed(r) && |r.devs| == |s.devs|
    decreases Bound(s, c)
  {
    if !Continues(s, c) then s
    else
      StepDecreases(s, totalEquity, c);
      Run(Step(s, totalEquity, c), totalEquity, c)
  }

  function Start(devs: seq<Deviation>, actions: seq<RebalanceAction>): (s: State)
    ensures Indexed(s)
  {
    State(devs, 0, |devs| - 1, actions)
  }

  // ----- The loop, in place ------------------------------------------------------------------

  /** One pass of the loop, in place. */
  method Pair(devs: array<Deviation>, i: int, j: int, actions: seq<RebalanceAction>, totalEquity: real, c: Config)
    returns (i': int, j': int, actions': seq<RebalanceAction>)
    requires 0 <= i && j < devs.Length && Continues(State(devs[..], i, j, actions), c)
    modifies devs
    ensures State(devs[..], i', j', actions') == Step(old(State(devs[..], i, j, actions)), totalEquity, c)
  {
    var transferPct := Min(devs[i].diff, -devs[j].diff) / 2.0;
    var amount := Amount(transferPct, totalEquity, c);
    actions' := actions + [RebalanceAction(devs[i].venue, devs[j].venue, amount)];
    devs[i] := devs[i].(diff := devs[i].diff - transferPct);
    devs[j] := devs[j].(diff := devs[j].diff + transferPct);
    assert devs[..] == Moved(old(devs[..]), i, j, transferPct);
    i', j' := i, j;
    if devs[i].diff < c.threshPct {
      i' := i + 1;
    }
    if devs[j].diff > -c.threshPct {
      j' := j - 1;
    }
  }

  lemma RunFromStep(s: State, totalEquity: real, c: Config)
    requires Indexed(s) && Ends(s, c) && Continues(s, c)
    ensures Ends(Step(s, totalEquity, c), c) && Run(s, totalEquity, c) == Run(Step(s, totalEquity, c), totalEquity, c)
    ensures Bound(Step(s, totalEquity, c), c) < Bound(s, c)
  {
    StepDecreases(s, totalEquity, c);
  }

  method Rebalance(devs: array<Deviation>, urgent: seq<RebalanceAction>, totalEquity: real, c: Config)
    returns (actions: seq<RebalanceAction>)
    requires Ends(Start(devs[..], urgent), c)
    modifies devs
    ensures devs[..] == Run(Start(old(devs[..]), urgent), totalEquity, c).devs
    ensures actions == Run(Start(old(devs[..]), urgent), totalEquity, c).actions
  {
    ghost var start := Start(devs[..], urgent);
    actions := urgent;
    var i, j := 0, devs.Length - 1;
    while i < j
      invariant 0 <= i && j < devs.Length && Ends(State(devs[..], i, j, actions), c)
      invariant Run(State(devs[..], i, j, actions), totalEquity, c) == Run(start, totalEquity, c)
      decreases Bound(State(devs[..], i, j, actions), c)
    {
      if devs[i].diff < c.threshPct {
        break;
      }
      if devs[j].diff > -c.threshPct {
        break;
      }
      RunFromStep(State(devs[..], i, j, actions), totalEquity, c);
      i, j, actions := Pair(devs, i, j, actions, totalEquity, c);
    }
  }

  /** Are there two venues of which one is over, and another under, by the threshold? */
  predicate HasPair(devs: seq<Deviation>, c: Config) {
    && |devs| > 1
    && (exists k :: 0 <= k < |devs| && devs[k].diff >= c.threshPct)
    && (exists k :: 0 <= k < |devs| && devs[k].diff <= -c.threshPct)
  }

  lemma FirstIsLargest(devs: seq<Deviation>, sorted: seq<Deviation>, d: Deviation)
    requires IsSorted(Descending, sorted, devs) && d in devs
    ensures sorted != [] && sorted[0].diff >= d.diff >= sorted[|sorted| - 1].diff
  {
    assert d in multiset(sorted);
    var m :| 0 <= m < |sorted| && sorted[m] == d;
    assert m > 0 ==> Descending(sorted[0]) <= Descending(sorted[m]);
    assert m < |sorted| - 1 ==> Descending(sorted[m]) <= Descending(sorted[|sorted| - 1]);
  }

  /** However equal deviations are sorted, the loop starts exactly when there are. */
  lemma StartHasPair(devs: seq<Deviation>, sorted: seq<Deviation>, urgent: seq<RebalanceAction>, c: Config)
    requires IsSorted(Descending, sorted, devs)
    ensures Continues(Start(sorted, urgent), c) <==> HasPair(devs, c)
  {
    assert |multiset(sorted)| == |multiset(devs)|;
    if |devs| > 1 {
      assert sorted[0] in multiset(devs) && sorted[|sorted| - 1] in multiset(devs);
      if HasPair(devs, c) {
        var k :| 0 <= k < |devs| && devs[k].diff >= c.threshPct;
        var l :| 0 <= l < |devs| && devs[l].diff <= -c.threshPct;
        FirstIsLargest(devs, sorted, devs[k]);
        FirstIsLargest(devs, sorted, devs[l]);
      }
    }
  }

  /** Sort the deviations, largest first, and pair the ends. */
  method RebalanceTowardTarget(deviations: seq<Deviation>, urgent: seq<RebalanceAction>, totalEquity: real, c: Config)
    returns (actions: seq<RebalanceAction>, sorted: seq<Deviation>)
    requires c.threshPct > 0.0 || !HasPair(deviations, c)
    ensures IsSorted(Descending, sorted, deviations) && Ends(Start(sorted, urgent), c)
    ensures actions == Run(Start(sorted, urgent), totalEquity, c).actions
  {
    var devs := new Deviation[|deviations|](k requires 0 <= k < |deviations| => deviations[k]);
    assert devs[..] == deviations;
    SortSorts(Descending, deviations);
    InsertionSort(Descending, devs);
    sorted := devs[..];
    StartHasPair(deviations, sorted, urgent, c);
    actions := Rebalance(devs, urgent, totalEquity, c);
  }

  // ----- What the loop does ------------------------------------------------------------------

  /** No deviation changes sign or grows. */
  predicate Shrinks(before: real, after: real) {
    || 0.0 < after <= before
    || before <= after < 0.0
    || after == before == 0.0
  }

  ghost predicate AllShrink(before: seq<Deviation>, after: seq<Deviation>) {
    |after| == |before| && forall k :: 0 <= k < |before| ==>
      after[k].venue == before[k].venue && Shrinks(before[k].diff, after[k].diff)
  }

  lemma StepShrinks(s: State, totalEquity: real, c: Config)
    requires Indexed(s) && Continues(s, c) && c.threshPct > 0.0
    ensures AllShrink(s.devs, Step(s, totalEquity, c).devs)
  {
  }

  /** From any state the loop conserves the sum of the deviations and changes the sign of none. */
  lemma {:induction false} RunConserves(s: State, totalEquity: real, c: Config)
    requires Indexed(s) && c.threshPct > 0.0
    ensures var r := Run(s, totalEquity, c);
            SumBy(Diff, r.devs) == SumBy(Diff, s.devs) && AllShrink(s.devs, r.devs)
    decreases PassesLeft(s, c)
  {
    if Continues(s, c) {
      StepDecreases(s, totalEquity, c);
      RunConserves(Step(s, totalEquity, c), totalEquity, c);
      StepSums(s, totalEquity, c);
      StepShrinks(s, totalEquity, c);
    }
  }

  function Half(c: Config, n: int): real {
    n as real * (c.threshPct / 2.0)
  }

  lemma HalfMore(c: Config, n: int)
    ensures Half(c, n + 1) == Half(c, n) + c.threshPct / 2.0
    ensures Half(c, 0) == 0.0
  {
  }

  /** What was done from s to r is paid for with at least half a threshold of excess a move. */
  ghost predicate Pays(s: State, r: State, c: Config) {
    && s.actions <= r.actions
    && SumBy(Excess, r.devs) + Half(c, |r.actions| - |s.actions|) <= SumBy(Excess, s.devs)
  }

  lemma PaysOneMore(s: State, r: State, totalEquity: real, c: Config)
    requires Indexed(s) && c.threshPct > 0.0 && Continues(s, c) && Pays(Step(s, totalEquity, c), r, c)
    ensures Pays(s, r, c)
  {
    StepSums(s, totalEquity, c);
    HalfMore(c, |r.actions| - |s.actions| - 1);
  }

  /** Each move the loop adds is paid for with at least half a threshold of excess. */
  lemma {:induction false} RunPays(s: State, totalEquity: real, c: Config)
    requires Indexed(s) && c.threshPct > 0.0
    ensures Pays(s, Run(s, totalEquity, c), c)
    decreases PassesLeft(s, c)
  {
    if Continues(s, c) {
      var next := Step(s, totalEquity, c);
      StepDecreases(s, totalEquity, c);
      RunPays(next, totalEquity, c);
      PaysOneMore(s, Run(next, totalEquity, c), totalEquity, c);
    } else {
      HalfMore(c, 0);
    }
  }

  /** A move goes from a venue that is over by the threshold to one that is under by it. */
  ghost predicate FromOverToUnder(a: RebalanceAction, devs: seq<Deviation>, c: Config) {
    exists i, j :: 0 <= i < |devs| && 0 <= j < |devs| && Feeds(a, devs, i, j, c)
  }

  predicate Feeds(a: RebalanceAction, devs: seq<Deviation>, i: int, j: int, c: Config)
    requires 0 <= i < |devs| && 0 <= j < |devs|
  {
    && devs[i].venue == a.fromVenue && devs[j].venue == a.toVenue
    && devs[i].diff >= c.threshPct && devs[j].diff <= -c.threshPct
  }

  lemma StillFeeds(a: RebalanceAction, before: seq<Deviation>, after: seq<Deviation>, c: Config)
    requires c.threshPct > 0.0 && AllShrink(before, after) && FromOverToUnder(a, after, c)
    ensures FromOverToUnder(a, before, c)
  {
    var i, j :| 0 <= i < |after| && 0 <= j < |after| && Feeds(a, after, i, j, c);
    assert Feeds(a, before, i, j, c);
  }

  /** Every move the loop adds is from a venue over by the threshold at the start to one under by it. */
  lemma {:induction false} RunMoves(s: State, totalEquity: real, c: Config, k: nat)
    requires Indexed(s) && c.threshPct > 0.0
    requires |s.actions| <= k < |Run(s, totalEquity, c).actions|
    ensures FromOverToUnder(Run(s, totalEquity, c).actions[k], s.devs, c)
    decreases PassesLeft(s, c)
  {
    var next := Step(s, totalEquity, c);
    StepDecreases(s, totalEquity, c);
    if k == |s.actions| {
      RunPays(next, totalEquity, c);
      assert Feeds(next.actions[k], s.devs, s.i, s.j, c);
    } else {
      RunMoves(next, totalEquity, c, k);
      StepShrinks(s, totalEquity, c);
      StillFeeds(Run(s, totalEquity, c).actions[k], s.devs, next.devs, c);
    }
  }

  // ----- The amounts -------------------------------------------------------------------------

  /** What a move takes from a venue, or with a minus sign brings it. */
  function FlowFrom(venue: string, a: RebalanceAction): real {
    (if a.fromVenue == venue then a.amountUSD else 0.0) - (if a.toVenue == venue then a.amountUSD else 0.0)
  }

  function NetFlow(actions: seq<RebalanceAction>, venue: string): real {
    if actions == [] then 0.0
    else NetFlow(actions[..|actions| - 1], venue) + FlowFrom(venue, actions[|actions| - 1])
  }

  predicate DistinctVenues(devs: seq<Deviation>) {
    forall i, j :: 0 <= i < j < |devs| ==> devs[i].venue != devs[j].venue
  }

  /** The least move there can be is not raised to the least transfer, nor the greatest cut down to the greatest. */
  predicate LimitsDoNotBind(excess: real, totalEquity: real, c: Config) {
    totalEquity >= 0.0 && c.minTransferUSD <= Dollars(c.threshPct / 2.0, totalEquity) &&
        Dollars(excess, totalEquity) <= c.maxTransferUSD
  }

  lemma DollarsAdd(x: real, y: real, totalEquity: real)
    ensures Dollars(x + y, totalEquity) == Dollars(x, totalEquity) + Dollars(y, totalEquity)
    ensures Dollars(-x, totalEquity) == -Dollars(x, totalEquity)
    ensures Dollars(0.0, totalEquity) == 0.0
  {
  }

  lemma FlowOfMore(actions: seq<RebalanceAction>, a: RebalanceAction, venue: string)
    ensures NetFlow(actions + [a], venue) == NetFlow(actions, venue) + FlowFrom(venue, a)
  {
    assert (actions + [a])[..|actions|] == actions;
  }

  lemma FlowOfMove(from: string, to: string, venue: string, t: real, totalEquity: real)
    requires from != to
    ensures FlowFrom(venue, RebalanceAction(from, to, Dollars(t, totalEquity))) ==
            Dollars(if venue == from then t else if venue == to then -t else 0.0, totalEquity)
  {
    DollarsAdd(t, 0.0, totalEquity);
  }

  lemma DollarsMonotone(x: real, y: real, totalEquity: real)
    requires x <= y && totalEquity >= 0.0
    ensures Dollars(x, totalEquity) <= Dollars(y, totalEquity)
  {
    MulMonotone(x / 100.0, y / 100.0, totalEquity);
  }

  lemma StepAmount(s: State, totalEquity: real, c: Config, excess: real)
    requires Indexed(s) && Continues(s, c) && c.threshPct > 0.0
    requires SumBy(Excess, s.devs) <= excess && LimitsDoNotBind(excess, totalEquity, c)
    ensures Amount(TransferPct(s), totalEquity, c) == Dollars(TransferPct(s), totalEquity)
  {
    StepSums(s, totalEquity, c);
    ExcessNonnegative(Step(s, totalEquity, c).devs);
    DollarsMonotone(c.threshPct / 2.0, TransferPct(s), totalEquity);
    DollarsMonotone(TransferPct(s), excess, totalEquity);
  }

  lemma StepDiff(s: State, totalEquity: real, c: Config, v: nat)
    requires Indexed(s) && Continues(s, c) && DistinctVenues(s.devs) && v < |s.devs|
    ensures var (venue, t) := (s.devs[v].venue, TransferPct(s));
            s.devs[v].diff - Step(s, totalEquity, c).devs[v].diff ==
            if venue == s.devs[s.i].venue then t else if venue == s.devs[s.j].venue then -t else 0.0
  {
  }

  lemma StepFlows(s: State, totalEquity: real, c: Config, v: nat, excess: real)
    requires Indexed(s) && Continues(s, c) && c.threshPct > 0.0 && DistinctVenues(s.devs) && v < |s.devs|
    requires SumBy(Excess, s.devs) <= excess && LimitsDoNotBind(excess, totalEquity, c)
    ensures var next := Step(s, totalEquity, c);
            NetFlow(next.actions, s.devs[v].venue) ==
            NetFlow(s.actions, s.devs[v].venue) + Dollars(s.devs[v].diff - next.devs[v].diff, totalEquity)
  {
    var from, to, t := s.devs[s.i].venue, s.devs[s.j].venue, TransferPct(s);
    StepAmount(s, totalEquity, c, excess);
    FlowOfMore(s.actions, RebalanceAction(from, to, Dollars(t, totalEquity)), s.devs[v].venue);
    FlowOfMove(from, to, s.devs[v].venue, t, totalEquity);
    StepDiff(s, totalEquity, c, v);
  }

  lemma StepKeepsVenues(s: State, totalEquity: real, c: Config)
    requires Indexed(s) && Continues(s, c) && c.threshPct > 0.0 && DistinctVenues(s.devs)
    ensures var next := Step(s, totalEquity, c);
            && DistinctVenues(next.devs) && SumBy(Excess, next.devs) <= SumBy(Excess, s.devs)
            && (forall v :: 0 <= v < |s.devs| ==> next.devs[v].venue == s.devs[v].venue)
  {
    StepSums(s, totalEquity, c);
    StepShrinks(s, totalEquity, c);
  }

  lemma FlowsAdd(a: real, b: real, d: real, x: real, y: real, z: real, totalEquity: real)
    requires b == a + Dollars(x - y, totalEquity) && d == b + Dollars(y - z, totalEquity)
    ensures d == a + Dollars(x - z, totalEquity)
  {
    DollarsAdd(x - y, y - z, totalEquity);
  }

  /** The dollars that the passes of a run take off the deviation at v, pass by pass. */
  ghost function TakenOff(s: State, totalEquity: real, c: Config, v: nat): real
    requires Indexed(s) && c.threshPct > 0.0 && v < |s.devs|
    decreases PassesLeft(s, c)
  {
    if Continues(s, c) then
      StepDecreases(s, totalEquity, c);
      var next := Step(s, totalEquity, c);
      Dollars(s.devs[v].diff - next.devs[v].diff, totalEquity) + TakenOff(next, totalEquity, c, v)
    else 0.0
  }

  lemma TakenOffSplits(s: State, totalEquity: real, c: Config, v: nat)
    requires Indexed(s) && c.threshPct > 0.0 && v < |s.devs| && Continues(s, c)
    ensures var next := Step(s, totalEquity, c);
            && Run(s, totalEquity, c) == Run(next, totalEquity, c)
            && TakenOff(s, totalEquity, c, v) ==
               Dollars(s.devs[v].diff - next.devs[v].diff, totalEquity) + TakenOff(next, totalEquity, c, v)
  {
    StepDecreases(s, totalEquity, c);
  }

  lemma {:induction false} TakenOffInAll(s: State, totalEquity: real, c: Config, v: nat)
    requires Indexed(s) && c.threshPct > 0.0 && v < |s.devs|
    ensures var r := Run(s, totalEquity, c);
            |r.devs| == |s.devs| &&
                TakenOff(s, totalEquity, c, v) == Dollars(s.devs[v].diff - r.devs[v].diff, totalEquity)
    decreases PassesLeft(s, c)
  {
    if Continues(s, c) {
      var next, r := Step(s, totalEquity, c), Run(s, totalEquity, c);
      StepDecreases(s, totalEquity, c);
      TakenOffInAll(next, totalEquity, c, v);
      FlowsAdd(0.0, Dollars(s.devs[v].diff - next.devs[v].diff, totalEquity), TakenOff(s, totalEquity, c, v),
               s.devs[v].diff, next.devs[v].diff, r.devs[v].diff, totalEquity);
    } else {
      DollarsAdd(0.0, 0.0, totalEquity);
    }
  }

  /** What the lemma below needs of a state, kept by every pass. */
  ghost predicate Traded(s: State, totalEquity: real, c: Config, v: nat, venue: string, excess: real) {
    && Indexed(s) && DistinctVenues(s.devs) && v < |s.devs| && s.devs[v].venue == venue
    && SumBy(Excess, s.devs) <= excess && LimitsDoNotBind(excess, totalEquity, c)
  }

  lemma StepTraded(s: State, totalEquity: real, c: Config, v: nat, venue: string, excess: real)
    requires Traded(s, totalEquity, c, v, venue, excess) && Continues(s, c) && c.threshPct > 0.0
    ensures var next := Step(s, totalEquity, c);
            && Traded(next, totalEquity, c, v, venue, excess)
            && NetFlow(next.actions, venue) ==
               NetFlow(s.actions, venue) + Dollars(s.devs[v].diff - next.devs[v].diff, totalEquity)
  {
    StepKeepsVenues(s, totalEquity, c);
    StepFlows(s, totalEquity, c, v, excess);
  }

  lemma {:induction false} MovesTakeOff(s: State, totalEquity: real, c: Config, v: nat, venue: string, excess: real)
    requires c.threshPct > 0.0 && Traded(s, totalEquity, c, v, venue, excess)
    ensures NetFlow(Run(s, totalEquity, c).actions, venue) == NetFlow(s.actions, venue) + TakenOff(s, totalEquity, c, v)
    decreases PassesLeft(s, c)
  {
    if Continues(s, c) {
      StepDecreases(s, totalEquity, c);
      StepTraded(s, totalEquity, c, v, venue, excess);
      MovesTakeOff(Step(s, totalEquity, c), totalEquity, c, v, venue, excess);
      TakenOffSplits(s, totalEquity, c, v);
    }
  }

  /**
   Where the transfer limits do not bind, the dollars that the added moves take from a venue are
   exactly its share of equity that the loop takes off its deviation.
   */
  lemma RunFlows(s: State, totalEquity: real, c: Config, v: nat)
    requires Indexed(s) && c.threshPct > 0.0 && DistinctVenues(s.devs) && v < |s.devs|
    requires LimitsDoNotBind(SumBy(Excess, s.devs), totalEquity, c)
    ensures var (r, venue) := (Run(s, totalEquity, c), s.devs[v].venue);
            && |r.devs| == |s.devs|
            && NetFlow(r.actions, venue) ==
               NetFlow(s.actions, venue) + Dollars(s.devs[v].diff - r.devs[v].diff, totalEquity)
  {
    MovesTakeOff(s, totalEquity, c, v, s.devs[v].venue, SumBy(Excess, s.devs));
    TakenOffInAll(s, totalEquity, c, v);
  }

  // ----- What is left at the end -------------------------------------------------------------

  /**
   Passed on the left are venues over by less than the threshold, on the right venues under by less.
   Between the ends the order holds, except that an end already drawn on is still over (or under).
   */
  ghost predicate Closing(s: State, c: Config)
    requires Indexed(s)
  {
    && s.i <= s.j + 1
    && (forall k :: 0 <= k < s.i && k < |s.devs| ==> 0.0 <= s.devs[k].diff < c.threshPct)
    && (forall k :: s.j < k < |s.devs| ==> -c.threshPct < s.devs[k].diff <= 0.0)
    && (forall k, l :: s.i <= k < l <= s.j ==>
          || s.devs[k].diff >= s.devs[l].diff
          || (k == s.i && s.devs[k].diff >= c.threshPct)
          || (l == s.j && s.devs[l].diff <= -c.threshPct))
  }

  lemma StepCloses(s: State, totalEquity: real, c: Config)
    requires Indexed(s) && Continues(s, c) && c.threshPct > 0.0 && Closing(s, c)
    ensures Closing(Step(s, totalEquity, c), c)
  {
  }

  lemma {:induction false} RunCloses(s: State, totalEquity: real, c: Config)
    requires Indexed(s) && c.threshPct > 0.0 && Closing(s, c)
    ensures var r := Run(s, totalEquity, c); Closing(r, c) && !Continues(r, c)
    decreases PassesLeft(s, c)
  {
    if Continues(s, c) {
      StepDecreases(s, totalEquity, c);
      StepCloses(s, totalEquity, c);
      RunCloses(Step(s, totalEquity, c), totalEquity, c);
    }
  }

  ghost predicate NoneOver(devs: seq<Deviation>, c: Config) {
    forall k :: 0 <= k < |devs| ==> devs[k].diff < c.threshPct
  }

  ghost predicate NoneUnder(devs: seq<Deviation>, c: Config) {
    forall k :: 0 <= k < |devs| ==> devs[k].diff > -c.threshPct
  }

  /**
   In whatever order the sort leaves equal deviations, at the end no venue is over by the threshold
   or none is under by it.
   */
  lemma OneSideSettled(deviations: seq<Deviation>, sorted: seq<Deviation>, urgent: seq<RebalanceAction>,
                       totalEquity: real, c: Config)
    requires c.threshPct > 0.0 && IsSorted(Descending, sorted, deviations)
    ensures var r := Run(Start(sorted, urgent), totalEquity, c);
            NoneOver(r.devs, c) || NoneUnder(r.devs, c)
  {
    assert Closing(Start(sorted, urgent), c) by {
      forall k, l | 0 <= k < l < |sorted| ensures sorted[k].diff >= sorted[l].diff {
        assert Descending(sorted[k]) <= Descending(sorted[l]);
      }
    }
    RunCloses(Start(sorted, urgent), totalEquity, c);
  }

  // ----- Exactly when the loop ends ----------------------------------------------------------

  /** The state of the loop after n passes, as far as it gets. */
  function Passes(s: State, totalEquity: real, c: Config, n: nat): (r: State)
    requires Indexed(s)
    ensures Indexed(r)
  {
    if n == 0 then s
    else
      var before := Passes(s, totalEquity, c, n - 1);
      if Continues(before, c) then Step(before, totalEquity, c) else before
  }

  /** A run stops at the state of the first pass that would not go on. */
  lemma {:induction false} RunIsPasses(s: State, totalEquity: real, c: Config, n: nat)
    requires Indexed(s) && c.threshPct > 0.0 && !Continues(Passes(s, totalEquity, c, n), c)
    ensures Run(s, totalEquity, c) == Passes(s, totalEquity, c, n)
    decreases n
  {
    if Continues(s, c) {
      PassesAfterOne(s, totalEquity, c, n - 1);
      RunIsPasses(Step(s, totalEquity, c), totalEquity, c, n - 1);
    } else {
      PassesStay(s, totalEquity, c, n);
    }
  }

  lemma {:induction false} PassesStay(s: State, totalEquity: real, c: Config, n: nat)
    requires Indexed(s) && !Continues(s, c)
    ensures Passes(s, totalEquity, c, n) == s
  {
    if n > 0 {
      PassesStay(s, totalEquity, c, n - 1);
    }
  }

  /** The dollars of half the percentage m, within the limits. */
  predicate IsAmount(amountUSD: real, m: real, totalEquity: real, c: Config) {
    && amountUSD >= c.minTransferUSD
    && (c.minTransferUSD <= c.maxTransferUSD ==> amountUSD <= c.maxTransferUSD)
    && (200.0 * amountUSD > Times(m, totalEquity) ==> amountUSD == c.minTransferUSD)
    && (200.0 * amountUSD < Times(m, totalEquity) ==> amountUSD == Max(c.minTransferUSD, c.maxTransferUSD))
  }

  lemma AmountIs(m: real, totalEquity: real, c: Config)
    ensures IsAmount(Amount(m / 2.0, totalEquity, c), m, totalEquity, c)
  {
    assert 200.0 * (m / 2.0 / 100.0 * totalEquity) == m * totalEquity;
  }

  /**
   Pass n of the loop: the smaller of what the left venue is over and the right one is under is m; both
   come closer by half of it, and the move between them is of the dollars of that half, unless a limit
   binds.  A pointer moves on when its venue is no longer off by the threshold.
   */
  lemma PassIs(s: State, totalEquity: real, c: Config, n: nat)
    requires Indexed(s) && Continues(Passes(s, totalEquity, c, n), c) && c.threshPct > 0.0
    ensures var (now, next) := (Passes(s, totalEquity, c, n), Passes(s, totalEquity, c, n + 1));
            var (over, under) := (now.devs[now.i], now.devs[now.j]);
            var m := Min(over.diff, -under.diff);
            && |next.devs| == |now.devs| && |next.actions| == |now.actions| + 1
            && 2.0 * next.devs[now.i].diff == 2.0 * over.diff - m
            && 2.0 * next.devs[now.j].diff == 2.0 * under.diff + m
            && (forall k :: 0 <= k < |now.devs| && k != now.i && k != now.j ==> next.devs[k] == now.devs[k])
            && next.i == (if next.devs[now.i].diff < c.threshPct then now.i + 1 else now.i)
            && next.j == (if next.devs[now.j].diff > -c.threshPct then now.j - 1 else now.j)
            && next.actions[..|now.actions|] == now.actions
            && var a := next.actions[|now.actions|];
               a.fromVenue == over.venue && a.toVenue == under.venue && IsAmount(a.amountUSD, m, totalEquity, c)
  {
    var now := Passes(s, totalEquity, c, n);
    AmountIs(Min(now.devs[now.i].diff, -now.devs[now.j].diff), totalEquity, c);
  }

  /** With a threshold of zero or less a pass moves neither pointer, so a loop that starts never ends. */
  lemma {:induction false} NeverSettles(s: State, totalEquity: real, c: Config, n: nat)
    requires Indexed(s) && c.threshPct <= 0.0
    ensures var r := Passes(s, totalEquity, c, n);
            && r.i == s.i && r.j == s.j && |r.devs| == |s.devs|
            && (Continues(r, c) <==> Continues(s, c))
  {
    if n > 0 {
      NeverSettles(s, totalEquity, c, n - 1);
      var before := Passes(s, totalEquity, c, n - 1);
      if Continues(before, c) {
        PassStays(before, totalEquity, c);
      }
    }
  }

  lemma PassStays(s: State, totalEquity: real, c: Config)
    requires Indexed(s) && c.threshPct <= 0.0 && Continues(s, c)
    ensures var r := Step(s, totalEquity, c);
            r.i == s.i && r.j == s.j && |r.devs| == |s.devs| && Continues(r, c)
  {
  }

  lemma {:induction false} PassesAfterOne(s: State, totalEquity: real, c: Config, n: nat)
    requires Indexed(s) && Continues(s, c)
    ensures Passes(s, totalEquity, c, n + 1) == Passes(Step(s, totalEquity, c), totalEquity, c, n)
  {
    if n > 0 {
      PassesAfterOne(s, totalEquity, c, n - 1);
    }
  }

  /** After some number of passes the loop is at its exit. */
  ghost predicate Settles(s: State, totalEquity: real, c: Config)
    requires Indexed(s)
  {
    exists n: nat :: !Continues(Passes(s, totalEquity, c, n), c)
  }

  lemma {:induction false} SettlesInTime(s: State, totalEquity: real, c: Config)
    requires Indexed(s) && c.threshPct > 0.0
    ensures Settles(s, totalEquity, c)
    decreases PassesLeft(s, c)
  {
    if Continues(s, c) {
      StepDecreases(s, totalEquity, c);
      SettlesInTime(Step(s, totalEquity, c), totalEquity, c);
      var n: nat :| !Continues(Passes(Step(s, totalEquity, c), totalEquity, c, n), c);
      PassesAfterOne(s, totalEquity, c, n);
      assert !Continues(Passes(s, totalEquity, c, n + 1), c);
    } else {
      assert !Continues(Passes(s, totalEquity, c, 0), c);
    }
  }

  /** The loop ends exactly when the threshold is positive or the loop does not start. */
  lemma SettlesExactly(s: State, totalEquity: real, c: Config)
    requires Indexed(s)
    ensures Settles(s, totalEquity, c) <==> Ends(s, c)
  {
    if c.threshPct > 0.0 {
      SettlesInTime(s, totalEquity, c);
    } else {
      forall n: nat ensures Continues(Passes(s, totalEquity, c, n), c) <==> Continues(s, c) {
        NeverSettles(s, totalEquity, c, n);
      }
      assert !Continues(s, c) ==> !Continues(Passes(s, totalEquity, c, 0), c);
    }
  }
}
