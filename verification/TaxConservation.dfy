/**
 What goes in comes out: every unit bought, and every pound paid for it, is accounted for by the
 disposals and by the pool that is left.
 */
module TaxConservation {
  import opened Sums
  import opened TaxMatching

  // ----- What is bought and disposed of ------------------------------------------------------

  predicate IsPurchase(t: Trade) {
    t.action == BUY && t.quantity > 0.0
  }

  function BoughtQuantity(t: Trade): real {
    if IsPurchase(t) then t.quantity else 0.0
  }

  /** Fees are part of the cost. */
  function BoughtCost(t: Trade): real {
    if IsPurchase(t) then t.notionalGBP + t.feesGBP else 0.0
  }

  function DisposedQuantity(d: Disposal): real {
    d.quantity
  }

  function DisposedCost(d: Disposal): real {
    d.costGBP
  }

  // ----- Measures of a book ------------------------------------------------------------------

  predicate IsSale(t: Trade) {
    t.action == SELL
  }

  /** What a measure counts: units, or the pounds they cost. */
  datatype Unit = Units | Pounds

  function Amount(unit: Unit, t: Trade, q: real): real {
    match unit
    case Units => q
    case Pounds => q * AcqCostPerUnit(t)
  }

  function AmountIf(unit: Unit, held: Trade -> bool, t: Trade, q: real): real {
    if held(t) then Amount(unit, t, q) else 0.0
  }

  lemma AmountLess(unit: Unit, held: Trade -> bool, t: Trade, x: real, y: real)
    ensures AmountIf(unit, held, t, x - y) == AmountIf(unit, held, t, x) - AmountIf(unit, held, t, y)
    ensures AmountIf(unit, held, t, 0.0) == 0.0
  {
    assert (x - y) * AcqCostPerUnit(t) == x * AcqCostPerUnit(t) - y * AcqCostPerUnit(t);
  }

  /** What remains of the trades that are held. */
  function Remaining(unit: Unit, held: Trade -> bool, ts: seq<Trade>, r: seq<real>): real
    requires |ts| == |r|
  {
    if ts == [] then 0.0
    else
      var n := |ts| - 1;
      Remaining(unit, held, ts[..n], r[..n]) + AmountIf(unit, held, ts[n], r[n])
  }

  /** The total of f over one trade's matches, if the trade counts. */
  function Share(f: MatchResult -> real, counts: Trade -> bool, t: Trade, ms: seq<MatchResult>): real {
    if counts(t) then SumBy(f, ms) else 0.0
  }

  /** The total of f over the matches of all trades that count. */
  function Total(f: MatchResult -> real, counts: Trade -> bool, ts: seq<Trade>, matches: seq<seq<MatchResult>>): real
    requires |matches| == |ts|
  {
    if ts == [] then 0.0
    else
      var n := |ts| - 1;
      Total(f, counts, ts[..n], matches[..n]) + Share(f, counts, ts[n], matches[n])
  }

  /** What remains of the trades held, and what is matched by the trades that count. */
  function Measure(f: MatchResult -> real, unit: Unit, held: Trade -> bool, counts: Trade -> bool,
                   ts: seq<Trade>, b: Book): real
    requires Fits(ts, b)
  {
    Remaining(unit, held, ts, b.remaining) + Total(f, counts, ts, b.matches)
  }

  // ----- What every step keeps ---------------------------------------------------------------

  /** A trade of no positive quantity is never touched; any other is used up to at most its quantity. */
  ghost predicate Sound(ts: seq<Trade>, b: Book) {
    && Fits(ts, b)
    && (forall k :: 0 <= k < |ts| ==> SoundAt(ts, b, k))
  }

  ghost predicate SoundAt(ts: seq<Trade>, b: Book, k: nat)
    requires Fits(ts, b) && k < |ts|
  {
    && (ts[k].quantity <= 0.0 ==> b.remaining[k] == ts[k].quantity)
    && (ts[k].quantity > 0.0 ==> 0.0 <= b.remaining[k] <= ts[k].quantity)
    && (ts[k].action == SELL ==> b.remaining[k] + SumBy(ResultQuantity, b.matches[k]) == ts[k].quantity)
    && (ts[k].action != SELL ==> b.matches[k] == [])
  }

  lemma OpeningSound(ts: seq<Trade>)
    ensures Sound(ts, Opening(ts))
  {
  }

  lemma SumByOne<T>(f: T -> real, s: seq<T>, x: T)
    ensures SumBy(f, s + [x]) == SumBy(f, s) + f(x)
  {
    assert (s + [x])[..|s|] == s;
  }

  lemma AttemptSound(ts: seq<Trade>, rule: Rule, b: Book, i: nat, j: nat)
    requires Sound(ts, b) && i < |ts| && j < |ts| && ts[i].action == SELL
    ensures Sound(ts, Attempt(ts, rule, b, i, j))
  {
    if Matches(ts, rule, b, i, j) {
      var q := Min(b.remaining[i], b.remaining[j]);
      var b' := Attempt(ts, rule, b, i, j);
      SumByOne(ResultQuantity, b.matches[i], Purchased(rule, ts[j], q, j));
      assert SoundAt(ts, b, i) && SoundAt(ts, b, j);
      forall k | 0 <= k < |ts| ensures SoundAt(ts, b', k) {
        assert SoundAt(ts, b, k);
      }
    }
  }

  lemma {:induction false} ScanSound(ts: seq<Trade>, rule: Rule, b: Book, i: nat, n: nat)
    requires Sound(ts, b) && i < |ts| && n <= |ts| && ts[i].action == SELL
    ensures Sound(ts, Scan(ts, rule, b, i, n))
  {
    if n > 0 {
      ScanSound(ts, rule, b, i, n - 1);
      AttemptSound(ts, rule, Scan(ts, rule, b, i, n - 1), i, n - 1);
    }
  }

  lemma {:induction false} PassSound(ts: seq<Trade>, rule: Rule, b: Book, n: nat)
    requires Sound(ts, b) && n <= |ts|
    ensures Sound(ts, Pass(ts, rule, b, n))
  {
    if n > 0 {
      PassSound(ts, rule, b, n - 1);
      if ts[n - 1].action == SELL {
        ScanSound(ts, rule, Pass(ts, rule, b, n - 1), n - 1, |ts|);
      }
    }
  }

  lemma AfterThirtyDaySound(ts: seq<Trade>)
    ensures Sound(ts, AfterSameDay(ts)) && Sound(ts, AfterThirtyDay(ts))
  {
    OpeningSound(ts);
    PassSound(ts, SameDay, Opening(ts), |ts|);
    PassSound(ts, ThirtyDay, AfterSameDay(ts), |ts|);
  }

  // ----- Measures that matching keeps --------------------------------------------------------

  /** Each match the rule allows adds to the matched side what it takes from the remaining side. */
  ghost predicate Balanced(f: MatchResult -> real, unit: Unit, held: Trade -> bool, counts: Trade -> bool, rule: Rule) {
    forall s: Trade, t: Trade, q: real, k: int {:trigger Eligible(rule, s, t), Purchased(rule, t, q, k)} ::
      s.action == SELL && s.quantity > 0.0 && IsPurchase(t) && Eligible(rule, s, t)
      ==> BalancedAt(f, unit, held, counts, s, t, q, Purchased(rule, t, q, k))
  }

  ghost predicate BalancedAt(f: MatchResult -> real, unit: Unit, held: Trade -> bool, counts: Trade -> bool,
                             s: Trade, t: Trade, q: real, m: MatchResult) {
    (if counts(s) then f(m) else 0.0) == AmountIf(unit, held, s, q) + AmountIf(unit, held, t, q)
  }

  lemma {:induction false} RemainingUpdate(unit: Unit, held: Trade -> bool, ts: seq<Trade>, r: seq<real>, i: nat,
                                           x: real)
    requires |ts| == |r| && i < |r|
    ensures Remaining(unit, held, ts, r[i := x])
         == Remaining(unit, held, ts, r) - AmountIf(unit, held, ts[i], r[i]) + AmountIf(unit, held, ts[i], x)
  {
    var n := |r| - 1;
    if i == n {
      assert r[i := x][..n] == r[..n];
    } else {
      assert r[i := x][..n] == r[..n][i := x];
      RemainingUpdate(unit, held, ts[..n], r[..n], i, x);
    }
  }

  lemma RemainingLess(unit: Unit, held: Trade -> bool, ts: seq<Trade>, r: seq<real>, i: nat, q: real)
    requires |ts| == |r| && i < |r|
    ensures Remaining(unit, held, ts, r[i := r[i] - q]) == Remaining(unit, held, ts, r) - AmountIf(unit, held, ts[i], q)
  {
    RemainingUpdate(unit, held, ts, r, i, r[i] - q);
    AmountLess(unit, held, ts[i], r[i], q);
  }

  lemma {:induction false} MatchedMore(f: MatchResult -> real, counts: Trade -> bool, ts: seq<Trade>,
                                       matches: seq<seq<MatchResult>>, i: nat, m: MatchResult)
    requires |ts| == |matches| && i < |ts|
    ensures Total(f, counts, ts, matches[i := matches[i] + [m]])
         == Total(f, counts, ts, matches) + if counts(ts[i]) then f(m) else 0.0
  {
    var n := |ts| - 1;
    var more := matches[i := matches[i] + [m]];
    if i == n {
      assert more[..n] == matches[..n];
      SumByOne(f, matches[i], m);
    } else {
      assert more[..n] == matches[..n][i := matches[i] + [m]];
      MatchedMore(f, counts, ts[..n], matches[..n], i, m);
    }
  }

  lemma TransferMeasure(f: MatchResult -> real, unit: Unit, held: Trade -> bool, counts: Trade -> bool,
                        ts: seq<Trade>, rule: Rule, b: Book, i: nat, j: nat, q: real)
    requires Fits(ts, b) && i < |ts| && j < |ts| && i != j
    ensures Measure(f, unit, held, counts, ts, Transfer(ts, rule, b, i, j, q))
         == Measure(f, unit, held, counts, ts, b) + (if counts(ts[i]) then f(Purchased(rule, ts[j], q, j)) else 0.0)
            - AmountIf(unit, held, ts[i], q) - AmountIf(unit, held, ts[j], q)
  {
    RemainingLess(unit, held, ts, b.remaining, i, q);
    RemainingLess(unit, held, ts, b.remaining[i := b.remaining[i] - q], j, q);
    MatchedMore(f, counts, ts, b.matches, i, Purchased(rule, ts[j], q, j));
  }

  lemma AttemptKeeps(f: MatchResult -> real, unit: Unit, held: Trade -> bool, counts: Trade -> bool,
                     ts: seq<Trade>, rule: Rule, b: Book, i: nat, j: nat)
    requires Sound(ts, b) && i < |ts| && j < |ts| && ts[i].action == SELL && Balanced(f, unit, held, counts, rule)
    ensures Measure(f, unit, held, counts, ts, Attempt(ts, rule, b, i, j)) == Measure(f, unit, held, counts, ts, b)
  {
    if Matches(ts, rule, b, i, j) {
      var q := Min(b.remaining[i], b.remaining[j]);
      assert SoundAt(ts, b, i) && SoundAt(ts, b, j);
      assert BalancedAt(f, unit, held, counts, ts[i], ts[j], q, Purchased(rule, ts[j], q, j));
      TransferMeasure(f, unit, held, counts, ts, rule, b, i, j, q);
    }
  }

  lemma {:induction false} ScanKeeps(f: MatchResult -> real, unit: Unit, held: Trade -> bool, counts: Trade -> bool,
                                     ts: seq<Trade>, rule: Rule, b: Book, i: nat, n: nat)
    requires Sound(ts, b) && i < |ts| && n <= |ts| && ts[i].action == SELL && Balanced(f, unit, held, counts, rule)
    ensures Measure(f, unit, held, counts, ts, Scan(ts, rule, b, i, n)) == Measure(f, unit, held, counts, ts, b)
  {
    if n > 0 {
      ScanKeeps(f, unit, held, counts, ts, rule, b, i, n - 1);
      ScanSound(ts, rule, b, i, n - 1);
      AttemptKeeps(f, unit, held, counts, ts, rule, Scan(ts, rule, b, i, n - 1), i, n - 1);
    }
  }

  /** A pass under a rule keeps every measure the rule balances. */
  lemma {:induction false} PassKeeps(f: MatchResult -> real, unit: Unit, held: Trade -> bool, counts: Trade -> bool,
                                     ts: seq<Trade>, rule: Rule, b: Book, n: nat)
    requires Sound(ts, b) && n <= |ts| && Balanced(f, unit, held, counts, rule)
    ensures Measure(f, unit, held, counts, ts, Pass(ts, rule, b, n)) == Measure(f, unit, held, counts, ts, b)
  {
    if n > 0 {
      PassKeeps(f, unit, held, counts, ts, rule, b, n - 1);
      if ts[n - 1].action == SELL {
        PassSound(ts, rule, b, n - 1);
        ScanKeeps(f, unit, held, counts, ts, rule, Pass(ts, rule, b, n - 1), n - 1, |ts|);
      }
    }
  }

  // ----- The pool phase ----------------------------------------------------------------------

  /** Units: in the pool, still to be pooled, and disposed of. */
  function AllUnits(ts: seq<Trade>, b: Book, p: Pool): real
    requires Fits(ts, b)
  {
    p.quantity + Measure(ResultQuantity, Units, IsPurchase, IsSale, ts, b)
  }

  /** Pounds: in the pool, still to be pooled, and deducted from proceeds. */
  function AllPounds(ts: seq<Trade>, b: Book, p: Pool): real
    requires Fits(ts, b)
  {
    p.cost + Measure(ResultCost, Pounds, IsPurchase, IsSale, ts, b)
  }

  lemma PoolingKeeps(ts: seq<Trade>, b: Book, p: Pool, i: nat)
    requires Sound(ts, b) && i < |ts| && b.remaining[i] > 0.0 && ts[i].action == BUY
    ensures var r := PoolStep(ts, b, p, i);
            AllUnits(ts, r.0, r.1) == AllUnits(ts, b, p) && AllPounds(ts, r.0, r.1) == AllPounds(ts, b, p)
  {
    assert SoundAt(ts, b, i);
    var q := b.remaining[i];
    RemainingUpdate(Units, IsPurchase, ts, b.remaining, i, 0.0);
    RemainingUpdate(Pounds, IsPurchase, ts, b.remaining, i, 0.0);
    AmountLess(Units, IsPurchase, ts[i], 0.0, 0.0);
    AmountLess(Pounds, IsPurchase, ts[i], 0.0, 0.0);
    assert Topped(p, ts[i], q).cost == p.cost + AmountIf(Pounds, IsPurchase, ts[i], q);
  }

  lemma DrawKeeps(f: MatchResult -> real, unit: Unit, ts: seq<Trade>, b: Book, p: Pool, i: nat)
    requires Fits(ts, b) && i < |ts| && ts[i].action == SELL
    ensures Measure(f, unit, IsPurchase, IsSale, ts, Draw(ts, b, p, i).0)
         == Measure(f, unit, IsPurchase, IsSale, ts, b) + f(Drawn(p, Min(b.remaining[i], p.quantity)))
  {
    var q := Min(b.remaining[i], p.quantity);
    RemainingLess(unit, IsPurchase, ts, b.remaining, i, q);
    MatchedMore(f, IsSale, ts, b.matches, i, Drawn(p, q));
  }

  lemma PoolStepKeeps(ts: seq<Trade>, b: Book, p: Pool, i: nat)
    requires Sound(ts, b) && i < |ts|
    ensures var r := PoolStep(ts, b, p, i);
            AllUnits(ts, r.0, r.1) == AllUnits(ts, b, p) && AllPounds(ts, r.0, r.1) == AllPounds(ts, b, p)
  {
    if b.remaining[i] <= 0.0 {
    } else if ts[i].action == BUY {
      PoolingKeeps(ts, b, p, i);
    } else if ts[i].action == SELL && p.quantity > 0.0 {
      DrawKeeps(ResultQuantity, Units, ts, b, p, i);
      DrawKeeps(ResultCost, Pounds, ts, b, p, i);
    }
  }

  /** Sound, except that purchases before n have gone into the pool. */
  ghost predicate Pooled(ts: seq<Trade>, b: Book, n: nat) {
    && Sound(ts, b)
    && (forall k :: 0 <= k < n && k < |ts| && IsPurchase(ts[k]) ==> b.remaining[k] == 0.0)
  }

  lemma PoolStepPools(ts: seq<Trade>, b: Book, p: Pool, i: nat)
    requires i < |ts| && Pooled(ts, b, i)
    ensures Pooled(ts, PoolStep(ts, b, p, i).0, i + 1)
  {
    var b' := PoolStep(ts, b, p, i).0;
    assert SoundAt(ts, b, i);
    if b.remaining[i] > 0.0 && ts[i].action == SELL && p.quantity > 0.0 {
      var q := Min(b.remaining[i], p.quantity);
      SumByOne(ResultQuantity, b.matches[i], Drawn(p, q));
    }
    forall k | 0 <= k < |ts| ensures SoundAt(ts, b', k) {
      assert SoundAt(ts, b, k);
    }
  }

  lemma {:induction false} PoolPassKeeps(ts: seq<Trade>, b: Book, p: Pool, n: nat)
    requires Sound(ts, b) && n <= |ts|
    ensures var r := PoolPass(ts, b, p, n);
            && AllUnits(ts, r.0, r.1) == AllUnits(ts, b, p)
            && AllPounds(ts, r.0, r.1) == AllPounds(ts, b, p)
            && Pooled(ts, r.0, n)
  {
    if n > 0 {
      PoolPassKeeps(ts, b, p, n - 1);
      var before := PoolPass(ts, b, p, n - 1);
      PoolStepKeeps(ts, before.0, before.1, n - 1);
      PoolStepPools(ts, before.0, before.1, n - 1);
    }
  }

  // ----- Conservation ------------------------------------------------------------------------

  lemma {:induction false} RemainingOpening(unit: Unit, held: Trade -> bool, g: Trade -> real, ts: seq<Trade>)
    requires forall t: Trade :: AmountIf(unit, held, t, t.quantity) == g(t)
    ensures Remaining(unit, held, ts, Opening(ts).remaining) == SumBy(g, ts)
  {
    if ts != [] {
      var n := |ts| - 1;
      assert Opening(ts).remaining[..n] == Opening(ts[..n]).remaining;
      RemainingOpening(unit, held, g, ts[..n]);
    }
  }

  lemma {:induction false} NothingRemains(unit: Unit, held: Trade -> bool, ts: seq<Trade>, r: seq<real>)
    requires |ts| == |r|
    requires forall k :: 0 <= k < |ts| ==> !held(ts[k]) || r[k] == 0.0
    ensures Remaining(unit, held, ts, r) == 0.0
  {
    if ts != [] {
      var n := |ts| - 1;
      NothingRemains(unit, held, ts[..n], r[..n]);
      AmountLess(unit, held, ts[n], 0.0, 0.0);
    }
  }

  lemma {:induction false} NothingMatched(f: MatchResult -> real, counts: Trade -> bool, ts: seq<Trade>,
                                          matches: seq<seq<MatchResult>>)
    requires |matches| == |ts| && forall k :: 0 <= k < |ts| ==> matches[k] == []
    ensures Total(f, counts, ts, matches) == 0.0
  {
    if ts != [] {
      NothingMatched(f, counts, ts[..|ts| - 1], matches[..|ts| - 1]);
    }
  }

  /** A column of the results is the same column of the matches of the sales. */
  lemma {:induction false} ResultsTotal(f: MatchResult -> real, g: Disposal -> real, ts: seq<Trade>,
                                        matches: seq<seq<MatchResult>>, n: nat)
    requires |matches| == |ts| && n <= |ts|
    requires forall t: Trade, ms: seq<MatchResult> :: g(BuildDisposal(ts, t, ms)) == SumBy(f, ms)
    ensures SumBy(g, Results(ts, matches, n)) == Total(f, IsSale, ts[..n], matches[..n])
  {
    if n > 0 {
      ResultsTotal(f, g, ts, matches, n - 1);
      assert ts[..n][..n - 1] == ts[..n - 1] && matches[..n][..n - 1] == matches[..n - 1];
      SumByOne(g, Results(ts, matches, n - 1), BuildDisposal(ts, ts[n - 1], matches[n - 1]));
    }
  }

  lemma OpeningMeasure(ts: seq<Trade>, p: Pool)
    ensures AllUnits(ts, Opening(ts), p) == p.quantity + SumBy(BoughtQuantity, ts)
    ensures AllPounds(ts, Opening(ts), p) == p.cost + SumBy(BoughtCost, ts)
  {
    RemainingOpening(Units, IsPurchase, BoughtQuantity, ts);
    forall t: Trade ensures AmountIf(Pounds, IsPurchase, t, t.quantity) == BoughtCost(t) {
      if IsPurchase(t) {
        assert t.quantity != 0.0;
      }
    }
    RemainingOpening(Pounds, IsPurchase, BoughtCost, ts);
    NothingMatched(ResultQuantity, IsSale, ts, Opening(ts).matches);
    NothingMatched(ResultCost, IsSale, ts, Opening(ts).matches);
  }

  lemma ClosingMeasure(ts: seq<Trade>, p: Pool, b: Book, q: Pool)
    requires (b, q) == Matched(ts, p) && Pooled(ts, b, |ts|)
    ensures AllUnits(ts, b, q) == q.quantity + SumBy(DisposedQuantity, Disposals(ts, p))
    ensures AllPounds(ts, b, q) == q.cost + SumBy(DisposedCost, Disposals(ts, p))
  {
    NothingRemains(Units, IsPurchase, ts, b.remaining);
    NothingRemains(Pounds, IsPurchase, ts, b.remaining);
    ResultsTotal(ResultQuantity, DisposedQuantity, ts, b.matches, |ts|);
    ResultsTotal(ResultCost, DisposedCost, ts, b.matches, |ts|);
    assert ts[..|ts|] == ts && b.matches[..|ts|] == b.matches;
  }

  lemma RulesBalance(rule: Rule)
    ensures Balanced(ResultQuantity, Units, IsPurchase, IsSale, rule)
    ensures Balanced(ResultCost, Pounds, IsPurchase, IsSale, rule)
  {
    forall s: Trade, t: Trade, q: real, k: int | s.action == SELL && IsPurchase(t)
      ensures BalancedAt(ResultQuantity, Units, IsPurchase, IsSale, s, t, q, Purchased(rule, t, q, k))
      ensures BalancedAt(ResultCost, Pounds, IsPurchase, IsSale, s, t, q, Purchased(rule, t, q, k))
    {
    }
  }

  /**
   Opening pool plus purchases is disposals plus closing pool, in units and in pounds, for any
   trades, in any order, from any pool.
   */
  lemma Conservation(ts: seq<Trade>, p: Pool)
    ensures p.quantity + SumBy(BoughtQuantity, ts)
         == SumBy(DisposedQuantity, Disposals(ts, p)) + ClosingPool(ts, p).quantity
    ensures p.cost + SumBy(BoughtCost, ts)
         == SumBy(DisposedCost, Disposals(ts, p)) + ClosingPool(ts, p).cost
  {
    OpeningMeasure(ts, p);
    OpeningSound(ts);
    AfterThirtyDaySound(ts);
    RulesBalance(SameDay);
    PassKeeps(ResultQuantity, Units, IsPurchase, IsSale, ts, SameDay, Opening(ts), |ts|);
    PassKeeps(ResultCost, Pounds, IsPurchase, IsSale, ts, SameDay, Opening(ts), |ts|);
    RulesBalance(ThirtyDay);
    PassKeeps(ResultQuantity, Units, IsPurchase, IsSale, ts, ThirtyDay, AfterSameDay(ts), |ts|);
    PassKeeps(ResultCost, Pounds, IsPurchase, IsSale, ts, ThirtyDay, AfterSameDay(ts), |ts|);
    PoolPassKeeps(ts, AfterThirtyDay(ts), p, |ts|);
    var (b, q) := Matched(ts, p);
    ClosingMeasure(ts, p, b, q);
  }

  // ----- The pool ----------------------------------------------------------------------------

  /** Not overdrawn, and no cost left behind once it is empty. */
  predicate Proper(p: Pool) {
    p.quantity >= 0.0 && (p.quantity == 0.0 ==> p.cost == 0.0)
  }

  /** A draw never overdraws the pool, keeps its average cost, and takes the last pound with the last unit. */
  lemma DrawKeepsAverage(ts: seq<Trade>, b: Book, p: Pool, i: nat)
    requires Fits(ts, b) && i < |ts| && b.remaining[i] > 0.0 && p.quantity > 0.0
    ensures var p' := Draw(ts, b, p, i).1;
            && Proper(p')
            && (p'.quantity > 0.0 ==> p'.CostPerUnit() == p.CostPerUnit())
  {
    var q := Min(b.remaining[i], p.quantity);
    var c := p.CostPerUnit();
    assert p.cost == p.quantity * c;
    assert p.cost - q * c == (p.quantity - q) * c;
  }

  lemma {:induction false} PoolPassProper(ts: seq<Trade>, b: Book, p: Pool, n: nat)
    requires Fits(ts, b) && n <= |ts| && Proper(p)
    ensures Proper(PoolPass(ts, b, p, n).1)
  {
    if n > 0 {
      PoolPassProper(ts, b, p, n - 1);
      var (b', p') := PoolPass(ts, b, p, n - 1);
      if b'.remaining[n - 1] > 0.0 && ts[n - 1].action == SELL && p'.quantity > 0.0 {
        DrawKeepsAverage(ts, b', p', n - 1);
      }
    }
  }

  /** The pool is never overdrawn: it stays proper after every trade of the pool phase. */
  lemma PoolStaysProper(ts: seq<Trade>, p: Pool, n: nat)
    requires n <= |ts| && Proper(p)
    ensures Proper(PoolPass(ts, AfterThirtyDay(ts), p, n).1)
    ensures Proper(ClosingPool(ts, p))
  {
    PoolPassProper(ts, AfterThirtyDay(ts), p, n);
    PoolPassProper(ts, AfterThirtyDay(ts), p, |ts|);
  }
}
