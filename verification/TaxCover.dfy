/**
 When no more is ever sold than is held, every disposal is matched in full: no purchase made before a
 sale that still needs the pool can have been matched with a later one.
 */
module TaxCover {
  import opened Sums
  import opened Sorting
  import opened TaxMatching
  import opened TaxConservation
  import opened TaxPriority
  import opened TaxReport

  predicate IsDisposal(t: Trade) {
    t.action == SELL && t.quantity > 0.0
  }

  function SoldQuantity(t: Trade): real {
    if IsDisposal(t) then t.quantity else 0.0
  }

  /** In this order of the trades, each sale is covered by the opening pool and the purchases before it. */
  predicate Covered(ts: seq<Trade>, p: Pool) {
    forall k :: 0 <= k < |ts| && IsDisposal(ts[k]) ==>
      SumBy(SoldQuantity, ts[..k + 1]) <= p.quantity + SumBy(BoughtQuantity, ts[..k])
  }

  /** What remains of the trades held among the first n. */
  function LeftOf(held: Trade -> bool, ts: seq<Trade>, r: seq<real>, n: nat): real
    requires |ts| == |r| && n <= |ts|
  {
    Remaining(Units, held, ts[..n], r[..n])
  }

  /** What the sales up to i still need, less what the purchases before i still have. */
  function Net(ts: seq<Trade>, r: seq<real>, i: nat): real
    requires |ts| == |r| && i < |ts|
  {
    LeftOf(IsDisposal, ts, r, i + 1) - LeftOf(IsPurchase, ts, r, i)
  }

  lemma LeftOfLess(held: Trade -> bool, ts: seq<Trade>, r: seq<real>, n: nat, k: nat, q: real)
    requires |ts| == |r| && n <= |ts| && k < |ts|
    ensures LeftOf(held, ts, r[k := r[k] - q], n) == LeftOf(held, ts, r, n) - if k < n && held(ts[k]) then q else 0.0
  {
    if k < n {
      assert r[k := r[k] - q][..n] == r[..n][k := r[..n][k] - q];
      RemainingLess(Units, held, ts[..n], r[..n], k, q);
    } else {
      assert r[k := r[k] - q][..n] == r[..n];
    }
  }

  /** A match of disposal d with purchase j raises the net need of i only if i is between the two, j first. */
  lemma TransferNet(ts: seq<Trade>, rule: Rule, b: Book, d: nat, j: nat, q: real, i: nat)
    requires Fits(ts, b) && d < |ts| && j < |ts| && i < |ts| && IsDisposal(ts[d]) && IsPurchase(ts[j])
    ensures Net(ts, Transfer(ts, rule, b, d, j, q).remaining, i)
         == Net(ts, b.remaining, i) - (if d <= i then q else 0.0) + (if j < i then q else 0.0)
  {
    var r := b.remaining;
    var r' := r[d := r[d] - q];
    LeftOfLess(IsDisposal, ts, r, i + 1, d, q);
    LeftOfLess(IsPurchase, ts, r, i, d, q);
    LeftOfLess(IsDisposal, ts, r', i + 1, j, q);
    LeftOfLess(IsPurchase, ts, r', i, j, q);
  }

  lemma LaterDay(a: int, b: int)
    requires a <= b
    ensures TruncateDay(a) <= TruncateDay(b)
  {
  }

  /** A rule that matches a purchase before i with a disposal after i matches it with i as well. */
  lemma BetweenPairs(ts: seq<Trade>, rule: Rule, d: nat, j: nat, i: nat)
    requires Ordered(ByTime, ts) && j < i < d < |ts| && IsDisposal(ts[i]) && Pairs(ts, rule, d, j)
    ensures Pairs(ts, rule, i, j)
  {
    assert ByTime(ts[j]) <= ByTime(ts[i]) <= ByTime(ts[d]);
    LaterDay(ts[j].timestamp, ts[i].timestamp);
    LaterDay(ts[i].timestamp, ts[d].timestamp);
  }

  /** Disposal i needs no more, or its net need is at most k. */
  ghost predicate Bounded(ts: seq<Trade>, b: Book, i: nat, k: real)
    requires Fits(ts, b) && i < |ts|
  {
    Spent(b, i) || Net(ts, b.remaining, i) <= k
  }

  /** Disposal i and any purchase the rule offers it are not both unfinished. */
  ghost predicate Done(ts: seq<Trade>, rule: Rule, b: Book, i: nat)
    requires Fits(ts, b) && i < |ts|
  {
    forall j :: Pairs(ts, rule, i, j) ==> Spent(b, i) || Spent(b, j)
  }

  lemma AttemptBounded(ts: seq<Trade>, rule: Rule, b: Book, d: nat, j: nat, i: nat, k: real)
    requires Sound(ts, b) && Ordered(ByTime, ts) && d < |ts| && j < |ts| && i < |ts|
    requires ts[d].action == SELL && IsDisposal(ts[i]) && Bounded(ts, b, i, k) && (i < d ==> Done(ts, rule, b, i))
    ensures Bounded(ts, Attempt(ts, rule, b, d, j), i, k)
  {
    if Matches(ts, rule, b, d, j) && !Spent(Attempt(ts, rule, b, d, j), i) {
      assert SoundAt(ts, b, d) && SoundAt(ts, b, j);
      TransferNet(ts, rule, b, d, j, Min(b.remaining[d], b.remaining[j]), i);
      if j < i < d {
        BetweenPairs(ts, rule, d, j, i);
      }
    }
  }

  lemma {:induction false} ScanBounded(ts: seq<Trade>, rule: Rule, b: Book, d: nat, n: nat, i: nat, k: real)
    requires Sound(ts, b) && Ordered(ByTime, ts) && d < |ts| && n <= |ts| && i < |ts|
    requires ts[d].action == SELL && IsDisposal(ts[i]) && Bounded(ts, b, i, k) && (i < d ==> Done(ts, rule, b, i))
    ensures Bounded(ts, Scan(ts, rule, b, d, n), i, k)
  {
    if n > 0 {
      ScanBounded(ts, rule, b, d, n - 1, i, k);
      ScanSound(ts, rule, b, d, n - 1);
      ScanLowers(ts, rule, b, d, 0, n - 1);
      AttemptBounded(ts, rule, Scan(ts, rule, b, d, n - 1), d, n - 1, i, k);
    }
  }

  lemma {:induction false} PassBounded(ts: seq<Trade>, rule: Rule, b: Book, n: nat, i: nat, k: real)
    requires Sound(ts, b) && Ordered(ByTime, ts) && n <= |ts| && i < |ts| && IsDisposal(ts[i]) && Bounded(ts, b, i, k)
    ensures Bounded(ts, Pass(ts, rule, b, n), i, k)
  {
    if n > 0 {
      PassBounded(ts, rule, b, n - 1, i, k);
      PassSound(ts, rule, b, n - 1);
      if ts[n - 1].action == SELL {
        PassExhausts(ts, rule, b, n - 1);
        ScanBounded(ts, rule, Pass(ts, rule, b, n - 1), n - 1, |ts|, i, k);
      }
    }
  }

  lemma OpeningLeft(held: Trade -> bool, g: Trade -> real, ts: seq<Trade>, n: nat)
    requires n <= |ts| && forall t: Trade :: AmountIf(Units, held, t, t.quantity) == g(t)
    ensures LeftOf(held, ts, Opening(ts).remaining, n) == SumBy(g, ts[..n])
  {
    assert Opening(ts[..n]).remaining == Opening(ts).remaining[..n];
    RemainingOpening(Units, held, g, ts[..n]);
  }

  /** A covered sale that still needs the pool can have it. */
  lemma NeedIsCovered(ts: seq<Trade>, p: Pool, i: nat)
    requires Ordered(ByTime, ts) && Covered(ts, p) && i < |ts| && IsDisposal(ts[i]) && !Spent(AfterThirtyDay(ts), i)
    ensures Net(ts, AfterThirtyDay(ts).remaining, i) <= p.quantity
  {
    OpeningLeft(IsDisposal, SoldQuantity, ts, i + 1);
    OpeningLeft(IsPurchase, BoughtQuantity, ts, i);
    OpeningSound(ts);
    AfterThirtyDaySound(ts);
    PassBounded(ts, SameDay, Opening(ts), |ts|, i, p.quantity);
    PassBounded(ts, ThirtyDay, AfterSameDay(ts), |ts|, i, p.quantity);
  }

  lemma LeftOfMore(held: Trade -> bool, ts: seq<Trade>, r: seq<real>, n: nat)
    requires |ts| == |r| && n < |ts|
    ensures LeftOf(held, ts, r, n + 1) == LeftOf(held, ts, r, n) + if held(ts[n]) then r[n] else 0.0
  {
    assert ts[..n + 1][..n] == ts[..n] && r[..n + 1][..n] == r[..n];
  }

  /** Up to n the pool has taken in what was left of the purchases and given out all that the sales still needed. */
  ghost predicate PoolMeets(ts: seq<Trade>, p: Pool, b: Book, p': Pool, n: nat)
    requires Fits(ts, b) && n <= |ts|
  {
    var left := AfterThirtyDay(ts).remaining;
    && p'.quantity == p.quantity + LeftOf(IsPurchase, ts, left, n) - LeftOf(IsDisposal, ts, left, n)
    && (forall k :: 0 <= k < n && IsDisposal(ts[k]) ==> b.remaining[k] == 0.0)
    && (forall k :: n <= k < |ts| ==> b.remaining[k] == left[k])
  }

  lemma PoolStepMeets(ts: seq<Trade>, p: Pool, b: Book, p': Pool, n: nat)
    requires Ordered(ByTime, ts) && Covered(ts, p) && Fits(ts, b) && n < |ts| && PoolMeets(ts, p, b, p', n)
    ensures PoolMeets(ts, p, PoolStep(ts, b, p', n).0, PoolStep(ts, b, p', n).1, n + 1)
  {
    var left := AfterThirtyDay(ts).remaining;
    AfterThirtyDaySound(ts);
    assert SoundAt(ts, AfterThirtyDay(ts), n);
    LeftOfMore(IsPurchase, ts, left, n);
    LeftOfMore(IsDisposal, ts, left, n);
    if IsDisposal(ts[n]) && left[n] > 0.0 {
      NeedIsCovered(ts, p, n);
    }
  }

  lemma {:induction false} PoolPassMeets(ts: seq<Trade>, p: Pool, n: nat)
    requires Ordered(ByTime, ts) && Covered(ts, p) && n <= |ts|
    ensures var (b, p') := PoolPass(ts, AfterThirtyDay(ts), p, n); PoolMeets(ts, p, b, p', n)
  {
    if n > 0 {
      PoolPassMeets(ts, p, n - 1);
      var (b, p') := PoolPass(ts, AfterThirtyDay(ts), p, n - 1);
      PoolStepMeets(ts, p, b, p', n - 1);
    }
  }

  /** If no sale is ever short of what is held, every disposal is matched in full. */
  lemma NeverShort(ts: seq<Trade>, p: Pool)
    requires Ordered(ByTime, ts) && Covered(ts, p)
    ensures FullyMatched(ts, p)
  {
    PoolPassMeets(ts, p, |ts|);
    AfterThirtyDaySound(ts);
    PoolPassKeeps(ts, AfterThirtyDay(ts), p, |ts|);
    forall k | 0 <= k < |ts| && ts[k].action == SELL && ts[k].quantity > 0.0
      ensures SumBy(ResultQuantity, Matched(ts, p).0.matches[k]) == ts[k].quantity
    {
      assert SoundAt(ts, Matched(ts, p).0, k);
      assert IsDisposal(ts[k]);
    }
  }

  /** So the gains of symbols never sold short are their cash flow. */
  lemma CoveredCashFlow(visits: seq<Visit>)
    requires forall v :: v in visits ==> v.closing == ClosingPool(v.sorted, v.opening)
    requires forall v :: v in visits ==> Ordered(ByTime, v.sorted) && Covered(v.sorted, v.opening)
    ensures SumBy(Gain, VisitDisposals(visits)) == SumBy(CashFlow, visits)
  {
    forall v | v in visits ensures FullyMatched(v.sorted, v.opening) {
      NeverShort(v.sorted, v.opening);
    }
    VisitsCashFlow(visits);
  }
}
