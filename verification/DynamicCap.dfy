/** The caps of strategies as their recent performance moves them, before the allocator looks at them. */
module DynamicCap {
  import opened Sums

  const FILLS_NEEDED := 5

  datatype Performance = Performance(recentPnL: real, fillCount: nat, winCount: nat, totalPnL: real)

  const NO_FILLS := Performance(0.0, 0, 0, 0.0)

  /** Wins are fills. */
  predicate Sane(p: Performance) {
    p.winCount <= p.fillCount
  }

  function WinRate(p: Performance): real
    requires p.fillCount > 0
  {
    p.winCount as real / p.fillCount as real
  }

  /** The multiplier of a strategy with enough fills, before negative profit is looked at. */
  function ForWinRate(recentPnL: real, winRate: real): real {
    if recentPnL > 0.0 && winRate > 0.6 then Min(1.5, 1.0 + (winRate - 0.6) * 1.25)
    else if winRate >= 0.4 then 1.0
    else if winRate >= 0.2 then 0.5 + (winRate - 0.2) * 1.25
    else 0.25
  }

  function MultiplierOf(p: Performance): real {
    if p.fillCount < FILLS_NEEDED then 1.0
    else
      var m := ForWinRate(p.recentPnL, WinRate(p));
      if p.recentPnL < 0.0 && m > 1.0 then 0.75 else m
  }

  function Filled(p: Performance, pnlUSD: real): Performance {
    Performance(p.recentPnL + pnlUSD, p.fillCount + 1, p.winCount + if pnlUSD > 0.0 then 1 else 0, p.totalPnL + pnlUSD)
  }

  function Faded(p: Performance, factor: real): Performance {
    p.(recentPnL := Times(p.recentPnL, factor))
  }

  /** The recent profit of the strategies given fades, that of the others stays. */
  function Decayed(performance: map<string, Performance>, strategies: set<string>, factor: real)
      : map<string, Performance>
  {
    map s | s in performance :: if s in strategies then Faded(performance[s], factor) else performance[s]
  }

  function PerformanceOf(performance: map<string, Performance>, strategy: string): Performance {
    if strategy in performance then performance[strategy] else NO_FILLS
  }

  function Adjusted(baseCaps: map<string, real>, performance: map<string, Performance>, strategy: string): real {
    if strategy !in baseCaps then 0.0 else Times(baseCaps[strategy], MultiplierOf(PerformanceOf(performance, strategy)))
  }

  class DynamicAllocator {
    const baseCaps: map<string, real>
    var performance: map<string, Performance>

    constructor (baseCaps: map<string, real>)
      ensures this.baseCaps == baseCaps && performance == map s | s in baseCaps :: NO_FILLS
    {
      this.baseCaps := baseCaps;
      performance := map s | s in baseCaps :: NO_FILLS;
    }

    method RecordFill(strategy: string, pnlUSD: real)
      modifies this
      ensures performance == old(performance)[strategy := Filled(PerformanceOf(old(performance), strategy), pnlUSD)]
    {
      var p := if strategy in performance then performance[strategy] else NO_FILLS;
      p := p.(fillCount := p.fillCount + 1);
      p := p.(totalPnL := p.totalPnL + pnlUSD);
      p := p.(recentPnL := p.recentPnL + pnlUSD);
      if pnlUSD > 0.0 {
        p := p.(winCount := p.winCount + 1);
      }
      performance := performance[strategy := p];
    }

    /** The strategies come in the order in which the map gives its keys. */
    method DecayRecentPnL(factor: real, strategies: seq<string>)
      requires forall s :: s in strategies <==> s in performance
      requires forall i, j :: 0 <= i < j < |strategies| ==> strategies[i] != strategies[j]
      modifies this
      ensures performance == map s | s in old(performance) :: Faded(old(performance)[s], factor)
    {
      for i := 0 to |strategies|
        invariant performance == Decayed(old(performance), set k | 0 <= k < i :: strategies[k], factor)
      {
        var p := performance[strategies[i]];
        p := p.(recentPnL := Times(p.recentPnL, factor));
        performance := performance[strategies[i] := p];
      }
    }

    method AdjustedCap(strategy: string) returns (cap: real)
      ensures cap == Adjusted(baseCaps, performance, strategy)
    {
      if strategy !in baseCaps {
        return 0.0;
      }
      var baseCap := baseCaps[strategy];
      if strategy !in performance || performance[strategy].fillCount < FILLS_NEEDED {
        assert Times(baseCap, 1.0) == baseCap;
        return baseCap;
      }
      var p := performance[strategy];
      var winRate := WinRate(p);
      var multiplier: real;
      if p.recentPnL > 0.0 && winRate > 0.6 {
        multiplier := 1.0 + (winRate - 0.6) * 1.25;
        if multiplier > 1.5 {
          multiplier := 1.5;
        }
      } else if winRate >= 0.4 {
        multiplier := 1.0;
      } else if winRate >= 0.2 {
        multiplier := 0.5 + (winRate - 0.2) * 1.25;
      } else {
        multiplier := 0.25;
      }
      if p.recentPnL < 0.0 && multiplier > 1.0 {
        multiplier := 0.75;
      }
      return Times(baseCap, multiplier);
    }
  }

  /** What moves the performance of one strategy. */
  datatype Move = Fill(pnlUSD: real) | Decay(factor: real)

  function After(moves: seq<Move>): (p: Performance)
    ensures Sane(p)
  {
    if moves == [] then NO_FILLS
    else
      var before := After(moves[..|moves| - 1]);
      match moves[|moves| - 1]
      case Fill(pnlUSD) => Filled(before, pnlUSD)
      case Decay(factor) => Faded(before, factor)
  }

  lemma RateInRange(p: Performance)
    requires Sane(p) && p.fillCount > 0
    ensures 0.0 <= WinRate(p) <= 1.0
  {
    var total := p.fillCount as real;
    assert (total - p.winCount as real) / total >= 0.0;
  }

  /**
   Whatever the performance, the cap is between a quarter and one and a half times the base cap, and
   above it only for a strategy that makes money; the cut for one that loses money never applies.
   */
  lemma CapInRange(p: Performance, baseCap: real)
    requires Sane(p) && baseCap >= 0.0
    ensures var m := MultiplierOf(p);
            && 0.25 <= m <= 1.5
            && (m > 1.0 ==> p.recentPnL > 0.0)
            && (p.fillCount >= FILLS_NEEDED ==> m == ForWinRate(p.recentPnL, WinRate(p)))
            && Times(baseCap, 0.25) <= Times(baseCap, m) <= Times(baseCap, 1.5)
  {
    if p.fillCount >= FILLS_NEEDED {
      RateInRange(p);
    }
    TimesCommutes(baseCap, MultiplierOf(p));
    TimesCommutes(baseCap, 0.25);
    TimesCommutes(baseCap, 1.5);
    TimesMonotone(0.25, MultiplierOf(p), baseCap);
    TimesMonotone(MultiplierOf(p), 1.5, baseCap);
  }

  /** Only the sign of the recent profit counts, so decay leaves every cap as it is exactly by a positive factor. */
  lemma DecayKeepsCaps(factor: real)
    ensures (forall p :: Sane(p) ==> MultiplierOf(Faded(p, factor)) == MultiplierOf(p)) <==> factor > 0.0
  {
    if factor > 0.0 {
      forall p | Sane(p) ensures MultiplierOf(Faded(p, factor)) == MultiplierOf(p) {
        FadedSign(p.recentPnL, factor);
      }
    } else {
      var p := Performance(1.0, FILLS_NEEDED, FILLS_NEEDED, 1.0);
      assert WinRate(p) == 1.0 && Times(1.0, factor) == factor;
      assert MultiplierOf(p) == 1.5 && MultiplierOf(Faded(p, factor)) == 1.0;
    }
  }

  lemma FadedSign(x: real, factor: real)
    requires factor > 0.0
    ensures (Times(x, factor) > 0.0 <==> x > 0.0) && (Times(x, factor) < 0.0 <==> x < 0.0)
  {
  }

  /**
   With fewer than five fills the cap is the base cap.  With f fills, w of them wins, it is four f
   times the multiplier that equals f and five w where the strategy wins more than three fifths of
   them and makes money, or wins at least a fifth and fewer than two fifths; a quarter below that, and
   the base cap else.
   */
  lemma MultiplierExactly(p: Performance)
    requires Sane(p)
    ensures var (m, f, w) := (MultiplierOf(p), p.fillCount as real, p.winCount as real);
            if p.fillCount < 5 then m == 1.0
            else if p.recentPnL > 0.0 && 5.0 * w > 3.0 * f then 4.0 * Times(m, f) == f + 5.0 * w
            else if 5.0 * w >= 2.0 * f then m == 1.0
            else if 5.0 * w >= f then 4.0 * Times(m, f) == f + 5.0 * w
            else m == 0.25
  {
    if p.fillCount >= FILLS_NEEDED {
      RateInRange(p);
      RateIs(p.winCount as real, p.fillCount as real);
    }
  }

  lemma RateIs(w: real, f: real)
    requires f > 0.0
    ensures var r := w / f;
            && (r > 0.6 <==> 5.0 * w > 3.0 * f) && (r >= 0.4 <==> 5.0 * w >= 2.0 * f) && (r >= 0.2 <==> 5.0 * w >= f)
            && 4.0 * Times(1.0 + (r - 0.6) * 1.25, f) == f + 5.0 * w
            && 4.0 * Times(0.5 + (r - 0.2) * 1.25, f) == f + 5.0 * w
  {
    var r := w / f;
    assert Times(r, f) == w;
    RateOrder(r, 0.6, f);
    RateOrder(r, 0.4, f);
    RateOrder(r, 0.2, f);
    assert Times(0.6, f) == 0.6 * f && Times(0.4, f) == 0.4 * f && Times(0.2, f) == 0.2 * f;
    assert 4.0 * Times(1.0 + (r - 0.6) * 1.25, f) == f + 5.0 * Times(r, f);
    assert 4.0 * Times(0.5 + (r - 0.2) * 1.25, f) == f + 5.0 * Times(r, f);
  }

  lemma RateOrder(r: real, limit: real, f: real)
    requires f > 0.0
    ensures (r > limit <==> Times(r, f) > Times(limit, f)) && (r >= limit <==> Times(r, f) >= Times(limit, f))
  {
    if r > limit {
      assert (r - limit) * f > 0.0;
      assert (r - limit) * f == Times(r, f) - Times(limit, f);
    } else if r < limit {
      assert (limit - r) * f > 0.0;
      assert (limit - r) * f == Times(limit, f) - Times(r, f);
    }
  }

  /** The cap of a strategy: its base cap, or in the cases above that part of it. */
  lemma AdjustedExactly(baseCaps: map<string, real>, performance: map<string, Performance>, strategy: string)
    requires forall s :: s in performance ==> Sane(performance[s])
    ensures var cap := Adjusted(baseCaps, performance, strategy);
            if strategy !in baseCaps then cap == 0.0
            else if strategy !in performance || performance[strategy].fillCount < 5 then cap == baseCaps[strategy]
            else
              var (base, p) := (baseCaps[strategy], performance[strategy]);
              var (f, w) := (p.fillCount as real, p.winCount as real);
              if (p.recentPnL > 0.0 && 5.0 * w > 3.0 * f) || f <= 5.0 * w < 2.0 * f then
                4.0 * Times(cap, f) == Times(base, f + 5.0 * w)
              else if 5.0 * w >= 2.0 * f then cap == base
              else 4.0 * cap == base
  {
    if strategy in baseCaps {
      TimesOnes(baseCaps[strategy]);
      if strategy in performance {
        var (base, p) := (baseCaps[strategy], performance[strategy]);
        var (f, m) := (p.fillCount as real, MultiplierOf(p));
        MultiplierExactly(p);
        assert Times(Times(base, m), f) == Times(base, Times(m, f)) && Times(base, 0.25) * 4.0 == base;
        assert Times(base, 4.0 * Times(m, f)) == 4.0 * Times(base, Times(m, f));
      }
    }
  }

  // ----- What the fills and the decays leave -------------------------------------------------

  function ProfitOf(m: Move): real {
    if m.Fill? then m.pnlUSD else 0.0
  }

  function Fills(moves: seq<Move>): nat {
    if moves == [] then 0 else Fills(moves[..|moves| - 1]) + if moves[|moves| - 1].Fill? then 1 else 0
  }

  function Wins(moves: seq<Move>): nat {
    if moves == [] then 0
    else Wins(moves[..|moves| - 1]) + if ProfitOf(moves[|moves| - 1]) > 0.0 then 1 else 0
  }

  /** What the decays after move k leave of a profit made there. */
  function FactorAfter(moves: seq<Move>, k: nat): real
    requires k < |moves|
    decreases |moves|
  {
    if k == |moves| - 1 then 1.0
    else
      var last := moves[|moves| - 1];
      if last.Decay? then Times(FactorAfter(moves[..|moves| - 1], k), last.factor)
      else FactorAfter(moves[..|moves| - 1], k)
  }

  /** The profits of the first n moves, each as the decays after it leave it. */
  function FadedProfit(moves: seq<Move>, n: nat): real
    requires n <= |moves|
  {
    if n == 0 then 0.0 else FadedProfit(moves, n - 1) + Times(ProfitOf(moves[n - 1]), FactorAfter(moves, n - 1))
  }

  lemma {:induction false} FadedByLast(moves: seq<Move>, n: nat)
    requires moves != [] && n < |moves|
    ensures var (front, last) := (moves[..|moves| - 1], moves[|moves| - 1]);
            FadedProfit(moves, n) == if last.Decay? then Times(FadedProfit(front, n), last.factor)
                                     else FadedProfit(front, n)
  {
    var front, last := moves[..|moves| - 1], moves[|moves| - 1];
    if n == 0 {
      assert last.Decay? ==> Times(0.0, last.factor) == 0.0;
    } else {
      FadedByLast(moves, n - 1);
      if last.Decay? {
        TimesSpreads(FadedProfit(front, n - 1), ProfitOf(front[n - 1]), FactorAfter(front, n - 1), last.factor);
      }
    }
  }

  lemma TimesSpreads(a: real, b: real, c: real, d: real)
    ensures Times(a, d) + Times(b, Times(c, d)) == Times(a + Times(b, c), d)
  {
    assert b * (c * d) == b * c * d;
    assert (a + b * c) * d == a * d + b * c * d;
  }

  /**
   After any fills and decays the total is the sum of the profits, the recent profit that of what the
   later decays leave of each, and the fills and the wins, which are those with a profit, are counted.
   */
  lemma {:induction false} PerformanceIs(moves: seq<Move>)
    ensures var p := After(moves);
            && p.totalPnL == SumBy(ProfitOf, moves) && p.recentPnL == FadedProfit(moves, |moves|)
            && p.fillCount == Fills(moves) && p.winCount == Wins(moves)
  {
    if moves != [] {
      var n := |moves| - 1;
      PerformanceIs(moves[..n]);
      FadedByLast(moves, n);
      TimesOnes(ProfitOf(moves[n]));
    }
  }

  lemma TimesOnes(x: real)
    ensures Times(x, 1.0) == x && Times(0.0, x) == 0.0
  {
  }
}
