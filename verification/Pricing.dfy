/**
 Executable prices: walking an order book for a notional, and the fees on top.
 */
module Pricing {
  import opened Sums
  import opened Statistics

  datatype Level = Level(price: real, size: real)

  /** What the engine reads of a quote.  A quote without an order book has no levels. */
  datatype Quote = Quote(tsMs: int, bestBid: real, bestAsk: real, bids: seq<Level>, asks: seq<Level>,
                         feeBpsTaker: real, lastMsgTsMs: int)

  /**
   Can the walk divide by the price of the level it stops at?  For a positive notional it can, whatever
   the book: a level with a price of zero is worth nothing, so the walk goes on.
   */
  predicate Walkable(levels: seq<Level>, notional: real) {
    notional > 0.0 || forall l :: l in levels ==> l.price != 0.0
  }

  function Above(price: real, bps: real): real {
    price * (1.0 + bps / 10000.0)
  }

  function Below(price: real, bps: real): real {
    price * (1.0 - bps / 10000.0)
  }

  // ----- Walking a book ----------------------------------------------------------------------

  function Notional(l: Level): real {
    l.price * l.size
  }

  function PartOf(l: Level, notional: real): real
    requires l.price != 0.0
  {
    notional / l.price
  }

  /** Money spent, quantity had for it, and money left over. */
  datatype Walk = Walk(cost: real, size: real, remaining: real)

  function WalkBook(levels: seq<Level>, notional: real): Walk
    requires Walkable(levels, notional)
  {
    if levels == [] then Walk(0.0, 0.0, notional)
    else if Notional(levels[0]) >= notional then
      var partial := PartOf(levels[0], notional);
      Walk(partial * levels[0].price, partial, 0.0)
    else
      var rest := WalkBook(levels[1..], notional - Notional(levels[0]));
      Walk(Notional(levels[0]) + rest.cost, levels[0].size + rest.size, rest.remaining)
  }

  function AveragePrice(cost: real, size: real): real
    requires size >= EPSILON
  {
    cost / size
  }

  /** The average price of a walk, or the fallback price when the book is too thin. */
  function Outcome(w: Walk, fallback: real): (real, bool) {
    if w.remaining > 0.0 || w.size < EPSILON then (fallback, false) else (AveragePrice(w.cost, w.size), true)
  }

  function VwapBuy(asks: seq<Level>, notional: real, depthPenaltyBps: real): (real, bool)
    requires asks != [] && Walkable(asks, notional)
  {
    Outcome(WalkBook(asks, notional), Above(asks[|asks| - 1].price, depthPenaltyBps))
  }

  function VwapSell(bids: seq<Level>, notional: real, depthPenaltyBps: real): (real, bool)
    requires bids != [] && Walkable(bids, notional)
  {
    Outcome(WalkBook(bids, notional), Below(bids[|bids| - 1].price, depthPenaltyBps))
  }

  /** The loop that vwapBuy and vwapSell share. */
  method Fill(levels: seq<Level>, notional: real) returns (cost: real, size: real, remaining: real)
    requires Walkable(levels, notional)
    ensures Walk(cost, size, remaining) == WalkBook(levels, notional)
  {
    cost, size, remaining := 0.0, 0.0, notional;
    var i := 0;
    while i < |levels|
      invariant i <= |levels| && (notional > 0.0 ==> remaining > 0.0) && Walkable(levels[i..], remaining)
      invariant var rest := WalkBook(levels[i..], remaining);
                WalkBook(levels, notional) == Walk(cost + rest.cost, size + rest.size, rest.remaining)
    {
      var level := levels[i];
      var levelNotional := Notional(level);
      assert level.price == 0.0 ==> levelNotional == 0.0;
      if levelNotional >= remaining {
        var partial := PartOf(level, remaining);
        cost := cost + partial * level.price;
        size := size + partial;
        remaining := 0.0;
        return;
      }
      cost := cost + levelNotional;
      size := size + level.size;
      remaining := remaining - levelNotional;
      i := i + 1;
    }
  }

  method ComputeVwapBuy(asks: seq<Level>, notional: real, depthPenaltyBps: real) returns (price: real, ok: bool)
    requires asks != [] && Walkable(asks, notional)
    ensures (price, ok) == VwapBuy(asks, notional, depthPenaltyBps)
  {
    var totalCost, totalSize, remaining := Fill(asks, notional);
    assert WalkBook(asks, notional).cost == totalCost && WalkBook(asks, notional).size == totalSize;
    if remaining > 0.0 || totalSize < EPSILON {
      var lastAsk := asks[|asks| - 1].price;
      return Above(lastAsk, depthPenaltyBps), false;
    }
    return AveragePrice(totalCost, totalSize), true;
  }

  method ComputeVwapSell(bids: seq<Level>, notional: real, depthPenaltyBps: real) returns (price: real, ok: bool)
    requires bids != [] && Walkable(bids, notional)
    ensures (price, ok) == VwapSell(bids, notional, depthPenaltyBps)
  {
    var totalProceeds, totalSize, remaining := Fill(bids, notional);
    assert WalkBook(bids, notional).cost == totalProceeds && WalkBook(bids, notional).size == totalSize;
    if remaining > 0.0 || totalSize < EPSILON {
      var lastBid := bids[|bids| - 1].price;
      return Below(lastBid, depthPenaltyBps), false;
    }
    return AveragePrice(totalProceeds, totalSize), true;
  }

  // ----- What a walk fills -------------------------------------------------------------------

  /** Buying walks up the asks, selling down the bids. */
  datatype Side = Buying | Selling

  /** x is no worse a price than y for a trader on this side. */
  predicate NoWorse(side: Side, x: real, y: real) {
    match side
    case Buying => x <= y
    case Selling => x >= y
  }

  predicate AllPositive(levels: seq<Level>) {
    forall l :: l in levels ==> l.price > 0.0 && l.size > 0.0
  }

  /** Positive levels, each no better than the one before. */
  predicate Book(side: Side, levels: seq<Level>) {
    && AllPositive(levels)
    && (forall i, j :: 0 <= i < j < |levels| ==> NoWorse(side, levels[i].price, levels[j].price))
  }

  predicate AllNoBetter(side: Side, p: real, levels: seq<Level>) {
    forall l :: l in levels ==> NoWorse(side, p, l.price)
  }

  /** A walk that ends at a level it can stop at. */
  predicate Complete(levels: seq<Level>, notional: real) {
    levels != [] && (Notional(levels[0]) >= notional || Complete(levels[1..], notional - Notional(levels[0])))
  }

  lemma PartCost(l: Level, notional: real)
    requires l.price != 0.0
    ensures PartOf(l, notional) * l.price == notional
  {
  }

  /** Everything is either spent or left over, and a complete walk leaves nothing over. */
  lemma {:induction false} WalkSpends(levels: seq<Level>, notional: real)
    requires Walkable(levels, notional)
    ensures var w := WalkBook(levels, notional);
            && w.cost + w.remaining == notional
            && (Complete(levels, notional) ==> w.remaining == 0.0)
            && (!Complete(levels, notional) && notional > 0.0 ==> w.remaining > 0.0)
  {
    if levels != [] {
      if Notional(levels[0]) >= notional {
        PartCost(levels[0], notional);
      } else {
        WalkSpends(levels[1..], notional - Notional(levels[0]));
      }
    }
  }

  /** A smaller notional is filled where a greater one is. */
  lemma {:induction false} CompleteLess(levels: seq<Level>, n: real, m: real)
    requires n <= m && Complete(levels, m)
    ensures Complete(levels, n)
  {
    if Notional(levels[0]) < n {
      CompleteLess(levels[1..], n - Notional(levels[0]), m - Notional(levels[0]));
    }
  }

  /** What a walk buys. */
  function Size(levels: seq<Level>, notional: real): real
    requires Walkable(levels, notional)
  {
    WalkBook(levels, notional).size
  }

  /** What a size is worth at a price. */
  function Worth(price: real, size: real): real {
    price * size
  }

  lemma WorthAdds(p: real, x: real, y: real)
    ensures Worth(p, x + y) == Worth(p, x) + Worth(p, y)
  {
  }

  /** A size is worth no less at a worse price when buying, no more when selling. */
  lemma WorthOrders(side: Side, p: real, q: real, x: real)
    requires x >= 0.0 && NoWorse(side, p, q)
    ensures NoWorse(side, Worth(p, x), Worth(q, x))
  {
    match side
    case Buying => MulMonotone(p, q, x);
    case Selling => MulMonotone(q, p, x);
  }

  lemma PartWorth(l: Level, notional: real)
    requires l.price > 0.0
    ensures Worth(l.price, PartOf(l, notional)) == notional
    ensures notional >= 0.0 ==> PartOf(l, notional) >= 0.0
  {
  }

  lemma PartDifference(l: Level, n: real, m: real)
    requires l.price > 0.0
    ensures PartOf(l, m) - PartOf(l, n) == PartOf(l, m - n)
  {
  }

  lemma PartWhole(l: Level)
    requires l.price > 0.0
    ensures PartOf(l, Notional(l)) == l.size
    ensures Worth(l.price, l.size) == Notional(l)
  {
  }

  /** At a price p better than the whole book, what a walk buys is worth no more (selling: no less) than was spent. */
  lemma {:induction false} SizeBound(side: Side, levels: seq<Level>, n: real, p: real)
    requires AllPositive(levels) && AllNoBetter(side, p, levels)
    requires n >= 0.0 && Complete(levels, n)
    ensures NoWorse(side, Worth(p, Size(levels, n)), n) && Size(levels, n) >= 0.0
  {
    var l := levels[0];
    if Notional(l) >= n {
      PartWorth(l, n);
      WorthOrders(side, p, l.price, PartOf(l, n));
    } else {
      var x := Size(levels[1..], n - Notional(l));
      SizeBound(side, levels[1..], n - Notional(l), p);
      PartWhole(l);
      WorthOrders(side, p, l.price, l.size);
      WorthAdds(p, l.size, x);
    }
  }

  /** The same of the part of a walk between two notionals, where it starts within the first level. */
  lemma MarginAcross(side: Side, levels: seq<Level>, n: real, m: real, p: real)
    requires AllPositive(levels) && AllNoBetter(side, p, levels)
    requires 0.0 <= n <= m && levels != [] && n <= Notional(levels[0]) < m
    requires Complete(levels[1..], m - Notional(levels[0]))
    ensures NoWorse(side, Worth(p, Size(levels, m) - Size(levels, n)), m - n)
  {
    var l := levels[0];
    var k := Notional(l);
    var x, y := PartOf(l, k - n), Size(levels[1..], m - k);
    PartWorth(l, k - n);
    WorthOrders(side, p, l.price, x);
    PartDifference(l, n, k);
    PartWhole(l);
    SizeBound(side, levels[1..], m - k, p);
    assert Size(levels, m) - Size(levels, n) == x + y;
    WorthAdds(p, x, y);
  }

  /** The same of the part of a walk between two notionals. */
  lemma {:induction false} MarginBound(side: Side, levels: seq<Level>, n: real, m: real, p: real)
    requires AllPositive(levels) && AllNoBetter(side, p, levels)
    requires 0.0 <= n <= m && Complete(levels, n) && Complete(levels, m)
    ensures NoWorse(side, Worth(p, Size(levels, m) - Size(levels, n)), m - n)
    decreases levels
  {
    var l := levels[0];
    var k := Notional(l);
    if k >= m {
      PartWorth(l, m - n);
      WorthOrders(side, p, l.price, PartOf(l, m - n));
      PartDifference(l, n, m);
    } else if k >= n {
      MarginAcross(side, levels, n, m, p);
    } else {
      MarginBound(side, levels[1..], n - k, m - k, p);
      assert Size(levels, m) - Size(levels, n) == Size(levels[1..], m - k) - Size(levels[1..], n - k);
    }
  }

  /** The arithmetic of a level that both walks consume. */
  lemma Cross(side: Side, p: real, s: real, n: real, m: real, x: real, y: real)
    requires s >= 0.0 && NoWorse(side, Worth(p, y - x), m - n) && NoWorse(side, Worth(n, y), Worth(m, x))
    ensures NoWorse(side, Worth(Worth(p, s) + n, s + y), Worth(Worth(p, s) + m, s + x))
  {
    assert Worth(Worth(p, s) + n, s + y) - Worth(Worth(p, s) + m, s + x)
        == s * (p * (y - x) - (m - n)) + (n * y - m * x);
    match side
    case Buying => MulNonnegative(s, (m - n) - Worth(p, y - x));
    case Selling => MulNonnegative(s, Worth(p, y - x) - (m - n));
  }

  /** The arithmetic of a level that only the smaller walk stops at. */
  lemma AtPrice(side: Side, p: real, x: real, y: real, m: real)
    requires x >= 0.0 && NoWorse(side, Worth(p, y), m)
    ensures NoWorse(side, Worth(Worth(p, x), y), Worth(m, x))
  {
    WorthOrders(side, Worth(p, y), m, x);
    assert Worth(Worth(p, x), y) == Worth(Worth(p, y), x);
  }

  /** The average price worsens with the notional. */
  lemma {:induction false} AverageWorsens(side: Side, levels: seq<Level>, n: real, m: real)
    requires Book(side, levels) && 0.0 <= n <= m && Complete(levels, n) && Complete(levels, m)
    ensures NoWorse(side, Worth(n, Size(levels, m)), Worth(m, Size(levels, n)))
    decreases levels
  {
    var l := levels[0];
    var k := Notional(l);
    if k >= n {
      PartWorth(l, n);
      SizeBound(side, levels, m, l.price);
      AtPrice(side, l.price, PartOf(l, n), Size(levels, m), m);
    } else {
      var x, y := Size(levels[1..], n - k), Size(levels[1..], m - k);
      AverageWorsens(side, levels[1..], n - k, m - k);
      MarginBound(side, levels[1..], n - k, m - k, l.price);
      PartWhole(l);
      Cross(side, l.price, l.size, n - k, m - k, x, y);
      assert Size(levels, n) == l.size + x && Size(levels, m) == l.size + y;
    }
  }

  // ----- Price against notional --------------------------------------------------------------

  lemma AverageWorth(n: real, x: real)
    requires x >= EPSILON
    ensures Worth(AveragePrice(n, x), x) == n
  {
  }

  lemma Cancel(side: Side, u: real, v: real, x: real)
    requires x > 0.0 && NoWorse(side, Worth(u, x), Worth(v, x))
    ensures NoWorse(side, u, v)
  {
    assert Worth(u, x) - Worth(v, x) == (u - v) * x;
    assert u > v ==> (u - v) * x > 0.0;
    assert u < v ==> (v - u) * x > 0.0;
  }

  lemma DivideAverages(side: Side, n: real, m: real, x: real, y: real)
    requires x >= EPSILON && y >= EPSILON && NoWorse(side, Worth(n, y), Worth(m, x))
    ensures NoWorse(side, AveragePrice(n, x), AveragePrice(m, y))
  {
    var u, v := AveragePrice(n, x), AveragePrice(m, y);
    AverageWorth(n, x);
    AverageWorth(m, y);
    assert Worth(n, y) == Worth(u, x * y);
    assert Worth(m, x) == Worth(v, x * y);
    Cancel(side, u, v, x * y);
  }

  lemma {:induction false} WorstBound(side: Side, levels: seq<Level>, n: real)
    requires Book(side, levels) && n >= 0.0 && Complete(levels, n)
    ensures NoWorse(side, n, Worth(levels[|levels| - 1].price, Size(levels, n)))
  {
    var l := levels[0];
    var p := levels[|levels| - 1].price;
    assert |levels| > 1 ==> NoWorse(side, l.price, p);
    if Notional(l) >= n {
      PartWorth(l, n);
      WorthOrders(side, l.price, p, PartOf(l, n));
    } else {
      var rest := levels[1..];
      WorstBound(side, rest, n - Notional(l));
      assert rest[|rest| - 1] == levels[|levels| - 1];
      PartWhole(l);
      WorthOrders(side, l.price, p, l.size);
      WorthAdds(p, l.size, Size(rest, n - Notional(l)));
    }
  }

  /** A complete fill's average price is no better than any price that no level of the book beats. */
  lemma AverageNoBetter(side: Side, levels: seq<Level>, n: real, p: real)
    requires AllPositive(levels) && n >= 0.0 && Complete(levels, n) && Size(levels, n) >= EPSILON
    requires AllNoBetter(side, p, levels)
    ensures NoWorse(side, p, AveragePrice(n, Size(levels, n)))
  {
    var x := Size(levels, n);
    AverageWorth(n, x);
    SizeBound(side, levels, n, p);
    Cancel(side, p, AveragePrice(n, x), x);
  }

  /** And, where the book is sorted, no worse than that of its last level. */
  lemma AverageWithin(side: Side, levels: seq<Level>, n: real, p: real)
    requires Book(side, levels) && n >= 0.0 && Complete(levels, n) && Size(levels, n) >= EPSILON
    requires AllNoBetter(side, p, levels)
    ensures NoWorse(side, p, AveragePrice(n, Size(levels, n)))
    ensures NoWorse(side, AveragePrice(n, Size(levels, n)), levels[|levels| - 1].price)
  {
    var x := Size(levels, n);
    AverageNoBetter(side, levels, n, p);
    AverageWorth(n, x);
    WorstBound(side, levels, n);
    Cancel(side, AveragePrice(n, x), levels[|levels| - 1].price, x);
  }

  lemma AboveBelow(price: real, bps: real)
    requires price >= 0.0 && bps >= 0.0
    ensures Below(price, bps) <= price <= Above(price, bps)
  {
    MulNonnegative(price, bps / 10000.0);
  }

  /** The price quoted on either side of a book. */
  function Vwap(side: Side, levels: seq<Level>, notional: real, depthPenaltyBps: real): (real, bool)
    requires levels != [] && Walkable(levels, notional)
  {
    match side
    case Buying => VwapBuy(levels, notional, depthPenaltyBps)
    case Selling => VwapSell(levels, notional, depthPenaltyBps)
  }

  lemma PenaltyIsWorse(side: Side, levels: seq<Level>, n: real, penalty: real)
    requires AllPositive(levels) && levels != [] && penalty >= 0.0
    requires !Vwap(side, levels, n, penalty).1
    ensures NoWorse(side, levels[|levels| - 1].price, Vwap(side, levels, n, penalty).0)
  {
    AboveBelow(levels[|levels| - 1].price, penalty);
  }

  /** A fill is quoted as complete exactly when the book has the depth and the notional is more than dust. */
  lemma QuotedComplete(side: Side, levels: seq<Level>, n: real, penalty: real)
    requires AllPositive(levels) && levels != [] && n > 0.0
    ensures Vwap(side, levels, n, penalty).1 <==> Complete(levels, n) && Size(levels, n) >= EPSILON
    ensures Vwap(side, levels, n, penalty).1 ==>
              Vwap(side, levels, n, penalty).0 == AveragePrice(n, Size(levels, n)) && WalkBook(levels, n).cost == n
  {
    WalkSpends(levels, n);
  }

  /**
   The more is bought the higher the price quoted, the more is sold the lower, from any notional
   that buys more than dust, up to and beyond the depth of the book.
   */
  lemma VwapMonotone(side: Side, levels: seq<Level>, n: real, m: real, penalty: real)
    requires Book(side, levels) && levels != [] && penalty >= 0.0
    requires 0.0 < n <= m && Size(levels, n) >= EPSILON
    ensures NoWorse(side, Vwap(side, levels, n, penalty).0, Vwap(side, levels, m, penalty).0)
  {
    QuotedComplete(side, levels, n, penalty);
    QuotedComplete(side, levels, m, penalty);
    if Complete(levels, m) {
      CompleteLess(levels, n, m);
      MarginBound(side, levels, n, m, levels[0].price);
      SizeGrows(side, levels, n, m);
      AverageWorsens(side, levels, n, m);
      DivideAverages(side, n, m, Size(levels, n), Size(levels, m));
    } else if Complete(levels, n) {
      AverageWithin(side, levels, n, levels[0].price);
      PenaltyIsWorse(side, levels, m, penalty);
    }
  }

  lemma {:induction false} SizeGrows(side: Side, levels: seq<Level>, n: real, m: real)
    requires Book(side, levels) && 0.0 <= n <= m && Complete(levels, n) && Complete(levels, m)
    ensures Size(levels, n) <= Size(levels, m)
    decreases levels
  {
    var l := levels[0];
    var k := Notional(l);
    if k >= m {
      PartDifference(l, n, m);
      PartWorth(l, m - n);
    } else if k >= n {
      PartDifference(l, n, k);
      PartWorth(l, k - n);
      PartWhole(l);
      SizeBound(side, levels[1..], m - k, levels[1].price);
    } else {
      SizeGrows(side, levels[1..], n - k, m - k);
    }
  }

  lemma PenaltyIsStrictlyWorse(side: Side, levels: seq<Level>, n: real, penalty: real)
    requires AllPositive(levels) && levels != [] && penalty > 0.0
    requires !Vwap(side, levels, n, penalty).1
    ensures !NoWorse(side, Vwap(side, levels, n, penalty).0, levels[|levels| - 1].price)
  {
    assert levels[|levels| - 1].price * (penalty / 10000.0) > 0.0;
  }

  /**
   With a penalty the price quoted worsens from one notional to a greater one exactly when the lesser
   buys more than dust or the greater is not filled: dust is quoted the penalty price, which is worse
   than any fill.
   */
  lemma WorsensUnlessDust(side: Side, levels: seq<Level>, n: real, m: real, penalty: real)
    requires Book(side, levels) && levels != [] && penalty > 0.0 && 0.0 < n <= m
    ensures NoWorse(side, Vwap(side, levels, n, penalty).0, Vwap(side, levels, m, penalty).0)
       <==> Size(levels, n) >= EPSILON || !Vwap(side, levels, m, penalty).1
  {
    QuotedComplete(side, levels, n, penalty);
    QuotedComplete(side, levels, m, penalty);
    if Size(levels, n) >= EPSILON {
      VwapMonotone(side, levels, n, m, penalty);
    } else if Vwap(side, levels, m, penalty).1 {
      AverageWithin(side, levels, m, levels[0].price);
      PenaltyIsStrictlyWorse(side, levels, n, penalty);
    }
  }

  /** A quoted price never beats a price the whole book does not beat. */
  lemma VwapNoBetter(side: Side, levels: seq<Level>, n: real, penalty: real, p: real)
    requires AllPositive(levels) && levels != [] && penalty >= 0.0 && AllNoBetter(side, p, levels)
    ensures NoWorse(side, p, Vwap(side, levels, n, penalty).0)
  {
    if Vwap(side, levels, n, penalty).1 {
      WalkSpends(levels, n);
      if n > 0.0 {
        QuotedComplete(side, levels, n, penalty);
        AverageNoBetter(side, levels, n, p);
      } else {
        PartWorth(levels[0], -n);
        PartDifference(levels[0], n, 0.0);
      }
    } else {
      PenaltyIsWorse(side, levels, n, penalty);
    }
  }

  // ----- What a walk buys, level by level ----------------------------------------------------

  /** What the first k levels are worth. */
  function Worths(levels: seq<Level>, k: nat): real
    requires k <= |levels|
  {
    if k == 0 then 0.0 else Worths(levels, k - 1) + Notional(levels[k - 1])
  }

  /** What is spent at level k: what the levels before it leave of the notional, up to what it is worth. */
  function SpentAt(levels: seq<Level>, n: real, k: nat): real
    requires k < |levels|
  {
    Max(0.0, Min(Notional(levels[k]), n - Worths(levels, k)))
  }

  /** What the first k levels give for it. */
  function Bought(levels: seq<Level>, n: real, k: nat): real
    requires k <= |levels| && AllPositive(levels)
  {
    if k == 0 then 0.0 else Bought(levels, n, k - 1) + SpentAt(levels, n, k - 1) / levels[k - 1].price
  }

  lemma LevelWorth(levels: seq<Level>, k: nat)
    requires k < |levels| && AllPositive(levels)
    ensures Notional(levels[k]) > 0.0 && Notional(levels[k]) / levels[k].price == levels[k].size
  {
    assert levels[k] in levels;
    PartWhole(levels[k]);
  }

  lemma {:induction false} NoMoreBought(levels: seq<Level>, n: real, i: nat, k: nat)
    requires i <= k <= |levels| && AllPositive(levels) && n <= Worths(levels, i)
    ensures Bought(levels, n, k) == Bought(levels, n, i) && Worths(levels, k) >= n
  {
    if i < k {
      NoMoreBought(levels, n, i, k - 1);
      LevelWorth(levels, k - 1);
      assert SpentAt(levels, n, k - 1) == 0.0;
      assert 0.0 / levels[k - 1].price == 0.0;
    }
  }

  lemma {:induction false} WalkFrom(levels: seq<Level>, n: real, i: nat)
    requires i <= |levels| && AllPositive(levels) && n > Worths(levels, i)
    ensures var w := WalkBook(levels[i..], n - Worths(levels, i));
            && w.size == Bought(levels, n, |levels|) - Bought(levels, n, i)
            && w.remaining == Max(0.0, n - Worths(levels, |levels|))
    decreases |levels| - i
  {
    if i < |levels| {
      LevelWorth(levels, i);
      assert levels[i..][0] == levels[i] && levels[i..][1..] == levels[i + 1..];
      if Notional(levels[i]) >= n - Worths(levels, i) {
        NoMoreBought(levels, n, i + 1, |levels|);
      } else {
        WalkFrom(levels, n, i + 1);
      }
    }
  }

  /** A walk of a positive notional buys, level by level, what is spent there, and leaves what exceeds the book. */
  lemma BookWalked(levels: seq<Level>, n: real)
    requires AllPositive(levels) && n > 0.0
    ensures WalkBook(levels, n).size == Bought(levels, n, |levels|)
    ensures WalkBook(levels, n).remaining == Max(0.0, n - Worths(levels, |levels|))
  {
    assert levels[0..] == levels;
    WalkFrom(levels, n, 0);
  }

  lemma PenaltyTimes(price: real, bps: real)
    ensures 10000.0 * Above(price, bps) == Times(price, 10000.0 + bps)
    ensures 10000.0 * Below(price, bps) == Times(price, 10000.0 - bps)
  {
    assert price * (1.0 + bps / 10000.0) == price + price * bps / 10000.0;
    assert price * (1.0 - bps / 10000.0) == price - price * bps / 10000.0;
  }

  lemma AverageTimes(cost: real, size: real)
    requires size >= EPSILON
    ensures Times(AveragePrice(cost, size), size) == cost
  {
  }

  /**
   The price quoted for a positive notional: the average of what is bought, if the book is worth the
   notional and gives more than dust for it; else the last level's price, worse by the penalty.
   */
  lemma QuoteIs(side: Side, levels: seq<Level>, n: real, penalty: real)
    requires AllPositive(levels) && levels != [] && n > 0.0
    ensures var ((price, ok), bought) := (Vwap(side, levels, n, penalty), Bought(levels, n, |levels|));
            var last := levels[|levels| - 1].price;
            && (ok <==> Worths(levels, |levels|) >= n && bought >= 0.0000000001)
            && (ok ==> Times(price, bought) == n)
            && (!ok ==> 10000.0 * price ==
                        Times(last, if side == Buying then 10000.0 + penalty else 10000.0 - penalty))
  {
    BookWalked(levels, n);
    WalkSpends(levels, n);
    var w := WalkBook(levels, n);
    if w.remaining <= 0.0 && w.size >= EPSILON {
      AverageTimes(w.cost, w.size);
    }
    PenaltyTimes(levels[|levels| - 1].price, penalty);
  }

  // ----- Executable prices and fees ----------------------------------------------------------

  function Mid(q: Quote): real {
    (q.bestBid + q.bestAsk) / 2.0
  }

  predicate WalkableQuote(q: Quote, notional: real) {
    Walkable(q.asks, notional) && Walkable(q.bids, notional)
  }

  function Buffer(q: Quote, slippageBps: real): real {
    Max(SpreadBps(q.bestBid, q.bestAsk) * 0.5, slippageBps)
  }

  function ExecutableBuy(q: Quote, notional: real, slippageBps: real, depthPenaltyBps: real): (real, bool)
    requires WalkableQuote(q, notional)
  {
    if q.asks != [] then VwapBuy(q.asks, notional, depthPenaltyBps)
    else (Above(q.bestAsk, Buffer(q, slippageBps)), true)
  }

  function ExecutableSell(q: Quote, notional: real, slippageBps: real, depthPenaltyBps: real): (real, bool)
    requires WalkableQuote(q, notional)
  {
    if q.bids != [] then VwapSell(q.bids, notional, depthPenaltyBps)
    else (Below(q.bestBid, Buffer(q, slippageBps)), true)
  }

  /** The best bid is at most the best ask, and every level is positive and on its own side of mid, in any order. */
  predicate Uncrossed(q: Quote) {
    && 0.0 <= q.bestBid <= q.bestAsk
    && AllPositive(q.asks) && AllNoBetter(Buying, Mid(q), q.asks)
    && AllPositive(q.bids) && AllNoBetter(Selling, Mid(q), q.bids)
  }

  lemma BuyAboveMid(q: Quote, notional: real, slippageBps: real, depthPenaltyBps: real)
    requires Uncrossed(q)
    requires q.feeBpsTaker >= 0.0 && slippageBps >= 0.0 && depthPenaltyBps >= 0.0
    ensures Mid(q) <= Above(ExecutableBuy(q, notional, slippageBps, depthPenaltyBps).0, q.feeBpsTaker)
  {
    if q.asks != [] {
      VwapNoBetter(Buying, q.asks, notional, depthPenaltyBps, Mid(q));
    } else {
      AboveBelow(q.bestAsk, Buffer(q, slippageBps));
    }
    AboveBelow(ExecutableBuy(q, notional, slippageBps, depthPenaltyBps).0, q.feeBpsTaker);
  }

  lemma FeesKeepBelow(sell: real, mid: real, fee: real)
    requires sell <= mid && mid >= 0.0 && 0.0 <= fee <= 10000.0
    ensures Below(sell, fee) <= mid
  {
    if sell >= 0.0 {
      AboveBelow(sell, fee);
    } else {
      MulNonnegative(-sell, 1.0 - fee / 10000.0);
    }
  }

  lemma SellBelowMid(q: Quote, notional: real, slippageBps: real, depthPenaltyBps: real)
    requires Uncrossed(q)
    requires 0.0 <= q.feeBpsTaker <= 10000.0 && slippageBps >= 0.0 && depthPenaltyBps >= 0.0
    ensures Below(ExecutableSell(q, notional, slippageBps, depthPenaltyBps).0, q.feeBpsTaker) <= Mid(q)
  {
    if q.bids != [] {
      VwapNoBetter(Selling, q.bids, notional, depthPenaltyBps, Mid(q));
    } else {
      AboveBelow(q.bestBid, Buffer(q, slippageBps));
    }
    FeesKeepBelow(ExecutableSell(q, notional, slippageBps, depthPenaltyBps).0, Mid(q), q.feeBpsTaker);
  }
}
