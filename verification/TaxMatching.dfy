/**
 HMRC share matching for spot disposals of one symbol.

 The functions below describe the three passes over a shared `remaining` array and the Section 104
 pool as folds, one loop iteration at a time; the methods at the end are the passes themselves,
 working in place, and are proved equal to those folds.  What the rules promise is proved about the
 folds in TaxAllocation, TaxConservation, TaxPriority, TaxPeriods and TaxCover.
 */
module TaxMatching {
  import opened Sorting
  import opened Sums

  /** A trade whose action is neither string takes part in no pass. */
  datatype Action = BUY | SELL | OTHER

  datatype Market = SPOT | PERP

  /** `timestamp` counts milliseconds. */
  datatype Trade = Trade(id: string, timestamp: int, symbol: string, market: Market, action: Action,
                         quantity: real, notionalGBP: real, feesGBP: real)

  datatype Rule = SameDay | ThirtyDay | Section104

  /** The trade matched is named by its position in time order; NO_TRADE for the pool. */
  datatype MatchResult = MatchResult(quantity: real, costGBP: real, rule: Rule, acquisition: int)

  datatype MatchType = Unmatched | By(rule: Rule)

  datatype Disposal = Disposal(date: int, symbol: string, quantity: real, proceedsGBP: real,
                               costGBP: real, gainGBP: real, matchType: MatchType,
                               matchedWith: seq<string>)

  /** The value of a Section 104 pool. */
  datatype Pool = Pool(quantity: real, cost: real) {
    /** The weighted-average cost of a unit, or zero if the pool is empty. */
    function CostPerUnit(): real {
      if quantity <= 0.0 then 0.0 else cost / quantity
    }
  }

  /** What the passes share: the quantity left of each trade, and the matches of each disposal. */
  datatype Book = Book(remaining: seq<real>, matches: seq<seq<MatchResult>>)

  const MS_PER_DAY := 86_400_000
  const NO_TRADE := -1

  function TruncateDay(timestamp: int): int {
    timestamp / MS_PER_DAY
  }

  function AcqCostPerUnit(t: Trade): real {
    if t.quantity <= 0.0 then 0.0 else (t.notionalGBP + t.feesGBP) / t.quantity
  }

  /** May `sell` be matched with `buy` under the rule?  The pool names no acquisition. */
  predicate Eligible(rule: Rule, sell: Trade, buy: Trade) {
    var disposed := TruncateDay(sell.timestamp);
    var acquired := TruncateDay(buy.timestamp);
    match rule
    case SameDay => acquired == disposed
    case ThirtyDay => disposed < acquired <= disposed + 30
    case Section104 => false
  }

  predicate Fits(ts: seq<Trade>, b: Book) {
    |b.remaining| == |ts| && |b.matches| == |ts|
  }

  // ----- Phases 1 and 2 ----------------------------------------------------------------------

  /** Does disposal i still want something that acquisition j still has? */
  predicate Matches(ts: seq<Trade>, rule: Rule, b: Book, i: nat, j: nat)
    requires Fits(ts, b) && i < |ts| && j < |ts|
  {
    && b.remaining[i] > 0.0
    && ts[j].action == BUY
    && b.remaining[j] > 0.0
    && Eligible(rule, ts[i], ts[j])
  }

  /** `q` units matched with acquisition `t`, found at position k. */
  function Purchased(rule: Rule, t: Trade, q: real, k: int): MatchResult {
    MatchResult(q, q * AcqCostPerUnit(t), rule, k)
  }

  /** Match `q` units of disposal i with acquisition j. */
  function Transfer(ts: seq<Trade>, rule: Rule, b: Book, i: nat, j: nat, q: real): (r: Book)
    requires Fits(ts, b) && i < |ts| && j < |ts| && i != j
    ensures Fits(ts, r)
  {
    Book(b.remaining[i := b.remaining[i] - q][j := b.remaining[j] - q],
         b.matches[i := b.matches[i] + [Purchased(rule, ts[j], q, j)]])
  }

  /** One iteration of the inner loop. */
  function Attempt(ts: seq<Trade>, rule: Rule, b: Book, i: nat, j: nat): (r: Book)
    requires Fits(ts, b) && i < |ts| && j < |ts| && ts[i].action == SELL
    ensures Fits(ts, r)
  {
    if Matches(ts, rule, b, i, j)
    then Transfer(ts, rule, b, i, j, Min(b.remaining[i], b.remaining[j]))
    else b
  }

  /** The first n iterations of the inner loop. */
  function Scan(ts: seq<Trade>, rule: Rule, b: Book, i: nat, n: nat): (r: Book)
    requires Fits(ts, b) && i < |ts| && n <= |ts| && ts[i].action == SELL
    ensures Fits(ts, r)
  {
    if n == 0 then b else Attempt(ts, rule, Scan(ts, rule, b, i, n - 1), i, n - 1)
  }

  /** The outer loop over the disposals among the first n trades. */
  function Pass(ts: seq<Trade>, rule: Rule, b: Book, n: nat): (r: Book)
    requires Fits(ts, b) && n <= |ts|
    ensures Fits(ts, r)
  {
    if n == 0 then b
    else
      var before := Pass(ts, rule, b, n - 1);
      if ts[n - 1].action == SELL then Scan(ts, rule, before, n - 1, |ts|) else before
  }

  // ----- Phase 3 -----------------------------------------------------------------------------

  /** The pool once `q` units of purchase `t` are in it. */
  function Topped(p: Pool, t: Trade, q: real): Pool {
    Pool(p.quantity + q, p.cost + q * AcqCostPerUnit(t))
  }

  /** `q` units matched with the pool. */
  function Drawn(p: Pool, q: real): MatchResult {
    MatchResult(q, q * p.CostPerUnit(), Section104, NO_TRADE)
  }

  /** Draw what the pool can give to disposal i, at the pool's average cost. */
  function Draw(ts: seq<Trade>, b: Book, p: Pool, i: nat): (r: (Book, Pool))
    requires Fits(ts, b) && i < |ts|
    ensures Fits(ts, r.0)
  {
    var q := Min(b.remaining[i], p.quantity);
    var m := Drawn(p, q);
    (Book(b.remaining[i := b.remaining[i] - q], b.matches[i := b.matches[i] + [m]]),
     Pool(p.quantity - q, p.cost - m.costGBP))
  }

  /** One iteration of the chronological pool loop. */
  function PoolStep(ts: seq<Trade>, b: Book, p: Pool, i: nat): (r: (Book, Pool))
    requires Fits(ts, b) && i < |ts|
    ensures Fits(ts, r.0)
  {
    if b.remaining[i] <= 0.0 then (b, p)
    else if ts[i].action == BUY then
      (b.(remaining := b.remaining[i := 0.0]), Topped(p, ts[i], b.remaining[i]))
    else if ts[i].action == SELL && p.quantity > 0.0 then Draw(ts, b, p, i)
    else (b, p)
  }

  function PoolPass(ts: seq<Trade>, b: Book, p: Pool, n: nat): (r: (Book, Pool))
    requires Fits(ts, b) && n <= |ts|
    ensures Fits(ts, r.0)
  {
    if n == 0 then (b, p)
    else
      var (b', p') := PoolPass(ts, b, p, n - 1);
      PoolStep(ts, b', p', n - 1)
  }

  // ----- All three phases --------------------------------------------------------------------

  function Opening(ts: seq<Trade>): (b: Book)
    ensures Fits(ts, b)
  {
    Book(seq(|ts|, k requires 0 <= k < |ts| => ts[k].quantity), seq(|ts|, k => []))
  }

  function AfterSameDay(ts: seq<Trade>): (b: Book)
    ensures Fits(ts, b)
  {
    Pass(ts, SameDay, Opening(ts), |ts|)
  }

  function AfterThirtyDay(ts: seq<Trade>): (b: Book)
    ensures Fits(ts, b)
  {
    Pass(ts, ThirtyDay, AfterSameDay(ts), |ts|)
  }

  /** The whole matching of trades in time order, from a pool. */
  function Matched(ts: seq<Trade>, p: Pool): (r: (Book, Pool))
    ensures Fits(ts, r.0)
  {
    PoolPass(ts, AfterThirtyDay(ts), p, |ts|)
  }

  // ----- Results -----------------------------------------------------------------------------

  function ResultQuantity(m: MatchResult): real {
    m.quantity
  }

  function ResultCost(m: MatchResult): real {
    m.costGBP
  }

  function MatchedIDs(ts: seq<Trade>, ms: seq<MatchResult>): seq<string> {
    if ms == [] then []
    else
      var m := ms[|ms| - 1];
      var before := MatchedIDs(ts, ms[..|ms| - 1]);
      if 0 <= m.acquisition < |ts| && ts[m.acquisition].id != "" then before + [ts[m.acquisition].id] else before
  }

  function BuildDisposal(ts: seq<Trade>, d: Trade, ms: seq<MatchResult>): Disposal {
    var cost := SumBy(ResultCost, ms);
    var quantity := SumBy(ResultQuantity, ms);
    var proceeds := if d.quantity > 0.0 && quantity > 0.0
                    then quantity / d.quantity * (d.notionalGBP - d.feesGBP) else 0.0;
    Disposal(d.timestamp, d.symbol, quantity, proceeds, cost, proceeds - cost,
             if ms == [] then Unmatched else By(ms[0].rule), MatchedIDs(ts, ms))
  }

  /** One result for each SELL among the first n trades, in time order. */
  function Results(ts: seq<Trade>, matches: seq<seq<MatchResult>>, n: nat): (ds: seq<Disposal>)
    requires |matches| == |ts| && n <= |ts|
  {
    if n == 0 then []
    else
      var before := Results(ts, matches, n - 1);
      if ts[n - 1].action == SELL then before + [BuildDisposal(ts, ts[n - 1], matches[n - 1])] else before
  }

  function Disposals(ts: seq<Trade>, p: Pool): seq<Disposal> {
    Results(ts, Matched(ts, p).0.matches, |ts|)
  }

  function ClosingPool(ts: seq<Trade>, p: Pool): Pool {
    Matched(ts, p).1
  }

  // ----- Time order --------------------------------------------------------------------------

  function ByTime(t: Trade): real {
    t.timestamp as real
  }

  /** The source's sort is unstable: it may leave any of the orders this allows. */
  predicate Chronological(sorted: seq<Trade>, trades: seq<Trade>) {
    IsSorted(ByTime, sorted, trades)
  }

  // ----- The passes, in place ----------------------------------------------------------------

  /** Once a disposal is exhausted the rest of its inner loop does nothing. */
  lemma {:induction false} ScanStops(ts: seq<Trade>, rule: Rule, b: Book, i: nat, n: nat, m: nat)
    requires Fits(ts, b) && i < |ts| && n <= m <= |ts| && ts[i].action == SELL
    requires Scan(ts, rule, b, i, n).remaining[i] <= 0.0
    ensures Scan(ts, rule, b, i, m) == Scan(ts, rule, b, i, n)
  {
    if n < m {
      ScanStops(ts, rule, b, i, n, m - 1);
    }
  }

  class Section104Pool {
    var symbol: string
    var totalQuantity: real
    var totalCostGBP: real

    constructor (symbol: string)
      ensures this.symbol == symbol && Value() == Pool(0.0, 0.0)
    {
      this.symbol := symbol;
      totalQuantity := 0.0;
      totalCostGBP := 0.0;
    }

    function Value(): Pool
      reads this
    {
      Pool(totalQuantity, totalCostGBP)
    }

    /** The weighted-average cost of a unit: zero when the pool is empty, else cost / quantity. */
    method CostPerUnit() returns (cpu: real)
      ensures cpu == Value().CostPerUnit()
      ensures totalQuantity > 0.0 ==> cpu * totalQuantity == totalCostGBP
    {
      if totalQuantity <= 0.0 {
        return 0.0;
      }
      return totalCostGBP / totalQuantity;
    }
  }

  /** Match `quantity` of disposal d with acquisition j. */
  method TakeFromAcquisition(sorted: seq<Trade>, rule: Rule, d: nat, j: nat,
                             remaining: array<real>, matches: array<seq<MatchResult>>)
    requires remaining.Length == |sorted| == matches.Length
    requires d < |sorted| && j < |sorted| && d != j
    modifies remaining, matches
    ensures Book(remaining[..], matches[..])
         == Transfer(sorted, rule, old(Book(remaining[..], matches[..])), d, j,
                     Min(old(remaining[d]), old(remaining[j])))
  {
    ghost var next := Transfer(sorted, rule, Book(remaining[..], matches[..]), d, j, Min(remaining[d], remaining[j]));
    var quantity := Min(remaining[d], remaining[j]);
    var costPerUnit := AcqCostPerUnit(sorted[j]);
    var m := MatchResult(quantity, quantity * costPerUnit, rule, j);
    assert m == Purchased(rule, sorted[j], quantity, j);
    matches[d] := matches[d] + [m];
    remaining[d] := remaining[d] - quantity;
    remaining[j] := remaining[j] - quantity;
    assert remaining[..] == next.remaining;
    assert matches[..] == next.matches;
  }

  /** The nested loops of the same-day phase and of the 30-day phase. */
  method MatchPhase(sorted: seq<Trade>, rule: Rule,
                    remaining: array<real>, matches: array<seq<MatchResult>>)
    requires remaining.Length == |sorted| == matches.Length
    modifies remaining, matches
    ensures Book(remaining[..], matches[..])
         == Pass(sorted, rule, old(Book(remaining[..], matches[..])), |sorted|)
  {
    ghost var start := Book(remaining[..], matches[..]);
    for d := 0 to |sorted|
      invariant Book(remaining[..], matches[..]) == Pass(sorted, rule, start, d)
    {
      if sorted[d].action != SELL {
        continue;
      }
      ghost var before := Book(remaining[..], matches[..]);
      var j := 0;
      while j < |sorted| && remaining[d] > 0.0
        invariant j <= |sorted|
        invariant Book(remaining[..], matches[..]) == Scan(sorted, rule, before, d, j)
      {
        if sorted[j].action == BUY && remaining[j] > 0.0 && Eligible(rule, sorted[d], sorted[j]) {
          TakeFromAcquisition(sorted, rule, d, j, remaining, matches);
        }
        j := j + 1;
      }
      if j < |sorted| {
        ScanStops(sorted, rule, before, d, j, |sorted|);
      }
    }
  }

  /** Match disposal i with what the pool holds, at its average cost. */
  method TakeFromPool(sorted: seq<Trade>, i: nat, pool: Section104Pool,
                      remaining: array<real>, matches: array<seq<MatchResult>>)
    requires remaining.Length == |sorted| == matches.Length && i < |sorted|
    modifies remaining, matches, pool
    ensures (Book(remaining[..], matches[..]), pool.Value())
         == Draw(sorted, old(Book(remaining[..], matches[..])), old(pool.Value()), i)
    ensures pool.symbol == old(pool.symbol)
  {
    ghost var next := Draw(sorted, Book(remaining[..], matches[..]), pool.Value(), i);
    var quantity := Min(remaining[i], pool.totalQuantity);
    var cpu := pool.CostPerUnit();
    var m := MatchResult(quantity, quantity * cpu, Section104, NO_TRADE);
    assert m == Drawn(pool.Value(), quantity);
    matches[i] := matches[i] + [m];
    pool.totalQuantity := pool.totalQuantity - quantity;
    pool.totalCostGBP := pool.totalCostGBP - quantity * cpu;
    remaining[i] := remaining[i] - quantity;
    assert remaining[..] == next.0.remaining;
    assert matches[..] == next.0.matches;
  }

  /** Put what is left of purchase i into the pool. */
  method AddToPool(sorted: seq<Trade>, i: nat, pool: Section104Pool, remaining: array<real>)
    requires remaining.Length == |sorted| && i < |sorted|
    modifies remaining, pool
    ensures remaining[..] == old(remaining[..])[i := 0.0]
    ensures pool.Value() == Topped(old(pool.Value()), sorted[i], old(remaining[i]))
    ensures pool.symbol == old(pool.symbol)
  {
    var costPerUnit := AcqCostPerUnit(sorted[i]);
    pool.totalQuantity := pool.totalQuantity + remaining[i];
    pool.totalCostGBP := pool.totalCostGBP + remaining[i] * costPerUnit;
    remaining[i] := 0.0;
  }

  /** The chronological pool phase. */
  method PoolPhase(sorted: seq<Trade>, pool: Section104Pool,
                   remaining: array<real>, matches: array<seq<MatchResult>>)
    requires remaining.Length == |sorted| == matches.Length
    modifies remaining, matches, pool
    ensures (Book(remaining[..], matches[..]), pool.Value())
         == PoolPass(sorted, old(Book(remaining[..], matches[..])), old(pool.Value()), |sorted|)
    ensures pool.symbol == old(pool.symbol)
  {
    ghost var start, opening := Book(remaining[..], matches[..]), pool.Value();
    for i := 0 to |sorted|
      invariant (Book(remaining[..], matches[..]), pool.Value()) == PoolPass(sorted, start, opening, i)
      invariant pool.symbol == old(pool.symbol)
    {
      if remaining[i] <= 0.0 {
        continue;
      }
      if sorted[i].action == BUY {
        AddToPool(sorted, i, pool, remaining);
      } else if sorted[i].action == SELL && pool.totalQuantity > 0.0 {
        TakeFromPool(sorted, i, pool, remaining, matches);
      }
    }
  }

  /** The loop that adds up one disposal's matches. */
  method BuildResult(sorted: seq<Trade>, d: Trade, ms: seq<MatchResult>) returns (r: Disposal)
    ensures r == BuildDisposal(sorted, d, ms)
  {
    var totalCost, totalQty := 0.0, 0.0;
    var matchedIDs: seq<string> := [];
    var primaryMatch := Unmatched;
    for k := 0 to |ms|
      invariant totalCost == SumBy(ResultCost, ms[..k])
      invariant totalQty == SumBy(ResultQuantity, ms[..k])
      invariant matchedIDs == MatchedIDs(sorted, ms[..k])
      invariant primaryMatch == if k == 0 then Unmatched else By(ms[0].rule)
    {
      assert ms[..k + 1][..k] == ms[..k];
      totalCost := totalCost + ms[k].costGBP;
      totalQty := totalQty + ms[k].quantity;
      if 0 <= ms[k].acquisition < |sorted| && sorted[ms[k].acquisition].id != "" {
        matchedIDs := matchedIDs + [sorted[ms[k].acquisition].id];
      }
      if primaryMatch == Unmatched {
        primaryMatch := By(ms[k].rule);
      }
    }
    assert ms[..|ms|] == ms;
    var proceeds := 0.0;
    if d.quantity > 0.0 && totalQty > 0.0 {
      proceeds := totalQty / d.quantity * (d.notionalGBP - d.feesGBP);
    }
    var gain := proceeds - totalCost;
    r := Disposal(d.timestamp, d.symbol, totalQty, proceeds, totalCost, gain, primaryMatch, matchedIDs);
  }

  method BuildResults(sorted: seq<Trade>, matches: array<seq<MatchResult>>) returns (results: seq<Disposal>)
    requires matches.Length == |sorted|
    ensures results == Results(sorted, matches[..], |sorted|)
  {
    results := [];
    for i := 0 to |sorted|
      invariant results == Results(sorted, matches[..], i)
    {
      if sorted[i].action == SELL {
        var result := BuildResult(sorted, sorted[i], matches[i]);
        results := results + [result];
      }
    }
  }

  /**
   The three-tier matching of one symbol's trades.  The pool, when there is one, is updated in
   place, so that it can be carried into the next period.
   */
  method MatchSpotTrades(trades: seq<Trade>, pool: Section104Pool?)
    returns (results: seq<Disposal>, ghost sorted: seq<Trade>)
    modifies pool
    ensures Chronological(sorted, trades)
    ensures pool != null ==>
              && results == Disposals(sorted, old(pool.Value()))
              && pool.Value() == ClosingPool(sorted, old(pool.Value()))
              && pool.symbol == old(pool.symbol)
    ensures pool == null ==> results == Disposals(sorted, Pool(0.0, 0.0))
  {
    var section104: Section104Pool;
    if pool == null {
      section104 := new Section104Pool("");
    } else {
      section104 := pool;
    }
    if |trades| == 0 {
      return [], [];
    }
    SortSorts(ByTime, trades);
    var inOrder := Sort(ByTime, trades);
    sorted := inOrder;
    var remaining := new real[|inOrder|](i requires 0 <= i < |inOrder| => inOrder[i].quantity);
    var matches := new seq<MatchResult>[|inOrder|](_ => []);
    assert Book(remaining[..], matches[..]) == Opening(sorted) by {
      assert remaining[..] == Opening(sorted).remaining;
      assert matches[..] == Opening(sorted).matches;
    }
    MatchPhase(inOrder, SameDay, remaining, matches);
    MatchPhase(inOrder, ThirtyDay, remaining, matches);
    PoolPhase(inOrder, section104, remaining, matches);

    results := BuildResults(inOrder, matches);
  }
}
