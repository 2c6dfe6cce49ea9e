/**
 The spot part of the tax report: each symbol's trades matched against its own pool, in whatever
 order the symbols come, and the gains and losses added up.
 */
module TaxReport {
  import opened Sums
  import opened Sorting
  import opened TaxMatching
  import opened TaxConservation

  datatype TaxReport = TaxReport(spotDisposals: seq<Disposal>, totalSpotGainsGBP: real,
                                 totalSpotLossesGBP: real, netSpotGainGBP: real)

  /** One symbol of the report: its trades in the order matched, and its pool before and after. */
  datatype Visit = Visit(symbol: string, sorted: seq<Trade>, opening: Pool, closing: Pool)

  const EMPTY_POOL := Pool(0.0, 0.0)

  function ByDate(d: Disposal): real {
    d.date as real
  }

  function Gain(d: Disposal): real {
    d.gainGBP
  }

  function Proceeds(d: Disposal): real {
    d.proceedsGBP
  }

  /** The spot trades of a symbol, in the order given. */
  function SpotTrades(trades: seq<Trade>, symbol: string): seq<Trade> {
    if trades == [] then []
    else
      var t := trades[|trades| - 1];
      var before := SpotTrades(trades[..|trades| - 1], symbol);
      if t.market == SPOT && t.symbol == symbol then before + [t] else before
  }

  function VisitDisposals(visits: seq<Visit>): seq<Disposal> {
    if visits == [] then []
    else
      var v := visits[|visits| - 1];
      VisitDisposals(visits[..|visits| - 1]) + Disposals(v.sorted, v.opening)
  }

  // ----- The cash-flow identity --------------------------------------------------------------

  /** What a sale brings in after its fees. */
  function NetSaleProceeds(t: Trade): real {
    if t.action == SELL && t.quantity > 0.0 then t.notionalGBP - t.feesGBP else 0.0
  }

  /** The disposals account for all that was sold. */
  ghost predicate FullyMatched(ts: seq<Trade>, p: Pool) {
    forall k :: 0 <= k < |ts| && ts[k].action == SELL && ts[k].quantity > 0.0 ==>
      SumBy(ResultQuantity, Matched(ts, p).0.matches[k]) == ts[k].quantity
  }

  /** A symbol's cash in, cash out, and the change in what its pool cost. */
  function CashFlow(v: Visit): real {
    SumBy(NetSaleProceeds, v.sorted) - SumBy(BoughtCost, v.sorted) - v.opening.cost + v.closing.cost
  }

  lemma SaleInFull(ts: seq<Trade>, t: Trade, ms: seq<MatchResult>)
    requires t.action == SELL && (t.quantity > 0.0 ==> SumBy(ResultQuantity, ms) == t.quantity)
    ensures BuildDisposal(ts, t, ms).proceedsGBP == NetSaleProceeds(t)
  {
    if t.quantity > 0.0 {
      assert t.quantity / t.quantity == 1.0;
    }
  }

  lemma {:induction false} ProceedsInFull(ts: seq<Trade>, matches: seq<seq<MatchResult>>, n: nat)
    requires |matches| == |ts| && n <= |ts|
    requires forall k :: 0 <= k < |ts| && ts[k].action == SELL && ts[k].quantity > 0.0 ==>
               SumBy(ResultQuantity, matches[k]) == ts[k].quantity
    ensures SumBy(Proceeds, Results(ts, matches, n)) == SumBy(NetSaleProceeds, ts[..n])
  {
    if n > 0 {
      ProceedsInFull(ts, matches, n - 1);
      var t := ts[n - 1];
      assert ts[..n][..n - 1] == ts[..n - 1];
      if t.action == SELL {
        SaleInFull(ts, t, matches[n - 1]);
        SumByOne(Proceeds, Results(ts, matches, n - 1), BuildDisposal(ts, t, matches[n - 1]));
      }
    }
  }

  lemma {:induction false} GainsSplit(ds: seq<Disposal>)
    requires forall d :: d in ds ==> d.gainGBP == d.proceedsGBP - d.costGBP
    ensures SumBy(Gain, ds) == SumBy(Proceeds, ds) - SumBy(DisposedCost, ds)
  {
    if ds != [] {
      GainsSplit(ds[..|ds| - 1]);
    }
  }

  lemma {:induction false} ResultsGain(ts: seq<Trade>, matches: seq<seq<MatchResult>>, n: nat)
    requires |matches| == |ts| && n <= |ts|
    ensures forall d :: d in Results(ts, matches, n) ==> d.gainGBP == d.proceedsGBP - d.costGBP
  {
    if n > 0 {
      ResultsGain(ts, matches, n - 1);
    }
  }

  /** One symbol's gain is its cash flow, when its disposals are fully matched. */
  lemma SymbolCashFlow(v: Visit)
    requires v.closing == ClosingPool(v.sorted, v.opening) && FullyMatched(v.sorted, v.opening)
    ensures SumBy(Gain, Disposals(v.sorted, v.opening)) == CashFlow(v)
  {
    var matches := Matched(v.sorted, v.opening).0.matches;
    Conservation(v.sorted, v.opening);
    ProceedsInFull(v.sorted, matches, |v.sorted|);
    assert v.sorted[..|v.sorted|] == v.sorted;
    ResultsGain(v.sorted, matches, |v.sorted|);
    GainsSplit(Disposals(v.sorted, v.opening));
  }

  /** A symbol's cash flow is that of its trades in whatever order they are given. */
  lemma CashFlowInAnyOrder(v: Visit, trades: seq<Trade>)
    requires Chronological(v.sorted, SpotTrades(trades, v.symbol))
    ensures CashFlow(v) == SumBy(NetSaleProceeds, SpotTrades(trades, v.symbol))
                           - SumBy(BoughtCost, SpotTrades(trades, v.symbol)) - v.opening.cost + v.closing.cost
  {
    SumByPermuted(NetSaleProceeds, v.sorted, SpotTrades(trades, v.symbol));
    SumByPermuted(BoughtCost, v.sorted, SpotTrades(trades, v.symbol));
  }

  lemma {:induction false} VisitsCashFlow(visits: seq<Visit>)
    requires forall v :: v in visits ==>
              v.closing == ClosingPool(v.sorted, v.opening) && FullyMatched(v.sorted, v.opening)
    ensures SumBy(Gain, VisitDisposals(visits)) == SumBy(CashFlow, visits)
  {
    if visits != [] {
      var n := |visits| - 1;
      VisitsCashFlow(visits[..n]);
      SymbolCashFlow(visits[n]);
      SumByAppend(Gain, VisitDisposals(visits[..n]), Disposals(visits[n].sorted, visits[n].opening));
    }
  }

  // ----- The report --------------------------------------------------------------------------

  /** The spot trades of every symbol that has any. */
  method PartitionSpot(trades: seq<Trade>) returns (spotBySymbol: map<string, seq<Trade>>)
    ensures forall s :: s in spotBySymbol <==> SpotTrades(trades, s) != []
    ensures forall s :: s in spotBySymbol ==> spotBySymbol[s] == SpotTrades(trades, s)
  {
    spotBySymbol := map[];
    for i := 0 to |trades|
      invariant forall s :: s in spotBySymbol <==> SpotTrades(trades[..i], s) != []
      invariant forall s :: s in spotBySymbol ==> spotBySymbol[s] == SpotTrades(trades[..i], s)
    {
      assert trades[..i + 1][..i] == trades[..i];
      var t := trades[i];
      if t.market == SPOT {
        var before := if t.symbol in spotBySymbol then spotBySymbol[t.symbol] else [];
        spotBySymbol := spotBySymbol[t.symbol := before + [t]];
      }
    }
    assert trades[..|trades|] == trades;
  }

  /** Adding the positive and the negative gains apart loses nothing. */
  method AddGains(disposals: seq<Disposal>) returns (gains: real, losses: real)
    ensures gains >= 0.0 && losses >= 0.0
    ensures gains - losses == SumBy(Gain, disposals)
  {
    gains, losses := 0.0, 0.0;
    for i := 0 to |disposals|
      invariant gains >= 0.0 && losses >= 0.0
      invariant gains - losses == SumBy(Gain, disposals[..i])
    {
      assert disposals[..i + 1][..i] == disposals[..i];
      var d := disposals[i];
      if d.gainGBP >= 0.0 {
        gains := gains + d.gainGBP;
      } else {
        losses := losses + -d.gainGBP;
      }
    }
    assert disposals[..|disposals|] == disposals;
  }

  /** Each symbol has a pool of its own. */
  predicate OwnPools(pools: map<string, Section104Pool>) {
    forall s, t :: s in pools && t in pools && s != t ==> pools[s] != pools[t]
  }

  /** Every symbol keeps its pool. */
  predicate Extends(pools': map<string, Section104Pool>, pools: map<string, Section104Pool>) {
    forall s :: s in pools ==> s in pools' && pools'[s] == pools[s]
  }

  /** What every pool holds. */
  function Holdings(pools: map<string, Section104Pool>): (h: map<string, Pool>)
    reads pools.Values
    ensures h.Keys == pools.Keys
  {
    map s | s in pools :: pools[s].Value()
  }

  ghost predicate Visited(visits: seq<Visit>, symbol: string) {
    exists v :: v in visits && v.symbol == symbol
  }

  function OpeningOf(opening: map<string, Pool>, symbol: string): Pool {
    if symbol in opening then opening[symbol] else EMPTY_POOL
  }

  /** Each symbol is visited once, and its trades are matched from the pool it came with. */
  ghost predicate Proper(visits: seq<Visit>, trades: seq<Trade>, opening: map<string, Pool>) {
    visits == [] ||
    var v := visits[|visits| - 1];
    && Proper(visits[..|visits| - 1], trades, opening)
    && !Visited(visits[..|visits| - 1], v.symbol)
    && Chronological(v.sorted, SpotTrades(trades, v.symbol))
    && v.opening == OpeningOf(opening, v.symbol)
    && v.closing == ClosingPool(v.sorted, v.opening)
  }

  /** The pools once each visit has left its own. */
  function Left(visits: seq<Visit>, opening: map<string, Pool>): map<string, Pool> {
    if visits == [] then opening
    else
      var v := visits[|visits| - 1];
      Left(visits[..|visits| - 1], opening)[v.symbol := v.closing]
  }

  /** A visited symbol's pool is left as its matching closed it; no other pool changes. */
  lemma {:induction false} LeftIs(visits: seq<Visit>, trades: seq<Trade>, opening: map<string, Pool>, symbol: string)
    requires Proper(visits, trades, opening)
    ensures !Visited(visits, symbol) ==> OpeningOf(Left(visits, opening), symbol) == OpeningOf(opening, symbol)
    ensures symbol in Left(visits, opening) <==> symbol in opening || Visited(visits, symbol)
    ensures forall v :: v in visits && v.symbol == symbol ==> OpeningOf(Left(visits, opening), symbol) == v.closing
  {
    if visits != [] {
      LeftIs(visits[..|visits| - 1], trades, opening, symbol);
      var v := visits[|visits| - 1];
      assert v in visits;
      assert visits == visits[..|visits| - 1] + [v];
    }
  }

  lemma {:induction false} ProperVisits(visits: seq<Visit>, trades: seq<Trade>, opening: map<string, Pool>)
    requires Proper(visits, trades, opening)
    ensures forall v :: v in visits ==> v.closing == ClosingPool(v.sorted, v.opening)
    ensures forall v :: v in visits ==> multiset(v.sorted) == multiset(SpotTrades(trades, v.symbol))
  {
    if visits != [] {
      ProperVisits(visits[..|visits| - 1], trades, opening);
      assert visits == visits[..|visits| - 1] + [visits[|visits| - 1]];
    }
  }

  /** Match one symbol, with a new pool if it has none. */
  method MatchSymbol(symbol: string, trades: seq<Trade>, pools: map<string, Section104Pool>)
    returns (disposals: seq<Disposal>, pools': map<string, Section104Pool>, ghost v: Visit)
    requires OwnPools(pools)
    modifies pools.Values
    ensures v.symbol == symbol && Chronological(v.sorted, trades)
    ensures v.opening == OpeningOf(old(Holdings(pools)), symbol)
    ensures v.closing == ClosingPool(v.sorted, v.opening)
    ensures disposals == Disposals(v.sorted, v.opening)
    ensures OwnPools(pools') && Holdings(pools') == old(Holdings(pools))[symbol := v.closing]
    ensures Extends(pools', pools) && fresh(pools'.Values - pools.Values)
  {
    var pool: Section104Pool;
    if symbol in pools {
      pool := pools[symbol];
    } else {
      pool := new Section104Pool(symbol);
    }
    pools' := pools[symbol := pool];
    ghost var opening, before := pool.Value(), Holdings(pools);
    ghost var sorted;
    disposals, sorted := MatchSpotTrades(trades, pool);
    v := Visit(symbol, sorted, opening, pool.Value());
    forall s | s in pools && s != symbol ensures pools'[s] == pools[s] != pool && pools[s].Value() == before[s] {
    }
    assert Holdings(pools') == before[symbol := v.closing];
  }

  lemma VisitedMore(visits: seq<Visit>, v: Visit, symbol: string)
    ensures Visited(visits + [v], symbol) <==> Visited(visits, symbol) || symbol == v.symbol
  {
    assert v in visits + [v];
  }

  lemma LeftMore(visits: seq<Visit>, v: Visit, opening: map<string, Pool>)
    ensures Left(visits + [v], opening) == Left(visits, opening)[v.symbol := v.closing]
    ensures VisitDisposals(visits + [v]) == VisitDisposals(visits) + Disposals(v.sorted, v.opening)
  {
    assert (visits + [v])[..|visits|] == visits;
  }

  lemma ProperMore(visits: seq<Visit>, v: Visit, trades: seq<Trade>, opening: map<string, Pool>)
    requires Proper(visits, trades, opening) && !Visited(visits, v.symbol)
    requires Chronological(v.sorted, SpotTrades(trades, v.symbol))
    requires v.opening == OpeningOf(opening, v.symbol)
    requires v.closing == ClosingPool(v.sorted, v.opening)
    ensures Proper(visits + [v], trades, opening)
  {
    assert (visits + [v])[..|visits|] == visits;
  }

  /** One more symbol in the loop. */
  lemma NextVisit(visits: seq<Visit>, v: Visit, trades: seq<Trade>, opening: map<string, Pool>)
    requires Proper(visits, trades, opening) && !Visited(visits, v.symbol)
    requires Chronological(v.sorted, SpotTrades(trades, v.symbol))
    requires v.opening == OpeningOf(Left(visits, opening), v.symbol)
    requires v.closing == ClosingPool(v.sorted, v.opening)
    ensures Proper(visits + [v], trades, opening)
    ensures Left(visits + [v], opening) == Left(visits, opening)[v.symbol := v.closing]
    ensures VisitDisposals(visits + [v]) == VisitDisposals(visits) + Disposals(v.sorted, v.opening)
    ensures forall s :: Visited(visits + [v], s) <==> Visited(visits, s) || s == v.symbol
  {
    LeftIs(visits, trades, opening, v.symbol);
    ProperMore(visits, v, trades, opening);
    LeftMore(visits, v, opening);
    forall s ensures Visited(visits + [v], s) <==> Visited(visits, s) || s == v.symbol {
      VisitedMore(visits, v, s);
    }
  }

  /** The loop over the symbols, in the order a map happens to give them. */
  method MatchSymbols(trades: seq<Trade>, pools: map<string, Section104Pool>)
    returns (disposals: seq<Disposal>, pools': map<string, Section104Pool>, ghost visits: seq<Visit>)
    requires OwnPools(pools)
    modifies pools.Values
    ensures Proper(visits, trades, old(Holdings(pools)))
    ensures disposals == VisitDisposals(visits)
    ensures Holdings(pools') == Left(visits, old(Holdings(pools)))
    ensures forall s :: Visited(visits, s) <==> SpotTrades(trades, s) != []
    ensures Extends(pools', pools)
  {
    var spotBySymbol := PartitionSpot(trades);
    ghost var opening := Holdings(pools);
    disposals, pools', visits := [], pools, [];
    var todo := spotBySymbol.Keys;
    while todo != {}
      invariant todo <= spotBySymbol.Keys
      invariant Proper(visits, trades, opening)
      invariant disposals == VisitDisposals(visits)
      invariant OwnPools(pools') && Holdings(pools') == Left(visits, opening)
      invariant forall s :: Visited(visits, s) <==> s in spotBySymbol && s !in todo
      invariant Extends(pools', pools) && fresh(pools'.Values - pools.Values)
      decreases todo
    {
      var symbol :| symbol in todo;
      var more;
      ghost var v;
      more, pools', v := MatchSymbol(symbol, spotBySymbol[symbol], pools');
      NextVisit(visits, v, trades, opening);
      disposals := disposals + more;
      visits := visits + [v];
      todo := todo - {symbol};
    }
  }

  /** The spot part of the report.  The pools are updated in place. */
  method GenerateReport(trades: seq<Trade>, pools: map<string, Section104Pool>)
    returns (rpt: TaxReport, pools': map<string, Section104Pool>, ghost visits: seq<Visit>)
    requires OwnPools(pools)
    modifies pools.Values
    ensures Proper(visits, trades, old(Holdings(pools)))
    ensures Holdings(pools') == Left(visits, old(Holdings(pools)))
    ensures forall s :: Visited(visits, s) <==> SpotTrades(trades, s) != []
    ensures Extends(pools', pools)
    ensures IsSorted(ByDate, rpt.spotDisposals, VisitDisposals(visits))
    ensures rpt.totalSpotGainsGBP >= 0.0 && rpt.totalSpotLossesGBP >= 0.0
    ensures rpt.netSpotGainGBP == rpt.totalSpotGainsGBP - rpt.totalSpotLossesGBP == SumBy(Gain, VisitDisposals(visits))
    ensures (forall v :: v in visits ==> FullyMatched(v.sorted, v.opening)) ==>
              rpt.netSpotGainGBP == SumBy(CashFlow, visits)
  {
    var disposals;
    disposals, pools', visits := MatchSymbols(trades, pools);
    SortSorts(ByDate, disposals);
    var inOrder := Sort(ByDate, disposals);
    SumByPermuted(Gain, inOrder, disposals);
    var gains, losses := AddGains(inOrder);
    rpt := TaxReport(inOrder, gains, losses, gains - losses);
    if forall v :: v in visits ==> FullyMatched(v.sorted, v.opening) {
      ProperVisits(visits, trades, old(Holdings(pools)));
      VisitsCashFlow(visits);
    }
  }
}
