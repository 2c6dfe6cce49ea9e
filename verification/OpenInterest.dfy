/** Open interest by venue and symbol, and the size multiplier that the allocator takes from it. */
module OpenInterest {
  import opened Sums

  const STALE_MS := 300_000

  datatype Snapshot = Snapshot(oiContracts: real, tsMs: int)

  function Key(venue: string, symbol: string): string {
    venue + ":" + symbol
  }

  /** The multiplier for open interest relative to the baseline. */
  function ForRatio(ratio: real): real {
    if ratio < 0.5 then 0.25
    else if ratio < 1.0 then 0.5 + (ratio - 0.5)
    else if ratio < 2.0 then 1.0 + (ratio - 1.0) * 0.5
    else 1.5
  }

  function Multiplier(data: map<string, Snapshot>, venue: string, symbol: string, baselineOI: real,
                      nowMs: int): (r: real)
    ensures 0.25 <= r <= 1.5
  {
    var key := Key(venue, symbol);
    if baselineOI <= 0.0 || key !in data || nowMs - data[key].tsMs > STALE_MS then 1.0
    else ForRatio(data[key].oiContracts / baselineOI)
  }

  class OITracker {
    var data: map<string, Snapshot>

    constructor ()
      ensures data == map[]
    {
      data := map[];
    }

    method Update(venue: string, symbol: string, oiContracts: real, tsMs: int)
      modifies this
      ensures data == if oiContracts <= 0.0 then old(data)
                      else old(data)[Key(venue, symbol) := Snapshot(oiContracts, tsMs)]
    {
      if oiContracts <= 0.0 {
        return;
      }
      data := data[Key(venue, symbol) := Snapshot(oiContracts, tsMs)];
    }

    function LiquidityMultiplier(venue: string, symbol: string, baselineOI: real, nowMs: int): (r: real)
      reads this
      ensures 0.25 <= r <= 1.5
    {
      Multiplier(data, venue, symbol, baselineOI, nowMs)
    }
  }

  lemma QuotientMonotone(a: real, b: real, base: real)
    requires a <= b && base > 0.0
    ensures a / base <= b / base
  {
    assert (b - a) / base >= 0.0;
  }

  /** More open interest never means a smaller size, and the size is the full one exactly at the baseline. */
  lemma MultiplierMonotone(a: real, b: real, baselineOI: real)
    requires 0.0 < a <= b && baselineOI > 0.0
    ensures ForRatio(a / baselineOI) <= ForRatio(b / baselineOI)
    ensures ForRatio(a / baselineOI) == 1.0 <==> a == baselineOI
  {
    QuotientMonotone(a, b, baselineOI);
    var ratio := a / baselineOI;
    assert ratio * baselineOI == a;
    assert ForRatio(ratio) == 1.0 <==> ratio == 1.0;
  }

  /**
   Without a baseline, or open interest at most five minutes old, the size is the full one.  Else it is
   a quarter under half of the baseline, in proportion up to the baseline, from there to twice of it
   the mean of one and the proportion, and one and a half beyond.
   */
  lemma MultiplierExactly(data: map<string, Snapshot>, venue: string, symbol: string, baseline: real, nowMs: int)
    ensures var (m, key) := (Multiplier(data, venue, symbol, baseline, nowMs), venue + ":" + symbol);
            if baseline <= 0.0 || key !in data || nowMs - data[key].tsMs > 300_000 then m == 1.0
            else
              var oi := data[key].oiContracts;
              && (2.0 * oi < baseline ==> m == 0.25)
              && (baseline <= 2.0 * oi && oi < baseline ==> Times(m, baseline) == oi)
              && (baseline <= oi < 2.0 * baseline ==> 2.0 * Times(m, baseline) == baseline + oi)
              && (2.0 * baseline <= oi ==> m == 1.5)
  {
    if baseline > 0.0 && Key(venue, symbol) in data {
      RatioIs(data[Key(venue, symbol)].oiContracts, baseline);
    }
  }

  lemma RatioIs(oi: real, baseline: real)
    requires baseline > 0.0
    ensures var m := ForRatio(oi / baseline);
            && (2.0 * oi < baseline ==> m == 0.25)
            && (baseline <= 2.0 * oi && oi < baseline ==> Times(m, baseline) == oi)
            && (baseline <= oi < 2.0 * baseline ==> 2.0 * Times(m, baseline) == baseline + oi)
            && (2.0 * baseline <= oi ==> m == 1.5)
  {
    var r := oi / baseline;
    assert Times(r, baseline) == oi;
    RatioOrder(r, 0.5, baseline);
    RatioOrder(r, 1.0, baseline);
    RatioOrder(r, 2.0, baseline);
    assert Times(0.5, baseline) == 0.5 * baseline && Times(1.0, baseline) == baseline;
    assert Times(2.0, baseline) == 2.0 * baseline;
    assert 2.0 * Times(1.0 + (r - 1.0) * 0.5, baseline) == baseline + Times(r, baseline);
  }

  lemma RatioOrder(r: real, limit: real, baseline: real)
    requires baseline > 0.0
    ensures r < limit <==> Times(r, baseline) < Times(limit, baseline)
  {
    if r < limit {
      assert (limit - r) * baseline > 0.0;
      assert (limit - r) * baseline == Times(limit, baseline) - Times(r, baseline);
    } else {
      TimesMonotone(limit, r, baseline);
    }
  }
}
