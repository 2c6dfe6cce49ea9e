/**
 One round of price consensus: per-venue prices, the median and the deviations from it, the circuit
 breaker, trust weights, and the published mid, executable prices and band.

 The feeds come as a sequence: the order in which the map of quotes happens to be walked.
 */
module ConsensusEngine {
  import opened Sums
  import opened Statistics
  import opened Pricing
  import opened Trust
  import opened CircuitBreaker

  datatype Policy = Policy(limits: Limits, sizeNotionalUSD: real, staleMs: int, stalePauseMs: int,
                           minCoreQuorum: int, coreVenues: set<string>, baseTrust: map<string, real>,
                           slippageBufferBps: real, depthPenaltyBps: real)

  datatype Feed = Feed(venue: string, quote: Quote)

  datatype VenueRaw = VenueRaw(venue: string, quote: Quote, mid: real, buyExec: real, sellExec: real,
                               effectiveBuy: real, effectiveSell: real, spreadBps: real, sufficientDepth: bool)

  datatype Flag = Outlier | HardOutlier | InsufficientDepth

  /** What one venue contributes, before trust is normalised. */
  datatype Venue = Venue(raw: VenueRaw, status: Status, anomaly: Anomaly, deviationBps: real, rawTrust: real,
                         flags: seq<Flag>)

  datatype Quality = HIGH | MED | LOW

  datatype Consensus = Consensus(mid: real, buyExec: real, sellExec: real, bandLow: real, bandHigh: real,
                                 quality: Quality)

  datatype Result = Result(consensus: Consensus, venues: seq<Venue>, weights: seq<real>,
                           newStatuses: map<string, Status>)

  const UNKNOWN_VENUE_TRUST := 0.05
  const NEW_STATUS := Status(OK, 0, 0, 0, 0, 0, None)

  predicate AllWalkable(feeds: seq<Feed>, p: Policy) {
    forall f :: f in feeds ==> WalkableQuote(f.quote, p.sizeNotionalUSD)
  }

  predicate DistinctVenues(feeds: seq<Feed>) {
    forall i, j :: 0 <= i < j < |feeds| ==> feeds[i].venue != feeds[j].venue
  }

  // ----- One venue ---------------------------------------------------------------------------

  function RawOf(f: Feed, p: Policy): VenueRaw
    requires WalkableQuote(f.quote, p.sizeNotionalUSD)
  {
    var (buy, buyOK) := ExecutableBuy(f.quote, p.sizeNotionalUSD, p.slippageBufferBps, p.depthPenaltyBps);
    var (sell, sellOK) := ExecutableSell(f.quote, p.sizeNotionalUSD, p.slippageBufferBps, p.depthPenaltyBps);
    VenueRaw(f.venue, f.quote, Mid(f.quote), buy, sell,
             Above(buy, f.quote.feeBpsTaker), Below(sell, f.quote.feeBpsTaker),
             SpreadBps(f.quote.bestBid, f.quote.bestAsk), buyOK && sellOK)
  }

  function StatusOf(statuses: map<string, Status>, venue: string): Status {
    if venue in statuses then statuses[venue] else NEW_STATUS
  }

  function BaseTrustOf(p: Policy, venue: string): real {
    var base := if venue in p.baseTrust then p.baseTrust[venue] else 0.0;
    if base == 0.0 then UNKNOWN_VENUE_TRUST else base
  }

  function VenueOf(nowMs: int, r: VenueRaw, median: real, mad: real, s: Status, p: Policy): Venue
    requires mad >= 0.0
  {
    var dev := DeviationBps(r.mid, median);
    var isOutlier := RobustZScore(r.mid, median, mad) > 6.0 || dev > p.limits.outlierBpsWarn;
    var isHardOutlier := dev > p.limits.outlierBpsBlacklist;
    var (next, anomaly) := UpdateVenueStatus(nowMs, s, dev, p.limits);
    var penalties :=
        Penalties(isOutlier, isHardOutlier, r.spreadBps, nowMs - r.quote.lastMsgTsMs, p.staleMs, next.state);
    Venue(r, next, anomaly, dev, TrustOf(BaseTrustOf(p, r.venue), penalties),
          (if isOutlier then [Outlier] else []) + (if isHardOutlier then [HardOutlier] else [])
          + (if !r.sufficientDepth then [InsufficientDepth] else []))
  }

  // ----- All venues --------------------------------------------------------------------------

  function Mids(feeds: seq<Feed>): (s: seq<real>)
    ensures |s| == |feeds|
  {
    seq(|feeds|, i requires 0 <= i < |feeds| => Mid(feeds[i].quote))
  }

  function Venues(nowMs: int, feeds: seq<Feed>, statuses: map<string, Status>, p: Policy): (s: seq<Venue>)
    requires AllWalkable(feeds, p)
    ensures |s| == |feeds|
  {
    MADNonnegative(Mids(feeds));
    var median, mad := MedianOf(Mids(feeds)), MADOf(Mids(feeds));
    seq(|feeds|, i requires 0 <= i < |feeds| =>
      VenueOf(nowMs, RawOf(feeds[i], p), median, mad, StatusOf(statuses, feeds[i].venue), p))
  }

  function RawTrusts(vs: seq<Venue>): (s: seq<real>)
    ensures |s| == |vs|
  {
    seq(|vs|, i requires 0 <= i < |vs| => vs[i].rawTrust)
  }

  function VenueMids(vs: seq<Venue>): (s: seq<real>)
    ensures |s| == |vs|
  {
    seq(|vs|, i requires 0 <= i < |vs| => vs[i].raw.mid)
  }

  function Buys(vs: seq<Venue>): (s: seq<real>)
    ensures |s| == |vs|
  {
    seq(|vs|, i requires 0 <= i < |vs| => vs[i].raw.effectiveBuy)
  }

  function Sells(vs: seq<Venue>): (s: seq<real>)
    ensures |s| == |vs|
  {
    seq(|vs|, i requires 0 <= i < |vs| => vs[i].raw.effectiveSell)
  }

  /** The values whose weight is positive. */
  function Carrying(w: seq<real>, v: seq<real>): seq<real>
    requires |w| == |v|
  {
    if w == [] then []
    else
      var before := Carrying(w[..|w| - 1], v[..|v| - 1]);
      if w[|w| - 1] > 0.0 then before + [v[|v| - 1]] else before
  }

  function CoreEligible(vs: seq<Venue>, p: Policy): nat {
    if vs == [] then 0
    else
      var v := vs[|vs| - 1];
      CoreEligible(vs[..|vs| - 1], p) + if v.raw.venue in p.coreVenues && v.status.state != BLACKLISTED then 1 else 0
  }

  function Warned(vs: seq<Venue>): nat {
    if vs == [] then 0
    else Warned(vs[..|vs| - 1]) + if vs[|vs| - 1].status.state == WARN then 1 else 0
  }

  function WidenBps(coreEligible: nat): real {
    if coreEligible < 2 then 50.0 else if coreEligible == 2 then 25.0 else if coreEligible == 3 then 10.0 else 0.0
  }

  function Widening(mid: real, median: real, coreEligible: nat): real {
    var midRef := if mid < EPSILON then median else mid;
    if WidenBps(coreEligible) > 0.0 then midRef * WidenBps(coreEligible) / 10000.0 else 0.0
  }

  function QualityScore(coreEligible: nat, warned: nat, minQuorum: int): Quality {
    if coreEligible >= 4 && warned == 0 then HIGH else if coreEligible >= minQuorum then MED else LOW
  }

  function ConsensusOf(vs: seq<Venue>, w: seq<real>, median: real, p: Policy): Consensus
    requires |w| == |vs|
  {
    var mid := Weighted(w, VenueMids(vs));
    var core := CoreEligible(vs, p);
    var widen := Widening(mid, median, core);
    Consensus(mid, Weighted(w, Buys(vs)), Weighted(w, Sells(vs)),
              PercentileOf(Carrying(w, Sells(vs)), 25.0) - widen,
              PercentileOf(Carrying(w, Buys(vs)), 75.0) + widen,
              QualityScore(core, Warned(vs), p.minCoreQuorum))
  }

  function NewStatuses(vs: seq<Venue>): map<string, Status> {
    if vs == [] then map[]
    else NewStatuses(vs[..|vs| - 1])[vs[|vs| - 1].raw.venue := vs[|vs| - 1].status]
  }

  predicate AllStale(nowMs: int, feeds: seq<Feed>, p: Policy) {
    forall f :: f in feeds ==> nowMs - f.quote.tsMs >= p.stalePauseMs
  }

  const NO_CONSENSUS := Result(Consensus(0.0, 0.0, 0.0, 0.0, 0.0, LOW), [], [], map[])

  function ResultOf(nowMs: int, feeds: seq<Feed>, statuses: map<string, Status>, p: Policy): Result
    requires AllWalkable(feeds, p)
  {
    if p.stalePauseMs > 0 && AllStale(nowMs, feeds, p) then NO_CONSENSUS
    else
      var vs := Venues(nowMs, feeds, statuses, p);
      var w := Normalized(RawTrusts(vs));
      Result(ConsensusOf(vs, w, MedianOf(Mids(feeds)), p), vs, w, NewStatuses(vs))
  }

  // ----- The computation ---------------------------------------------------------------------

  method ComputeRaw(f: Feed, p: Policy) returns (r: VenueRaw)
    requires WalkableQuote(f.quote, p.sizeNotionalUSD)
    ensures r == RawOf(f, p)
  {
    var q := f.quote;
    var buy, buyOK, sell, sellOK;
    if q.asks != [] {
      buy, buyOK := ComputeVwapBuy(q.asks, p.sizeNotionalUSD, p.depthPenaltyBps);
    } else {
      buy, buyOK := Above(q.bestAsk, Buffer(q, p.slippageBufferBps)), true;
    }
    if q.bids != [] {
      sell, sellOK := ComputeVwapSell(q.bids, p.sizeNotionalUSD, p.depthPenaltyBps);
    } else {
      sell, sellOK := Below(q.bestBid, Buffer(q, p.slippageBufferBps)), true;
    }
    r := VenueRaw(f.venue, q, Mid(q), buy, sell, Above(buy, q.feeBpsTaker), Below(sell, q.feeBpsTaker),
                  SpreadBps(q.bestBid, q.bestAsk), buyOK && sellOK);
  }

  method ComputeVenue(nowMs: int, r: VenueRaw, median: real, mad: real, s: Status, p: Policy) returns (v: Venue)
    requires mad >= 0.0
    ensures v == VenueOf(nowMs, r, median, mad, s, p)
  {
    var dev := DeviationBps(r.mid, median);
    var zScore := RobustZScore(r.mid, median, mad);
    var isOutlier := zScore > 6.0 || dev > p.limits.outlierBpsWarn;
    var isHardOutlier := dev > p.limits.outlierBpsBlacklist;
    var (next, anomaly) := UpdateVenueStatus(nowMs, s, dev, p.limits);
    var t := ComputeTrust(BaseTrustOf(p, r.venue),
      Penalties(isOutlier, isHardOutlier, r.spreadBps, nowMs - r.quote.lastMsgTsMs, p.staleMs, next.state));
    var flags: seq<Flag> := [];
    if isOutlier {
      flags := flags + [Outlier];
    }
    if isHardOutlier {
      flags := flags + [HardOutlier];
    }
    if !r.sufficientDepth {
      flags := flags + [InsufficientDepth];
    }
    v := Venue(r, next, anomaly, dev, t, flags);
  }

  method ComputeEligible(feeds: seq<Feed>, p: Policy) returns (eligible: seq<VenueRaw>, mids: seq<real>)
    requires AllWalkable(feeds, p)
    ensures |eligible| == |feeds| && forall k :: 0 <= k < |feeds| ==> eligible[k] == RawOf(feeds[k], p)
    ensures mids == Mids(feeds)
  {
    eligible, mids := [], [];
    for i := 0 to |feeds|
      invariant |eligible| == |mids| == i
      invariant forall k :: 0 <= k < i ==> eligible[k] == RawOf(feeds[k], p) && mids[k] == Mid(feeds[k].quote)
    {
      var r := ComputeRaw(feeds[i], p);
      eligible := eligible + [r];
      mids := mids + [r.mid];
    }
  }

  method ComputeVenues(nowMs: int, eligible: seq<VenueRaw>, median: real, mad: real,
                       statuses: map<string, Status>, p: Policy)
    returns (vs: seq<Venue>, newStatuses: map<string, Status>)
    requires mad >= 0.0
    ensures |vs| == |eligible|
    ensures forall k :: 0 <= k < |vs| ==>
              vs[k] == VenueOf(nowMs, eligible[k], median, mad, StatusOf(statuses, eligible[k].venue), p)
    ensures newStatuses == NewStatuses(vs)
  {
    vs, newStatuses := [], map[];
    for i := 0 to |eligible|
      invariant |vs| == i
      invariant forall k :: 0 <= k < i ==>
                  vs[k] == VenueOf(nowMs, eligible[k], median, mad, StatusOf(statuses, eligible[k].venue), p)
      invariant newStatuses == NewStatuses(vs)
    {
      var r := eligible[i];
      var v := ComputeVenue(nowMs, r, median, mad, StatusOf(statuses, r.venue), p);
      assert (vs + [v])[..i] == vs;
      vs := vs + [v];
      newStatuses := newStatuses[r.venue := v.status];
    }
  }

  lemma VenuesAre(nowMs: int, feeds: seq<Feed>, eligible: seq<VenueRaw>, statuses: map<string, Status>, p: Policy,
                  vs: seq<Venue>)
    requires AllWalkable(feeds, p) && MADOf(Mids(feeds)) >= 0.0
    requires |vs| == |eligible| == |feeds| && forall k :: 0 <= k < |feeds| ==> eligible[k] == RawOf(feeds[k], p)
    requires forall k :: 0 <= k < |vs| ==>
               vs[k] == VenueOf(nowMs, eligible[k], MedianOf(Mids(feeds)), MADOf(Mids(feeds)),
                                StatusOf(statuses, eligible[k].venue), p)
    ensures vs == Venues(nowMs, feeds, statuses, p)
  {
  }

  /** The three weighted sums. */
  method ComputeSums(vs: seq<Venue>, w: seq<real>) returns (mid: real, buy: real, sell: real)
    requires |w| == |vs|
    ensures mid == Weighted(w, VenueMids(vs)) && buy == Weighted(w, Buys(vs)) && sell == Weighted(w, Sells(vs))
  {
    ghost var mids, buys, sells := VenueMids(vs), Buys(vs), Sells(vs);
    mid, buy, sell := 0.0, 0.0, 0.0;
    for i := 0 to |vs|
      invariant mid == Weighted(w[..i], mids[..i])
      invariant buy == Weighted(w[..i], buys[..i])
      invariant sell == Weighted(w[..i], sells[..i])
    {
      assert w[..i + 1][..i] == w[..i] && mids[..i + 1][..i] == mids[..i];
      assert buys[..i + 1][..i] == buys[..i] && sells[..i + 1][..i] == sells[..i];
      mid := mid + Times(vs[i].raw.mid, w[i]);
      buy := buy + Times(vs[i].raw.effectiveBuy, w[i]);
      sell := sell + Times(vs[i].raw.effectiveSell, w[i]);
    }
    assert w[..|vs|] == w && mids[..|vs|] == mids && buys[..|vs|] == buys && sells[..|vs|] == sells;
  }

  /** The effective prices of the venues that carry weight. */
  method CollectPrices(vs: seq<Venue>, w: seq<real>) returns (effBuys: seq<real>, effSells: seq<real>)
    requires |w| == |vs|
    ensures effBuys == Carrying(w, Buys(vs)) && effSells == Carrying(w, Sells(vs))
  {
    ghost var buys, sells := Buys(vs), Sells(vs);
    effBuys, effSells := [], [];
    for i := 0 to |vs|
      invariant effBuys == Carrying(w[..i], buys[..i])
      invariant effSells == Carrying(w[..i], sells[..i])
    {
      assert w[..i + 1][..i] == w[..i];
      assert buys[..i + 1][..i] == buys[..i] && sells[..i + 1][..i] == sells[..i];
      if w[i] > 0.0 {
        effBuys := effBuys + [vs[i].raw.effectiveBuy];
        effSells := effSells + [vs[i].raw.effectiveSell];
      }
    }
    assert w[..|vs|] == w && buys[..|vs|] == buys && sells[..|vs|] == sells;
  }

  method CountVenues(vs: seq<Venue>, p: Policy) returns (coreEligible: nat, warned: nat)
    ensures coreEligible == CoreEligible(vs, p) && warned == Warned(vs)
  {
    coreEligible, warned := 0, 0;
    for i := 0 to |vs|
      invariant coreEligible == CoreEligible(vs[..i], p) && warned == Warned(vs[..i])
    {
      assert vs[..i + 1][..i] == vs[..i];
      if vs[i].raw.venue in p.coreVenues && vs[i].status.state != BLACKLISTED {
        coreEligible := coreEligible + 1;
      }
      if vs[i].status.state == WARN {
        warned := warned + 1;
      }
    }
    assert vs[..|vs|] == vs;
  }

  /** The stale data pause. */
  method CheckStale(nowMs: int, feeds: seq<Feed>, p: Policy) returns (paused: bool)
    ensures paused <==> p.stalePauseMs > 0 && AllStale(nowMs, feeds, p)
  {
    if p.stalePauseMs <= 0 {
      return false;
    }
    for i := 0 to |feeds|
      invariant forall k :: 0 <= k < i ==> nowMs - feeds[k].quote.tsMs >= p.stalePauseMs
    {
      if nowMs - feeds[i].quote.tsMs < p.stalePauseMs {
        return false;
      }
    }
    return true;
  }

  method ComputeConsensus(vs: seq<Venue>, w: seq<real>, median: real, p: Policy) returns (c: Consensus)
    requires |w| == |vs|
    ensures c == ConsensusOf(vs, w, median, p)
  {
    var mid, buy, sell := ComputeSums(vs, w);
    var effBuys, effSells := CollectPrices(vs, w);
    var core, warned := CountVenues(vs, p);
    var bandHigh := Percentile(effBuys, 75.0);
    var bandLow := Percentile(effSells, 25.0);
    var widen := Widening(mid, median, core);
    c := Consensus(mid, buy, sell, bandLow - widen, bandHigh + widen, QualityScore(core, warned, p.minCoreQuorum));
  }

  method Compute(nowMs: int, feeds: seq<Feed>, statuses: map<string, Status>, p: Policy) returns (r: Result)
    requires AllWalkable(feeds, p)
    ensures r == ResultOf(nowMs, feeds, statuses, p)
  {
    var paused := CheckStale(nowMs, feeds, p);
    if paused {
      return NO_CONSENSUS;
    }
    var eligible, mids := ComputeEligible(feeds, p);
    MADNonnegative(mids);
    var median := Median(mids);
    var mad := MAD(mids);
    var vs, newStatuses := ComputeVenues(nowMs, eligible, median, mad, statuses, p);
    VenuesAre(nowMs, feeds, eligible, statuses, p, vs);
    var w := NormalizeTrust(RawTrusts(vs));
    var c := ComputeConsensus(vs, w, median, p);
    r := Result(c, vs, w, newStatuses);
  }

  // ----- Weights -----------------------------------------------------------------------------

  /** A raw trust is zero exactly for a blacklisted venue, and else has the sign of the base trust. */
  lemma RawTrustSigns(nowMs: int, feeds: seq<Feed>, statuses: map<string, Status>, p: Policy, i: nat)
    requires AllWalkable(feeds, p) && i < |feeds|
    ensures var v := Venues(nowMs, feeds, statuses, p)[i];
            && (v.rawTrust == 0.0 <==> v.status.state == BLACKLISTED)
            && (v.rawTrust > 0.0 <==> v.status.state != BLACKLISTED && BaseTrustOf(p, feeds[i].venue) > 0.0)
  {
    var r := RawOf(feeds[i], p);
    MADNonnegative(Mids(feeds));
    var median, mad := MedianOf(Mids(feeds)), MADOf(Mids(feeds));
    var s := StatusOf(statuses, feeds[i].venue);
    var dev := DeviationBps(r.mid, median);
    var isOutlier := RobustZScore(r.mid, median, mad) > 6.0 || dev > p.limits.outlierBpsWarn;
    TrustSigns(BaseTrustOf(p, r.venue),
      Penalties(isOutlier, dev > p.limits.outlierBpsBlacklist, r.spreadBps, nowMs - r.quote.lastMsgTsMs, p.staleMs,
                UpdateVenueStatus(nowMs, s, dev, p.limits).0.state));
  }

  /** No venue that is not blacklisted has a negative base trust. */
  predicate Trusted(vs: seq<Venue>, p: Policy) {
    forall i :: 0 <= i < |vs| && vs[i].status.state != BLACKLISTED ==> BaseTrustOf(p, vs[i].raw.venue) > 0.0
  }

  /**
   Unless the trust in all venues together is negligible, when every weight is zero, exactly the
   blacklisted venues weigh nothing, and the weights are shares exactly when no venue but a
   blacklisted one has a negative base trust.
   */
  lemma WeightsAreShares(nowMs: int, feeds: seq<Feed>, statuses: map<string, Status>, p: Policy)
    requires AllWalkable(feeds, p)
    ensures var vs := Venues(nowMs, feeds, statuses, p);
            var w := Normalized(RawTrusts(vs));
            if SumBy(Positive, RawTrusts(vs)) < EPSILON then AllZero(w)
            else && (forall i :: 0 <= i < |w| ==> (w[i] == 0.0 <==> vs[i].status.state == BLACKLISTED))
                 && (Shares(w) <==> Trusted(vs, p))
  {
    var vs := Venues(nowMs, feeds, statuses, p);
    var raw := RawTrusts(vs);
    forall i | 0 <= i < |vs|
      ensures raw[i] == 0.0 <==> vs[i].status.state == BLACKLISTED
      ensures raw[i] > 0.0 <==> vs[i].status.state != BLACKLISTED && BaseTrustOf(p, vs[i].raw.venue) > 0.0
    {
      RawTrustSigns(nowMs, feeds, statuses, p, i);
    }
    NormalizedShares(raw);
    NormalizedSigns(raw);
    assert Nonnegative(raw) <==> Trusted(vs, p);
  }

  /** So the weights of trusted venues are never negative. */
  lemma WeightsNonnegative(nowMs: int, feeds: seq<Feed>, statuses: map<string, Status>, p: Policy)
    requires AllWalkable(feeds, p) && Trusted(Venues(nowMs, feeds, statuses, p), p)
    ensures Nonnegative(Normalized(RawTrusts(Venues(nowMs, feeds, statuses, p))))
  {
    WeightsAreShares(nowMs, feeds, statuses, p);
  }

  // ----- An uncrossed, convex consensus ------------------------------------------------------

  /** The published mid lies within the mids of the venues that carry weight. */
  lemma MidIsConvex(nowMs: int, feeds: seq<Feed>, statuses: map<string, Status>, p: Policy, lo: real, hi: real)
    requires AllWalkable(feeds, p) && Trusted(Venues(nowMs, feeds, statuses, p), p)
    requires !(p.stalePauseMs > 0 && AllStale(nowMs, feeds, p))
    requires var r := ResultOf(nowMs, feeds, statuses, p);
             !AllZero(r.weights) && CarriedWithin(r.weights, VenueMids(r.venues), lo, hi)
    ensures lo <= ResultOf(nowMs, feeds, statuses, p).consensus.mid <= hi
  {
    var r := ResultOf(nowMs, feeds, statuses, p);
    WeightsAreShares(nowMs, feeds, statuses, p);
    ConvexExactly(r.weights);
  }

  /** Every quote is uncrossed and every fee, slippage and penalty is in range. */
  predicate SaneQuotes(feeds: seq<Feed>, p: Policy) {
    && p.slippageBufferBps >= 0.0 && p.depthPenaltyBps >= 0.0
    && forall f :: f in feeds ==> Uncrossed(f.quote) && 0.0 <= f.quote.feeBpsTaker <= 10000.0
  }

  lemma VenuesUncrossed(nowMs: int, feeds: seq<Feed>, statuses: map<string, Status>, p: Policy, i: nat)
    requires AllWalkable(feeds, p) && SaneQuotes(feeds, p) && i < |feeds|
    ensures var r := Venues(nowMs, feeds, statuses, p)[i].raw;
            r.effectiveSell <= r.mid <= r.effectiveBuy
  {
    var q := feeds[i].quote;
    assert feeds[i] in feeds;
    BuyAboveMid(q, p.sizeNotionalUSD, p.slippageBufferBps, p.depthPenaltyBps);
    SellBelowMid(q, p.sizeNotionalUSD, p.slippageBufferBps, p.depthPenaltyBps);
  }

  /** The consensus is not crossed: selling brings at most mid, buying costs at least mid. */
  lemma ConsensusUncrossed(nowMs: int, feeds: seq<Feed>, statuses: map<string, Status>, p: Policy)
    requires AllWalkable(feeds, p) && Trusted(Venues(nowMs, feeds, statuses, p), p) && SaneQuotes(feeds, p)
    ensures var c := ResultOf(nowMs, feeds, statuses, p).consensus;
            c.sellExec <= c.mid <= c.buyExec
  {
    if !(p.stalePauseMs > 0 && AllStale(nowMs, feeds, p)) {
      var r := ResultOf(nowMs, feeds, statuses, p);
      WeightsNonnegative(nowMs, feeds, statuses, p);
      forall i | 0 <= i < |feeds| ensures Sells(r.venues)[i] <= VenueMids(r.venues)[i] <= Buys(r.venues)[i] {
        VenuesUncrossed(nowMs, feeds, statuses, p, i);
      }
      WeightedOrders(r.weights, Sells(r.venues), VenueMids(r.venues));
      WeightedOrders(r.weights, VenueMids(r.venues), Buys(r.venues));
    }
  }

  // ----- Which policies keep all rounds sound ------------------------------------------------

  predicate TrustConfigured(p: Policy) {
    forall v :: v in p.baseTrust ==> p.baseTrust[v] >= 0.0
  }

  lemma ConfiguredIsTrusted(p: Policy, vs: seq<Venue>)
    requires TrustConfigured(p)
    ensures Trusted(vs, p)
  {
  }

  /** The round is possible: each venue has one quote, and the engine can walk the books. */
  predicate IsRound(feeds: seq<Feed>, p: Policy) {
    AllWalkable(feeds, p) && DistinctVenues(feeds)
  }

  predicate Published(nowMs: int, feeds: seq<Feed>, p: Policy) {
    !(p.stalePauseMs > 0 && AllStale(nowMs, feeds, p))
  }

  /** In every round the weights are shares, or all zero. */
  ghost predicate AlwaysShares(p: Policy) {
    forall nowMs: int, feeds: seq<Feed>, statuses: map<string, Status> | IsRound(feeds, p) ::
      var w := ResultOf(nowMs, feeds, statuses, p).weights;
      Shares(w) || AllZero(w)
  }

  /** In every round with a consensus its mid lies within any bounds on the mids of the venues that carry weight. */
  ghost predicate AlwaysConvex(p: Policy) {
    forall nowMs: int, feeds: seq<Feed>, statuses: map<string, Status>, lo: real, hi: real |
      && IsRound(feeds, p) && Published(nowMs, feeds, p)
      && var r := ResultOf(nowMs, feeds, statuses, p);
         !AllZero(r.weights) && CarriedWithin(r.weights, VenueMids(r.venues), lo, hi) ::
      lo <= ResultOf(nowMs, feeds, statuses, p).consensus.mid <= hi
  }

  /** In every round of sane quotes selling brings at most mid, and buying costs at least mid. */
  ghost predicate AlwaysUncrossed(p: Policy) {
    forall nowMs: int, feeds: seq<Feed>, statuses: map<string, Status> | IsRound(feeds, p) && SaneQuotes(feeds, p) ::
      var c := ResultOf(nowMs, feeds, statuses, p).consensus;
      c.sellExec <= c.mid <= c.buyExec
  }

  lemma {:induction false} LongerThan(names: set<string>) returns (name: string)
    ensures forall n :: n in names ==> |n| < |name|
  {
    if names == {} {
      name := "";
    } else {
      var n :| n in names;
      var rest := LongerThan(names - {n});
      name := rest + n + "x";
    }
  }

  /** A venue new to the breaker whose fresh quote has no spread and is the median keeps its base trust. */
  lemma CleanVenue(nowMs: int, r: VenueRaw, mad: real, p: Policy)
    requires mad >= 0.0 && p.limits.outlierBpsWarn >= 0.0 && p.limits.outlierBpsBlacklist >= 0.0
    requires r.spreadBps == 0.0 && r.quote.lastMsgTsMs == nowMs
    ensures VenueOf(nowMs, r, r.mid, mad, NEW_STATUS, p).rawTrust == BaseTrustOf(p, r.venue)
  {
    assert DeviationBps(r.mid, r.mid) == 0.0 && RobustZScore(r.mid, r.mid, mad) == 0.0;
    var base := BaseTrustOf(p, r.venue);
    assert Times(base, 1.0) == base;
  }

  /** A quote at time one with bid and ask, and any book, at one price. */
  function Flat(price: real, book: seq<Level>, fee: real): Quote {
    Quote(1, price, price, book, book, fee, 1)
  }

  /** A venue with negative base trust and one that is not configured quote the same price. */
  function TwoFeeds(v: string, u: string, price: real, book: seq<Level>, fee: real): seq<Feed> {
    [Feed(v, Flat(price, book, fee)), Feed(u, Flat(price, book, 0.0))]
  }

  lemma TwoMids(v: string, u: string, price: real, book: seq<Level>, fee: real)
    ensures MedianOf(Mids(TwoFeeds(v, u, price, book, fee))) == price
  {
    var mids := Mids(TwoFeeds(v, u, price, book, fee));
    assert mids == [price, price] && mids[..1] == [price] && mids[..1][..0] == [];
    assert Within(mids, price, price) == 2;
    MajorityMedian(mids, price, price);
  }

  lemma WeightsOfTwo(x: real)
    requires x < 0.0
    ensures Normalized([x, UNKNOWN_VENUE_TRUST]) == [x / UNKNOWN_VENUE_TRUST, 1.0]
  {
    var raw := [x, UNKNOWN_VENUE_TRUST];
    assert raw[..1] == [x] && raw[..1][..0] == [];
    assert SumBy(Positive, [x]) == 0.0;
    assert SumBy(Positive, raw) == UNKNOWN_VENUE_TRUST;
  }

  predicate Thresholds(p: Policy) {
    p.limits.outlierBpsWarn >= 0.0 && p.limits.outlierBpsBlacklist >= 0.0
  }

  /** The venue that is not configured then weighs one, and the other is a negative share on top. */
  lemma TwoWeigh(p: Policy, v: string, u: string, price: real, book: seq<Level>, fee: real)
    requires Thresholds(p) && v in p.baseTrust && p.baseTrust[v] < 0.0 && u !in p.baseTrust && price > 0.0
    requires AllWalkable(TwoFeeds(v, u, price, book, fee), p)
    ensures IsRound(TwoFeeds(v, u, price, book, fee), p) && Published(1, TwoFeeds(v, u, price, book, fee), p)
    ensures var r := ResultOf(1, TwoFeeds(v, u, price, book, fee), map[], p);
            && r.weights == [p.baseTrust[v] / UNKNOWN_VENUE_TRUST, 1.0]
            && |r.venues| == 2
            && r.venues[0].raw == RawOf(Feed(v, Flat(price, book, fee)), p)
            && r.venues[1].raw == RawOf(Feed(u, Flat(price, book, 0.0)), p)
  {
    var feeds := TwoFeeds(v, u, price, book, fee);
    TwoMids(v, u, price, book, fee);
    MADNonnegative(Mids(feeds));
    CleanVenue(1, RawOf(feeds[0], p), MADOf(Mids(feeds)), p);
    CleanVenue(1, RawOf(feeds[1], p), MADOf(Mids(feeds)), p);
    assert feeds[0] in feeds;
    assert RawTrusts(Venues(1, feeds, map[], p)) == [p.baseTrust[v], UNKNOWN_VENUE_TRUST];
    WeightsOfTwo(p.baseTrust[v]);
  }

  lemma WeightedTwo(w: real, x: real, y: real)
    ensures Weighted([w, 1.0], [x, y]) == Times(x, w) + y
  {
    assert [w, 1.0][..1] == [w] && [x, y][..1] == [x] && [w][..0] == [] && [x][..0] == [];
    assert Weighted([w], [x]) == Times(x, w);
    assert Times(y, 1.0) == y;
  }

  /** A policy with a negative base trust, and the round that shows it. */
  lemma NegativeTrust(p: Policy) returns (v: string, u: string)
    requires !TrustConfigured(p)
    ensures v in p.baseTrust && p.baseTrust[v] < 0.0 && u !in p.baseTrust
  {
    v :| v in p.baseTrust && p.baseTrust[v] < 0.0;
    u := LongerThan(p.baseTrust.Keys);
  }

  /**
   Every round of every run has weights that are shares, or all zero, exactly for the policies that
   configure no negative base trust.
   */
  lemma SharesExactly(p: Policy)
    requires Thresholds(p)
    ensures AlwaysShares(p) <==> TrustConfigured(p)
  {
    if TrustConfigured(p) {
      forall nowMs: int, feeds: seq<Feed>, statuses: map<string, Status> | IsRound(feeds, p)
        ensures var w := ResultOf(nowMs, feeds, statuses, p).weights;
                Shares(w) || AllZero(w)
      {
        ConfiguredIsTrusted(p, Venues(nowMs, feeds, statuses, p));
        WeightsAreShares(nowMs, feeds, statuses, p);
      }
    } else {
      var v, u := NegativeTrust(p);
      TwoWeigh(p, v, u, 1.0, [], 0.0);
      var w := ResultOf(1, TwoFeeds(v, u, 1.0, [], 0.0), map[], p).weights;
      assert w[0] < 0.0;
    }
  }

  lemma BentByNegativeTrust(p: Policy, v: string, u: string)
    requires Thresholds(p) && v in p.baseTrust && p.baseTrust[v] < 0.0 && u !in p.baseTrust
    ensures !AlwaysConvex(p)
  {
    TwoWeigh(p, v, u, 1.0, [], 0.0);
    var r := ResultOf(1, TwoFeeds(v, u, 1.0, [], 0.0), map[], p);
    assert VenueMids(r.venues) == [1.0, 1.0];
    WeightedTwo(r.weights[0], 1.0, 1.0);
    assert CarriedWithin(r.weights, VenueMids(r.venues), 1.0, 1.0);
    assert r.consensus.mid < 1.0;
  }

  /** The same policies are those whose mid is always one of the quoted mids, or between them. */
  lemma ConvexMidExactly(p: Policy)
    requires Thresholds(p)
    ensures AlwaysConvex(p) <==> TrustConfigured(p)
  {
    if TrustConfigured(p) {
      forall nowMs: int, feeds: seq<Feed>, statuses: map<string, Status>, lo: real, hi: real |
        && IsRound(feeds, p) && Published(nowMs, feeds, p)
        && var r := ResultOf(nowMs, feeds, statuses, p);
           !AllZero(r.weights) && CarriedWithin(r.weights, VenueMids(r.venues), lo, hi)
        ensures lo <= ResultOf(nowMs, feeds, statuses, p).consensus.mid <= hi
      {
        ConfiguredIsTrusted(p, Venues(nowMs, feeds, statuses, p));
        MidIsConvex(nowMs, feeds, statuses, p, lo, hi);
      }
    } else {
      var v, u := NegativeTrust(p);
      BentByNegativeTrust(p, v, u);
    }
  }

  /** A level that is worth the notional, bought and sold whole at its price. */
  lemma WholeLevel(p: Policy, venue: string, fee: real)
    requires p.sizeNotionalUSD > 0.0
    ensures var q := Flat(p.sizeNotionalUSD, [Level(p.sizeNotionalUSD, 1.0)], fee);
            && WalkableQuote(q, p.sizeNotionalUSD)
            && RawOf(Feed(venue, q), p).effectiveBuy == Above(p.sizeNotionalUSD, fee)
            && Uncrossed(q)
  {
    var n := p.sizeNotionalUSD;
    var l := Level(n, 1.0);
    PartWhole(l);
    assert Notional(l) == n;
    assert WalkBook([l], n) == Walk(n, 1.0, 0.0);
  }

  /** And the same are those whose consensus is never crossed, though no quote is. */
  lemma UncrossedExactly(p: Policy)
    requires Thresholds(p) && p.sizeNotionalUSD > 0.0 && p.slippageBufferBps >= 0.0 && p.depthPenaltyBps >= 0.0
    ensures AlwaysUncrossed(p) <==> TrustConfigured(p)
  {
    if TrustConfigured(p) {
      forall nowMs: int, feeds: seq<Feed>, statuses: map<string, Status> | IsRound(feeds, p) && SaneQuotes(feeds, p)
        ensures var c := ResultOf(nowMs, feeds, statuses, p).consensus;
                c.sellExec <= c.mid <= c.buyExec
      {
        ConfiguredIsTrusted(p, Venues(nowMs, feeds, statuses, p));
        ConsensusUncrossed(nowMs, feeds, statuses, p);
      }
    } else {
      var v, u := NegativeTrust(p);
      FeesAreSane(p, v, u);
      FeesCross(p, v, u);
    }
  }

  lemma DoubledShare(w: real, n: real)
    requires w < 0.0 && n > 0.0
    ensures Weighted([w, 1.0], [n + n, n]) < Weighted([w, 1.0], [n, n])
  {
    WeightedTwo(w, n, n);
    WeightedTwo(w, n + n, n);
    TimesCommutes(n, w);
    TimesCommutes(n + n, w);
    TimesAdds(w, n, n);
    assert Times(w, n) < 0.0;
  }

  /** The venue of negative trust charges a fee as high as its price, the other none. */
  function FeeFeeds(p: Policy, v: string, u: string): seq<Feed> {
    TwoFeeds(v, u, p.sizeNotionalUSD, [Level(p.sizeNotionalUSD, 1.0)], 10000.0)
  }

  lemma FeesAreSane(p: Policy, v: string, u: string)
    requires p.sizeNotionalUSD > 0.0 && p.slippageBufferBps >= 0.0 && p.depthPenaltyBps >= 0.0
    ensures AllWalkable(FeeFeeds(p, v, u), p) && SaneQuotes(FeeFeeds(p, v, u), p)
  {
    WholeLevel(p, v, 10000.0);
    WholeLevel(p, u, 0.0);
  }

  lemma FeesCross(p: Policy, v: string, u: string)
    requires Thresholds(p) && p.sizeNotionalUSD > 0.0 && AllWalkable(FeeFeeds(p, v, u), p)
    requires v in p.baseTrust && p.baseTrust[v] < 0.0 && u !in p.baseTrust
    ensures IsRound(FeeFeeds(p, v, u), p)
    ensures var c := ResultOf(1, FeeFeeds(p, v, u), map[], p).consensus;
            c.buyExec < c.mid
  {
    var n := p.sizeNotionalUSD;
    WholeLevel(p, v, 10000.0);
    WholeLevel(p, u, 0.0);
    TwoWeigh(p, v, u, n, [Level(n, 1.0)], 10000.0);
    var r := ResultOf(1, FeeFeeds(p, v, u), map[], p);
    assert Above(n, 10000.0) == n + n && Above(n, 0.0) == n;
    assert VenueMids(r.venues) == [n, n] && Buys(r.venues) == [n + n, n];
    DoubledShare(r.weights[0], n);
  }

  // ----- The band ----------------------------------------------------------------------------

  lemma {:induction false} CarryingDominates(w: seq<real>, u: seq<real>, v: seq<real>)
    requires |w| == |u| == |v| && Dominates(v, u)
    ensures Dominates(Carrying(w, v), Carrying(w, u))
  {
    if w != [] {
      CarryingDominates(w[..|w| - 1], u[..|w| - 1], v[..|w| - 1]);
    }
  }

  lemma MedianNonnegative(vals: seq<real>)
    requires Nonnegative(vals)
    ensures MedianOf(vals) >= 0.0
  {
    SortedOrder(vals);
    forall k | 0 <= k < |vals| ensures Sorted(vals)[k] >= 0.0 {
      assert Sorted(vals)[k] in multiset(Sorted(vals));
      assert Sorted(vals)[k] in multiset(vals);
    }
  }

  lemma WideningNonnegative(mid: real, median: real, core: nat)
    requires median >= 0.0
    ensures Widening(mid, median, core) >= 0.0
  {
    MulNonnegative(if mid < EPSILON then median else mid, WidenBps(core));
  }

  /** With every effective sell at most the effective buy and no negative mid, the band is in order. */
  lemma BandInOrder(nowMs: int, feeds: seq<Feed>, statuses: map<string, Status>, p: Policy)
    requires AllWalkable(feeds, p)
    requires forall i :: 0 <= i < |feeds| ==>
               RawOf(feeds[i], p).effectiveSell <= RawOf(feeds[i], p).effectiveBuy && Mid(feeds[i].quote) >= 0.0
    ensures var c := ResultOf(nowMs, feeds, statuses, p).consensus;
            c.bandLow <= c.bandHigh
  {
    if !(p.stalePauseMs > 0 && AllStale(nowMs, feeds, p)) {
      var r := ResultOf(nowMs, feeds, statuses, p);
      var buys, sells := Carrying(r.weights, Buys(r.venues)), Carrying(r.weights, Sells(r.venues));
      CarryingDominates(r.weights, Sells(r.venues), Buys(r.venues));
      PercentileDominates(sells, buys, 25.0);
      PercentileMonotone(buys, 25.0, 75.0);
      MedianNonnegative(Mids(feeds));
      WideningNonnegative(r.consensus.mid, MedianOf(Mids(feeds)), CoreEligible(r.venues, p));
    }
  }

  // ----- A majority holds over runs ----------------------------------------------------------

  /** One round: the time, the feeds, and an interval. */
  datatype Round = Round(nowMs: int, feeds: seq<Feed>, a: real, b: real)

  /** More than half of the venues quote within an interval that is narrow in basis points. */
  predicate MajorityAgrees(r: Round, p: Policy) {
    && AllWalkable(r.feeds, p) && DistinctVenues(r.feeds)
    && 0.0 < r.a <= r.b && 10000.0 * (r.b - r.a) / r.a <= p.limits.outlierBpsWarn
    && 2 * Within(Mids(r.feeds), r.a, r.b) > |r.feeds|
  }

  /** The venue quotes within the interval whenever it quotes. */
  predicate Agrees(r: Round, venue: string) {
    forall f :: f in r.feeds && f.venue == venue ==> r.a <= Mid(f.quote) <= r.b
  }

  /** The statuses kept by the caller, updated after each round. */
  function StatusesAfter(statuses: map<string, Status>, rounds: seq<Round>, p: Policy, k: nat): map<string, Status>
    requires k <= |rounds| && forall r :: r in rounds ==> AllWalkable(r.feeds, p)
  {
    if k == 0 then statuses
    else
      var before := StatusesAfter(statuses, rounds, p, k - 1);
      before + ResultOf(rounds[k - 1].nowMs, rounds[k - 1].feeds, before, p).newStatuses
  }

  lemma {:induction false} NewStatusesAt(vs: seq<Venue>, venue: string)
    ensures venue in NewStatuses(vs) ==>
              exists i :: 0 <= i < |vs| && vs[i].raw.venue == venue && NewStatuses(vs)[venue] == vs[i].status
  {
    if vs != [] {
      NewStatusesAt(vs[..|vs| - 1], venue);
    }
  }

  /** A venue in the interval that holds the median is no outlier, so the breaker leaves it in OK. */
  lemma CloseVenueStaysOK(nowMs: int, r: VenueRaw, median: real, mad: real, s: Status, p: Policy, a: real, b: real)
    requires mad >= 0.0 && p.limits.outlierBpsWarn <= p.limits.outlierBpsBlacklist
    requires 0.0 < a <= r.mid <= b && a <= median <= b && 10000.0 * (b - a) / a <= p.limits.outlierBpsWarn
    requires s.state == OK
    ensures VenueOf(nowMs, r, median, mad, s, p).status.state == OK
  {
    DeviationBounded(r.mid, median, a, b, p.limits.outlierBpsWarn);
  }

  lemma AgreeingStaysOK(r: Round, statuses: map<string, Status>, p: Policy, i: nat)
    requires MajorityAgrees(r, p) && p.limits.outlierBpsWarn <= p.limits.outlierBpsBlacklist
    requires i < |r.feeds| && r.a <= Mid(r.feeds[i].quote) <= r.b
    requires StatusOf(statuses, r.feeds[i].venue).state == OK
    ensures Venues(r.nowMs, r.feeds, statuses, p)[i].status.state == OK
  {
    MajorityMedian(Mids(r.feeds), r.a, r.b);
    MADNonnegative(Mids(r.feeds));
    CloseVenueStaysOK(r.nowMs, RawOf(r.feeds[i], p), MedianOf(Mids(r.feeds)), MADOf(Mids(r.feeds)),
                      StatusOf(statuses, r.feeds[i].venue), p, r.a, r.b);
  }

  /** In a round with an agreeing majority the median is in the interval and no agreeing venue leaves OK. */
  lemma MajorityRound(r: Round, statuses: map<string, Status>, p: Policy, venue: string)
    requires MajorityAgrees(r, p) && Agrees(r, venue) && p.limits.outlierBpsWarn <= p.limits.outlierBpsBlacklist
    requires StatusOf(statuses, venue).state == OK
    ensures r.a <= MedianOf(Mids(r.feeds)) <= r.b
    ensures StatusOf(statuses + ResultOf(r.nowMs, r.feeds, statuses, p).newStatuses, venue).state == OK
  {
    MajorityMedian(Mids(r.feeds), r.a, r.b);
    var vs := Venues(r.nowMs, r.feeds, statuses, p);
    NewStatusesAt(vs, venue);
    forall i | 0 <= i < |vs| && vs[i].raw.venue == venue ensures vs[i].status.state == OK {
      assert r.feeds[i] in r.feeds;
      AgreeingStaysOK(r, statuses, p, i);
    }
  }

  /**
   If in every round more than half of the venues agree within the warning threshold, whatever the
   others quote, a venue that starts OK and stays with the majority is OK after every round.
   */
  lemma {:induction false} MajorityStaysOK(statuses: map<string, Status>, rounds: seq<Round>, p: Policy,
                                           venue: string, k: nat)
    requires k <= |rounds| && p.limits.outlierBpsWarn <= p.limits.outlierBpsBlacklist
    requires forall r :: r in rounds ==> AllWalkable(r.feeds, p)
    requires forall r :: r in rounds ==> MajorityAgrees(r, p) && Agrees(r, venue)
    requires StatusOf(statuses, venue).state == OK
    ensures StatusOf(StatusesAfter(statuses, rounds, p, k), venue).state == OK
  {
    if k > 0 {
      MajorityStaysOK(statuses, rounds, p, venue, k - 1);
      assert rounds[k - 1] in rounds;
      MajorityRound(rounds[k - 1], StatusesAfter(statuses, rounds, p, k - 1), p, venue);
    }
  }
}
