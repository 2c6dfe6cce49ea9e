/**
 What a round of consensus publishes: each price the balance of the venues that carry weight, the
 band and the quality by the number of core venues, the raw trust by the thresholds, and statuses
 that follow the circuit breaker over all rounds.
 */
module ConsensusPublished {
  import opened Sums
  import opened Statistics
  import opened Pricing
  import opened Trust
  import opened CircuitBreaker
  import opened ConsensusEngine

  // ----- The prices of one venue -------------------------------------------------------------

  /** The depth of a side covers the notional with more than dust. */
  predicate Deep(levels: seq<Level>, n: real)
    requires AllPositive(levels)
  {
    Worths(levels, |levels|) >= n && Bought(levels, n, |levels|) >= 0.0000000001
  }

  /**
   The mid, the fees on top, what a quote without a book is charged, and when the depth is
   insufficient; QuoteIs says what a book gives.
   */
  lemma EffectivePrices(f: Feed, p: Policy)
    requires AllPositive(f.quote.asks) && AllPositive(f.quote.bids) && p.sizeNotionalUSD > 0.0
    ensures var (r, q, n) := (RawOf(f, p), f.quote, p.sizeNotionalUSD);
            var charge := Max(SpreadBps(q.bestBid, q.bestAsk) / 2.0, p.slippageBufferBps);
            && r.venue == f.venue && 2.0 * r.mid == q.bestBid + q.bestAsk
            && r.spreadBps == SpreadBps(q.bestBid, q.bestAsk)
            && 10000.0 * r.effectiveBuy == Times(r.buyExec, 10000.0 + q.feeBpsTaker)
            && 10000.0 * r.effectiveSell == Times(r.sellExec, 10000.0 - q.feeBpsTaker)
            && (q.asks == [] ==> 10000.0 * r.buyExec == Times(q.bestAsk, 10000.0 + charge))
            && (q.bids == [] ==> 10000.0 * r.sellExec == Times(q.bestBid, 10000.0 - charge))
            && (q.asks != [] ==> r.buyExec == Vwap(Buying, q.asks, n, p.depthPenaltyBps).0)
            && (q.bids != [] ==> r.sellExec == Vwap(Selling, q.bids, n, p.depthPenaltyBps).0)
            && (r.sufficientDepth <==> (q.asks == [] || Deep(q.asks, n)) && (q.bids == [] || Deep(q.bids, n)))
  {
    var r, q := RawOf(f, p), f.quote;
    PenaltyTimes(r.buyExec, q.feeBpsTaker);
    PenaltyTimes(r.sellExec, q.feeBpsTaker);
    PenaltyTimes(q.bestAsk, Buffer(q, p.slippageBufferBps));
    PenaltyTimes(q.bestBid, Buffer(q, p.slippageBufferBps));
    if q.asks != [] {
      QuoteIs(Buying, q.asks, p.sizeNotionalUSD, p.depthPenaltyBps);
    }
    if q.bids != [] {
      QuoteIs(Selling, q.bids, p.sizeNotionalUSD, p.depthPenaltyBps);
    }
  }

  // ----- The published prices ----------------------------------------------------------------

  /** How far the values are from x. */
  function From(v: seq<real>, x: real): (d: seq<real>)
    ensures |d| == |v|
  {
    seq(|v|, k requires 0 <= k < |v| => v[k] - x)
  }

  lemma {:induction false} WeightedFrom(w: seq<real>, v: seq<real>, x: real)
    requires |w| == |v|
    ensures Weighted(w, From(v, x)) == Weighted(w, v) - Times(x, SumBy(Self, w))
  {
    if w == [] {
      assert Times(x, 0.0) == 0.0;
    } else {
      var n := |w| - 1;
      WeightedFrom(w[..n], v[..n], x);
      assert From(v, x)[..n] == From(v[..n], x);
      TimesAdds(x, SumBy(Self, w[..n]), w[n]);
      TimesAdds(w[n], v[n], -x);
      TimesCommutes(w[n], v[n] - x);
      TimesCommutes(w[n], v[n]);
      TimesCommutes(w[n], -x);
      TimesNegates(x, w[n]);
      assert v[n] + -x == v[n] - x;
    }
  }

  /** The values above x and those below it balance in their weights. */
  predicate Balances(w: seq<real>, v: seq<real>, x: real) {
    |v| == |w| && Weighted(w, From(v, x)) == 0.0
  }

  /** For shares there is one balance. */
  lemma BalanceIs(w: seq<real>, v: seq<real>, x: real)
    requires |v| == |w| && Shares(w)
    ensures Balances(w, v, x) <==> x == Weighted(w, v)
  {
    WeightedFrom(w, v, x);
    TimesOne(x);
  }

  /**
   In a round with a consensus of trusted venues, mid, buy and sell price are the balance of the
   venues' mids, effective buys and effective sells.
   */
  lemma PublishedBalance(nowMs: int, feeds: seq<Feed>, statuses: map<string, Status>, p: Policy, x: real)
    requires AllWalkable(feeds, p) && Trusted(Venues(nowMs, feeds, statuses, p), p) && Published(nowMs, feeds, p)
    requires !AllZero(ResultOf(nowMs, feeds, statuses, p).weights)
    ensures var r := ResultOf(nowMs, feeds, statuses, p);
            && (Balances(r.weights, VenueMids(r.venues), x) <==> x == r.consensus.mid)
            && (Balances(r.weights, Buys(r.venues), x) <==> x == r.consensus.buyExec)
            && (Balances(r.weights, Sells(r.venues), x) <==> x == r.consensus.sellExec)
  {
    var r := ResultOf(nowMs, feeds, statuses, p);
    WeightsAreShares(nowMs, feeds, statuses, p);
    BalanceIs(r.weights, VenueMids(r.venues), x);
    BalanceIs(r.weights, Buys(r.venues), x);
    BalanceIs(r.weights, Sells(r.venues), x);
  }

  /** So any bounds on what the venues that carry weight charge or give bound what is published. */
  lemma ExecutablesAreConvex(nowMs: int, feeds: seq<Feed>, statuses: map<string, Status>, p: Policy, lo: real, hi: real)
    requires AllWalkable(feeds, p) && Trusted(Venues(nowMs, feeds, statuses, p), p) && Published(nowMs, feeds, p)
    requires !AllZero(ResultOf(nowMs, feeds, statuses, p).weights)
    ensures var r := ResultOf(nowMs, feeds, statuses, p);
            && (CarriedWithin(r.weights, Sells(r.venues), lo, hi) ==> lo <= r.consensus.sellExec <= hi)
            && (CarriedWithin(r.weights, Buys(r.venues), lo, hi) ==> lo <= r.consensus.buyExec <= hi)
  {
    var r := ResultOf(nowMs, feeds, statuses, p);
    WeightsAreShares(nowMs, feeds, statuses, p);
    ConvexExactly(r.weights);
  }

  lemma OneCarries(w: seq<real>, v: seq<real>, i: nat)
    requires |v| == |w| && i < |w| && forall k :: 0 <= k < |w| && w[k] > 0.0 ==> k == i
    ensures CarriedWithin(w, v, v[i], v[i])
  {
  }

  /** A venue that alone carries weight is the consensus. */
  lemma SoleVenue(nowMs: int, feeds: seq<Feed>, statuses: map<string, Status>, p: Policy, i: nat)
    requires AllWalkable(feeds, p) && Trusted(Venues(nowMs, feeds, statuses, p), p) && Published(nowMs, feeds, p)
    requires !AllZero(ResultOf(nowMs, feeds, statuses, p).weights) && i < |feeds|
    requires forall k :: 0 <= k < |feeds| && ResultOf(nowMs, feeds, statuses, p).weights[k] > 0.0 ==> k == i
    ensures var r := ResultOf(nowMs, feeds, statuses, p);
            && r.consensus.mid == r.venues[i].raw.mid
            && r.consensus.buyExec == r.venues[i].raw.effectiveBuy
            && r.consensus.sellExec == r.venues[i].raw.effectiveSell
  {
    var r := ResultOf(nowMs, feeds, statuses, p);
    var raw := r.venues[i].raw;
    OneCarries(r.weights, VenueMids(r.venues), i);
    OneCarries(r.weights, Buys(r.venues), i);
    OneCarries(r.weights, Sells(r.venues), i);
    ExecutablesAreConvex(nowMs, feeds, statuses, p, raw.effectiveSell, raw.effectiveSell);
    ExecutablesAreConvex(nowMs, feeds, statuses, p, raw.effectiveBuy, raw.effectiveBuy);
    MidIsConvex(nowMs, feeds, statuses, p, raw.mid, raw.mid);
  }

  // ----- The raw trust -----------------------------------------------------------------------

  /** The base trust of a venue: as configured, or one twentieth. */
  lemma BaseTrustIs(p: Policy, venue: string)
    ensures BaseTrustOf(p, venue) ==
            if venue in p.baseTrust && p.baseTrust[venue] != 0.0 then p.baseTrust[venue] else 0.05
  {
  }

  /** A venue is an outlier by its distance from the median, in deviations or in basis points. */
  predicate IsFar(mid: real, median: real, mad: real, p: Policy) {
    || 0.6745 * Abs(mid - median) > Times(6.0, mad + 0.0000000001)
    || 10000.0 * Abs(mid - median) > Times(p.limits.outlierBpsWarn, median)
  }

  /**
   The raw trust of a venue: its base trust under the penalties for its distance from the median, its
   spread, the age of its last message, and the state that the breaker leaves it in.  The flags name
   the same conditions.
   */
  lemma RawTrustIs(nowMs: int, feeds: seq<Feed>, statuses: map<string, Status>, p: Policy, i: nat)
    requires AllWalkable(feeds, p) && i < |feeds| && MedianOf(Mids(feeds)) >= 0.0000000001
    ensures var (v, q) := (Venues(nowMs, feeds, statuses, p)[i], feeds[i].quote);
            var (mid, median, mad) := (Mid(q), MedianOf(Mids(feeds)), MADOf(Mids(feeds)));
            var hard := 10000.0 * Abs(mid - median) > Times(p.limits.outlierBpsBlacklist, median);
            && v.rawTrust == TrustOf(BaseTrustOf(p, feeds[i].venue),
                                     Penalties(IsFar(mid, median, mad, p), hard, SpreadBps(q.bestBid, q.bestAsk),
                                               nowMs - q.lastMsgTsMs, p.staleMs, v.status.state))
            && (Outlier in v.flags <==> IsFar(mid, median, mad, p))
            && (HardOutlier in v.flags <==> hard)
            && (InsufficientDepth in v.flags <==> !RawOf(feeds[i], p).sufficientDepth)
  {
    var mid, median := Mid(feeds[i].quote), MedianOf(Mids(feeds));
    MADNonnegative(Mids(feeds));
    ScoreOver(mid, median, MADOf(Mids(feeds)), 6.0);
    DeviationOver(mid, median, p.limits.outlierBpsWarn);
    DeviationOver(mid, median, p.limits.outlierBpsBlacklist);
  }

  // ----- The pause ---------------------------------------------------------------------------

  /** Nothing is published exactly when every quote is as old as the pause says, or there is none. */
  lemma PausedExactly(nowMs: int, feeds: seq<Feed>, statuses: map<string, Status>, p: Policy)
    requires AllWalkable(feeds, p)
    ensures var r := ResultOf(nowMs, feeds, statuses, p);
            && (r.venues == [] <==>
                || feeds == []
                || (p.stalePauseMs > 0 && forall f :: f in feeds ==> nowMs - f.quote.tsMs >= p.stalePauseMs))
            && (r.venues == [] ==> r.weights == [] && r.newStatuses == map[] && r.consensus.mid == 0.0)
            && (r.venues != [] ==> r.venues == Venues(nowMs, feeds, statuses, p) && |r.weights| == |feeds|)
  {
    var r := ResultOf(nowMs, feeds, statuses, p);
    if Published(nowMs, feeds, p) && feeds == [] {
      assert Weighted([], []) == 0.0 && VenueMids([]) == [];
      assert r.venues == [] && r.weights == [];
    }
  }

  // ----- The core venues ---------------------------------------------------------------------

  /** The core venues that quote and are not blacklisted. */
  function CoreSet(vs: seq<Venue>, p: Policy): set<string> {
    set v | v in vs && v.raw.venue in p.coreVenues && v.status.state != BLACKLISTED :: v.raw.venue
  }

  ghost predicate DistinctNames(vs: seq<Venue>) {
    forall i, j :: 0 <= i < j < |vs| ==> vs[i].raw.venue != vs[j].raw.venue
  }

  lemma {:induction false} CoreIsCounted(vs: seq<Venue>, p: Policy)
    requires DistinctNames(vs)
    ensures CoreEligible(vs, p) == |CoreSet(vs, p)|
  {
    if vs != [] {
      var front, last := vs[..|vs| - 1], vs[|vs| - 1];
      CoreIsCounted(front, p);
      assert vs == front + [last];
      assert last.raw.venue !in CoreSet(front, p);
      if last.raw.venue in p.coreVenues && last.status.state != BLACKLISTED {
        assert CoreSet(vs, p) == CoreSet(front, p) + {last.raw.venue};
      } else {
        assert CoreSet(vs, p) == CoreSet(front, p);
      }
    }
  }

  lemma {:induction false} NoneWarned(vs: seq<Venue>)
    ensures Warned(vs) == 0 <==> forall v :: v in vs ==> v.status.state != WARN
  {
    if vs != [] {
      NoneWarned(vs[..|vs| - 1]);
      assert vs == vs[..|vs| - 1] + [vs[|vs| - 1]];
    }
  }

  /**
   The quality is HIGH exactly with four core venues in good standing and no venue under warning, else
   MED exactly with as many core venues as the quorum.
   */
  lemma QualityExactly(nowMs: int, feeds: seq<Feed>, statuses: map<string, Status>, p: Policy)
    requires IsRound(feeds, p) && Published(nowMs, feeds, p)
    ensures var r := ResultOf(nowMs, feeds, statuses, p);
            var core := |CoreSet(r.venues, p)|;
            && (r.consensus.quality == HIGH <==> core >= 4 && forall v :: v in r.venues ==> v.status.state != WARN)
            && (r.consensus.quality == MED <==> r.consensus.quality != HIGH && core >= p.minCoreQuorum)
  {
    var vs := ResultOf(nowMs, feeds, statuses, p).venues;
    assert DistinctNames(vs);
    CoreIsCounted(vs, p);
    NoneWarned(vs);
  }

  // ----- The band ----------------------------------------------------------------------------

  /** How many venues carry weight with that value. */
  function TimesCarried(w: seq<real>, v: seq<real>, x: real): nat
    requires |w| == |v|
  {
    if w == [] then 0
    else
      var n := |w| - 1;
      TimesCarried(w[..n], v[..n], x) + if w[n] > 0.0 && v[n] == x then 1 else 0
  }

  /** What the band is drawn over: the value of each venue that carries weight, once. */
  lemma {:induction false} CarryingExactly(w: seq<real>, v: seq<real>, x: real)
    requires |w| == |v|
    ensures multiset(Carrying(w, v))[x] == TimesCarried(w, v, x)
  {
    if w != [] {
      CarryingExactly(w[..|w| - 1], v[..|w| - 1], x);
    }
  }

  lemma WideningIs(mid: real, median: real, core: nat)
    ensures var ref := if mid < 0.0000000001 then median else mid;
            var bps := if core < 2 then 50.0 else if core == 2 then 25.0 else if core == 3 then 10.0 else 0.0;
            10000.0 * Widening(mid, median, core) == Times(ref, bps)
  {
    var ref := if mid < EPSILON then median else mid;
    assert Times(ref, 0.0) == 0.0;
    assert 10000.0 * (ref * WidenBps(core) / 10000.0) == Times(ref, WidenBps(core));
  }

  lemma BandOf(vs: seq<Venue>, w: seq<real>, median: real, p: Policy)
    requires |w| == |vs|
    ensures var c := ConsensusOf(vs, w, median, p);
            var widen := Widening(c.mid, median, CoreEligible(vs, p));
            && PercentileOf(Carrying(w, Sells(vs)), 25.0) - c.bandLow == widen
            && c.bandHigh - PercentileOf(Carrying(w, Buys(vs)), 75.0) == widen
  {
  }

  /**
   The band reaches from the lower quartile of the carried sells to the upper quartile of the carried
   buys, and beyond both by 50 basis points of mid with fewer than two core venues, 25 with two, 10
   with three and none with more; where mid is nothing, of the median.
   */
  lemma BandExactly(nowMs: int, feeds: seq<Feed>, statuses: map<string, Status>, p: Policy)
    requires IsRound(feeds, p) && Published(nowMs, feeds, p)
    ensures var r := ResultOf(nowMs, feeds, statuses, p);
            var (core, c) := (|CoreSet(r.venues, p)|, r.consensus);
            var ref := if c.mid < 0.0000000001 then MedianOf(Mids(feeds)) else c.mid;
            var bps := if core < 2 then 50.0 else if core == 2 then 25.0 else if core == 3 then 10.0 else 0.0;
            && 10000.0 * (PercentileOf(Carrying(r.weights, Sells(r.venues)), 25.0) - c.bandLow) == Times(ref, bps)
            && 10000.0 * (c.bandHigh - PercentileOf(Carrying(r.weights, Buys(r.venues)), 75.0)) == Times(ref, bps)
  {
    var vs, median := Venues(nowMs, feeds, statuses, p), MedianOf(Mids(feeds));
    assert DistinctNames(vs);
    CoreIsCounted(vs, p);
    BandOf(vs, Normalized(RawTrusts(vs)), median, p);
    WideningIs(ConsensusOf(vs, Normalized(RawTrusts(vs)), median, p).mid, median, CoreEligible(vs, p));
  }

  // ----- Statuses follow the breaker ---------------------------------------------------------

  lemma {:induction false} NewStatusesExactly(vs: seq<Venue>, venue: string)
    requires DistinctNames(vs)
    ensures venue in NewStatuses(vs) <==> exists i :: 0 <= i < |vs| && vs[i].raw.venue == venue
    ensures forall i :: 0 <= i < |vs| && vs[i].raw.venue == venue ==> NewStatuses(vs)[venue] == vs[i].status
  {
    if vs != [] {
      NewStatusesExactly(vs[..|vs| - 1], venue);
    }
  }

  /** What the breaker observes of a venue in one round: its deviation from the median, if it quotes. */
  function ObservedIn(r: Round, venue: string, p: Policy): seq<Observation> {
    if p.stalePauseMs > 0 && AllStale(r.nowMs, r.feeds, p) then [] else Observed(r.nowMs, r.feeds, venue, Mids(r.feeds))
  }

  function Observed(nowMs: int, feeds: seq<Feed>, venue: string, mids: seq<real>): seq<Observation> {
    if feeds == [] then []
    else
      var f := feeds[|feeds| - 1];
      if f.venue == venue then [Observation(nowMs, DeviationBps(Mid(f.quote), MedianOf(mids)))]
      else Observed(nowMs, feeds[..|feeds| - 1], venue, mids)
  }

  lemma {:induction false} ObservedIs(nowMs: int, feeds: seq<Feed>, venue: string, mids: seq<real>)
    requires DistinctVenues(feeds)
    ensures (forall f :: f in feeds ==> f.venue != venue) ==> Observed(nowMs, feeds, venue, mids) == []
    ensures forall i :: 0 <= i < |feeds| && feeds[i].venue == venue ==>
              Observed(nowMs, feeds, venue, mids) ==
              [Observation(nowMs, DeviationBps(Mid(feeds[i].quote), MedianOf(mids)))]
  {
    if feeds != [] {
      ObservedIs(nowMs, feeds[..|feeds| - 1], venue, mids);
      assert feeds[|feeds| - 1] in feeds;
      assert forall f :: f in feeds[..|feeds| - 1] ==> f in feeds;
    }
  }

  /** What it observes over the first k rounds. */
  function ObservedOver(rounds: seq<Round>, venue: string, p: Policy, k: nat): seq<Observation>
    requires k <= |rounds|
  {
    if k == 0 then [] else ObservedOver(rounds, venue, p, k - 1) + ObservedIn(rounds[k - 1], venue, p)
  }

  lemma VenueStatusIs(nowMs: int, feeds: seq<Feed>, statuses: map<string, Status>, p: Policy, i: nat)
    requires AllWalkable(feeds, p) && i < |feeds|
    ensures var (v, s) := (Venues(nowMs, feeds, statuses, p)[i], StatusOf(statuses, feeds[i].venue));
            && v.raw.venue == feeds[i].venue
            && v.status == UpdateVenueStatus(nowMs, s, DeviationBps(Mid(feeds[i].quote), MedianOf(Mids(feeds))),
                                             p.limits).0
  {
    MADNonnegative(Mids(feeds));
  }

  lemma {:induction false} StatusAtPrefix(s: Status, obs: seq<Observation>, more: seq<Observation>, l: Limits, k: nat)
    requires k <= |obs|
    ensures StatusAt(s, obs + more, l, k) == StatusAt(s, obs, l, k)
  {
    if k > 0 {
      StatusAtPrefix(s, obs, more, l, k - 1);
    }
  }

  /** One more observation, or none. */
  lemma FollowsNext(s: Status, obs: seq<Observation>, more: seq<Observation>, l: Limits, now: Status, next: Status)
    requires |more| <= 1 && now == StatusAt(s, obs, l, |obs|)
    requires next == if more == [] then now else UpdateVenueStatus(more[0].nowMs, now, more[0].deviationBps, l).0
    ensures next == StatusAt(s, obs + more, l, |obs + more|)
  {
    StatusAtPrefix(s, obs, more, l, |obs|);
    if more == [] {
      assert obs + more == obs;
    } else {
      assert (obs + more)[|obs|] == more[0];
    }
  }

  lemma QuotingFollows(r: Round, statuses: map<string, Status>, p: Policy, i: nat)
    requires IsRound(r.feeds, p) && Published(r.nowMs, r.feeds, p) && i < |r.feeds|
    ensures var (venue, kept) := (r.feeds[i].venue, ResultOf(r.nowMs, r.feeds, statuses, p).newStatuses);
            var dev := DeviationBps(Mid(r.feeds[i].quote), MedianOf(Mids(r.feeds)));
            && venue in kept
            && kept[venue] == UpdateVenueStatus(r.nowMs, StatusOf(statuses, venue), dev, p.limits).0
            && ObservedIn(r, venue, p) == [Observation(r.nowMs, dev)]
  {
    var vs := Venues(r.nowMs, r.feeds, statuses, p);
    assert DistinctNames(vs);
    NewStatusesExactly(vs, r.feeds[i].venue);
    ObservedIs(r.nowMs, r.feeds, r.feeds[i].venue, Mids(r.feeds));
    VenueStatusIs(r.nowMs, r.feeds, statuses, p, i);
  }

  lemma SilentStays(r: Round, statuses: map<string, Status>, p: Policy, venue: string)
    requires IsRound(r.feeds, p)
    requires Published(r.nowMs, r.feeds, p) ==> forall f :: f in r.feeds ==> f.venue != venue
    ensures venue !in ResultOf(r.nowMs, r.feeds, statuses, p).newStatuses && ObservedIn(r, venue, p) == []
  {
    if Published(r.nowMs, r.feeds, p) {
      var vs := Venues(r.nowMs, r.feeds, statuses, p);
      assert DistinctNames(vs);
      NewStatusesExactly(vs, venue);
      ObservedIs(r.nowMs, r.feeds, venue, Mids(r.feeds));
      forall i | 0 <= i < |vs| ensures vs[i].raw.venue != venue {
        assert r.feeds[i] in r.feeds;
      }
    }
  }

  /** The status of a venue after one round. */
  function StatusNext(r: Round, s: Status, p: Policy, venue: string): Status {
    var obs := ObservedIn(r, venue, p);
    if obs == [] then s else UpdateVenueStatus(obs[0].nowMs, s, obs[0].deviationBps, p.limits).0
  }

  /** One round moves the status of a venue by what the breaker observes of it. */
  lemma RoundFollows(r: Round, statuses: map<string, Status>, p: Policy, venue: string)
    requires IsRound(r.feeds, p)
    ensures StatusOf(statuses + ResultOf(r.nowMs, r.feeds, statuses, p).newStatuses, venue) ==
            StatusNext(r, StatusOf(statuses, venue), p, venue)
  {
    if i :| Published(r.nowMs, r.feeds, p) && 0 <= i < |r.feeds| && r.feeds[i].venue == venue {
      QuotingFollows(r, statuses, p, i);
    } else {
      SilentStays(r, statuses, p, venue);
    }
  }

  ghost predicate AreRounds(rounds: seq<Round>, p: Policy) {
    forall r :: r in rounds ==> IsRound(r.feeds, p)
  }

  /** The status of a venue after k rounds, each moving it by what the breaker observes of it. */
  function StatusOver(s: Status, rounds: seq<Round>, p: Policy, venue: string, k: nat): Status
    requires k <= |rounds|
  {
    if k == 0 then s else StatusNext(rounds[k - 1], StatusOver(s, rounds, p, venue, k - 1), p, venue)
  }

  lemma {:induction false} KeptIsOver(statuses: map<string, Status>, rounds: seq<Round>, p: Policy, venue: string,
                                      k: nat)
    requires AreRounds(rounds, p) && k <= |rounds|
    ensures StatusOf(StatusesAfter(statuses, rounds, p, k), venue) ==
            StatusOver(StatusOf(statuses, venue), rounds, p, venue, k)
  {
    if k > 0 {
      KeptIsOver(statuses, rounds, p, venue, k - 1);
      assert rounds[k - 1] in rounds;
      RoundFollows(rounds[k - 1], StatusesAfter(statuses, rounds, p, k - 1), p, venue);
    }
  }

  lemma AtMostOneObserved(r: Round, venue: string, p: Policy)
    ensures |ObservedIn(r, venue, p)| <= 1
  {
    AtMostOne(r.nowMs, r.feeds, venue, Mids(r.feeds));
  }

  lemma {:induction false} AtMostOne(nowMs: int, feeds: seq<Feed>, venue: string, mids: seq<real>)
    ensures |Observed(nowMs, feeds, venue, mids)| <= 1
  {
    if feeds != [] {
      AtMostOne(nowMs, feeds[..|feeds| - 1], venue, mids);
    }
  }

  lemma {:induction false} OverIsBreaker(s: Status, rounds: seq<Round>, p: Policy, venue: string, k: nat)
    requires k <= |rounds|
    ensures var obs := ObservedOver(rounds, venue, p, k);
            StatusOver(s, rounds, p, venue, k) == StatusAt(s, obs, p.limits, |obs|)
  {
    if k > 0 {
      OverIsBreaker(s, rounds, p, venue, k - 1);
      AtMostOneObserved(rounds[k - 1], venue, p);
      var now := StatusOver(s, rounds, p, venue, k - 1);
      FollowsNext(s, ObservedOver(rounds, venue, p, k - 1), ObservedIn(rounds[k - 1], venue, p), p.limits, now,
                  StatusNext(rounds[k - 1], now, p, venue));
    }
  }

  /**
   Over any rounds the status that is kept of a venue is that of the circuit breaker run over the
   deviations of its mids from the median, in the rounds that publish and in which it quotes.
   */
  lemma StatusesFollowBreaker(statuses: map<string, Status>, rounds: seq<Round>, p: Policy, venue: string, k: nat)
    requires AreRounds(rounds, p) && k <= |rounds|
    ensures var obs := ObservedOver(rounds, venue, p, k);
            StatusOf(StatusesAfter(statuses, rounds, p, k), venue) ==
            StatusAt(StatusOf(statuses, venue), obs, p.limits, |obs|)
  {
    KeptIsOver(statuses, rounds, p, venue, k);
    OverIsBreaker(StatusOf(statuses, venue), rounds, p, venue, k);
  }
}
