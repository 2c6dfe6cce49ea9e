/**
 What the allocator decides, said of the inputs: exactly which intents it approves, how much of each
 it deploys, why it rejects the others, what releasing undoes, and that nothing rises while the
 system does not run.
 */
module AllocatorDecisions {
  import opened Sums
  import opened MapSums
  import opened Allocator
  import opened AllocatorCaps
  import DynamicCap
  import OpenInterest

  // ----- The gates, condition by condition ---------------------------------------------------

  predicate Running(mode: string) {
    mode == "RUNNING" || mode == ""
  }

  /** The quality is at least the minimum; an unknown minimum asks for nothing. */
  predicate QualityMeets(quality: string, min: string) {
    && (min == "HIGH" ==> quality == "HIGH")
    && (min == "MED" ==> quality == "HIGH" || quality == "MED")
    && (min == "LOW" ==> quality == "HIGH" || quality == "MED" || quality == "LOW")
  }

  /** The quality is what the policy asks for the strategy's family: HIGH for a strategy of none. */
  predicate QualityAllowed(strategy: string, quality: string, p: Policy) {
    if strategy in {"CROSS_VENUE_ARB", "BASIS_CONVERGENCE", "DEX_CEX_ARB", "L2_BRIDGE_ARB"} then
      QualityMeets(quality, p.minQualityForArb)
    else if strategy in {"FUNDING_CARRY", "FUNDING_DIFFERENTIAL", "FUNDING_CARRY_REVERSE", "FUNDING_CARRY_EXIT",
                         "FUNDING_DIFFERENTIAL_EXIT", "FUNDING_CARRY_REVERSE_EXIT"} then
      QualityMeets(quality, p.minQualityForFunding)
    else if strategy in {"SPREAD_CAPTURE", "LIQUIDATION_CONTRA", "CASCADE_CONTRA", "CORRELATION_BREAK"} then
      QualityMeets(quality, p.minQualityForLiquidity)
    else strategy == "MANUAL" || quality == "HIGH"
  }

  lemma QualityExactly(strategy: string, quality: string, p: Policy)
    ensures QualityRank(quality) >= QualityRank(MinQuality(strategy, p)) <==> QualityAllowed(strategy, quality, p)
  {
    assert QualityRank("HIGH") == 2 && QualityRank("") == -1;
  }

  /** The cap that counts: the configured one, or a lower positive dynamic one. */
  function CapThatCounts(strategy: string, dynCap: real, p: Policy): real {
    var cap := Get(p.perStrategyMaxUSD, strategy);
    if dynCap > 0.0 then Min(dynCap, cap) else cap
  }

  lemma CapIs(strategy: string, dynCap: real, p: Policy)
    ensures StrategyCap(strategy, dynCap, p) == CapThatCounts(strategy, dynCap, p)
  {
  }

  /** The intent is within its percentage of the strategy's cap. */
  predicate Concentrated(notional: real, cap: real, p: Policy) {
    p.maxSingleIntentPct > 0.0 && 100.0 * notional > Times(cap, p.maxSingleIntentPct)
  }

  /** Every leg is on a configured venue with room for it. */
  predicate LegsAllowed(s: State, legs: seq<Leg>, p: Policy) {
    forall k :: 0 <= k < |legs| ==>
      && Get(p.perVenueMaxUSD, legs[k].venue) != 0.0
      && Get(s.venueDeployed, legs[k].venue) + legs[k].notionalUSD <= Get(p.perVenueMaxUSD, legs[k].venue)
  }

  /** What is left of the strategy's cap and, where capital is configured, of the equity. */
  ghost function Room(s: State, i: Intent, x: Context, p: Policy): real {
    var available := CapThatCounts(i.strategy, x.dynCap, p) - Get(s.strategyDeployed, i.strategy);
    if p.initialCapitalUSD > 0.0 then
      Min(available, p.initialCapitalUSD + s.cumulativePnL - Sum(s.strategyDeployed))
    else available
  }

  /** All that the gates ask. */
  ghost predicate Allowed(s: State, i: Intent, x: Context, p: Policy) {
    && Running(x.systemMode)
    && QualityAllowed(i.strategy, x.quality, p)
    && Get(p.perStrategyMaxUSD, i.strategy) != 0.0
    && !Concentrated(TotalNotional(i.legs), CapThatCounts(i.strategy, x.dynCap, p), p)
    && LegsAllowed(s, i.legs, p)
    && Room(s, i, x, p) > 0.0
  }

  lemma ConcentrationIs(notional: real, cap: real, p: Policy)
    ensures notional > cap * p.maxSingleIntentPct / 100.0 <==> 100.0 * notional > Times(cap, p.maxSingleIntentPct)
  {
  }

  lemma {:induction false} VenueGateExactly(venueDeployed: map<string, real>, legs: seq<Leg>, p: Policy)
    ensures VenueGate(venueDeployed, legs, p).Open? <==>
              forall k :: 0 <= k < |legs| ==>
                && Get(p.perVenueMaxUSD, legs[k].venue) != 0.0
                && Get(venueDeployed, legs[k].venue) + legs[k].notionalUSD <= Get(p.perVenueMaxUSD, legs[k].venue)
  {
    if legs != [] {
      VenueGateExactly(venueDeployed, legs[1..], p);
      assert forall k :: 0 <= k < |legs| - 1 ==> legs[1..][k] == legs[k + 1];
      assert forall k :: 0 < k < |legs| ==> legs[1..][k - 1] == legs[k];
    }
  }

  lemma GatesExactly(s: State, i: Intent, x: Context, p: Policy)
    ensures Gates(s, i, x, p).Open? <==> Allowed(s, i, x, p)
  {
    QualityExactly(i.strategy, x.quality, p);
    CapIs(i.strategy, x.dynCap, p);
    ConcentrationIs(TotalNotional(i.legs), CapThatCounts(i.strategy, x.dynCap, p), p);
    VenueGateExactly(s.venueDeployed, i.legs, p);
  }

  // ----- How much is approved ----------------------------------------------------------------

  /** The part of the intent that its room allows. */
  ghost function Share(notional: real, room: real): real {
    if notional > 0.0 && notional > room then room / notional else 1.0
  }

  lemma ShareTimes(notional: real, room: real)
    requires room > 0.0 && notional >= 0.0
    ensures Times(notional, Share(notional, room)) == Min(notional, room)
  {
    if notional > room {
      assert room / notional * notional == room;
    }
  }

  /** The two scales together are the share of the lesser room. */
  lemma ScalesMeet(notional: real, available: real, capital: real)
    requires available > 0.0 && capital > 0.0 && notional >= 0.0
    ensures CapitalScale(capital, notional, StrategyScale(available, notional)) ==
            Share(notional, Min(available, capital))
  {
    var f := StrategyScale(available, notional);
    StrategyScaleFits(available, notional);
    ShareTimes(notional, available);
    if notional > 0.0 {
      QuotientsOrder(available, capital, notional);
      QuotientsOrder(capital, notional, notional);
      assert notional / notional == 1.0;
    }
  }

  lemma QuotientsOrder(x: real, y: real, d: real)
    requires d > 0.0
    ensures x / d < y / d <==> x < y
  {
    assert x / d * d == x && y / d * d == y;
    if x / d < y / d {
      assert (y / d - x / d) * d > 0.0;
      assert (y / d - x / d) * d == y - x;
    } else {
      MulMonotone(y / d, x / d, d);
    }
  }

  /** With non-negative legs the scale before the multiplier is that share. */
  lemma FitScaleIs(s: State, i: Intent, x: Context, p: Policy)
    requires Gates(s, i, x, p).Open? && NonnegativeLegs(i.legs)
    ensures FitScale(s, i, x, p) == Share(TotalNotional(i.legs), Room(s, i, x, p))
  {
    var n, available := TotalNotional(i.legs), Available(s, i.strategy, x.dynCap, p);
    CapIs(i.strategy, x.dynCap, p);
    NonnegativeSum(NotionalOf, i.legs);
    VenueGateFits(s.venueDeployed, i.legs, p);
    StrategyScaleFits(available, n);
    VenueLoopNeverFires(s.venueDeployed, i.legs, StrategyScale(available, n), p);
    if p.initialCapitalUSD > 0.0 {
      ScalesMeet(n, available, CapitalAvailable(s, p));
    }
  }

  function KellyShare(p: Policy): real {
    if p.kellyFraction > 0.0 then Min(p.kellyFraction, 1.0) else 1.0
  }

  /**
   An intent of non-negative legs is approved exactly when the gates allow it, the part that its room
   and the multiplier leave is at least a tenth, and a twentieth after Kelly's fraction; it is then
   scaled to that part.
   */
  lemma ApprovedExactly(s: State, i: Intent, x: Context, p: Policy)
    requires NonnegativeLegs(i.legs)
    ensures var share := Times(Share(TotalNotional(i.legs), Room(s, i, x, p)), x.oiMultiplier);
            && (Decide(s, i, x, p).Approved? <==>
                Allowed(s, i, x, p) && share >= 0.1 && Times(share, KellyShare(p)) >= 0.05)
            && (Decide(s, i, x, p).Approved? ==> Decide(s, i, x, p).scale == Times(share, KellyShare(p)))
  {
    GatesExactly(s, i, x, p);
    if Gates(s, i, x, p).Open? {
      FitScaleIs(s, i, x, p);
    }
  }

  /**
   An approval deploys, with the strategy, the lesser of the notional and the room, times the
   multiplier and Kelly's fraction; and with each venue its part of that.
   */
  lemma ApprovalDeploys(s: State, i: Intent, x: Context, p: Policy, strategy: string, venue: string)
    requires Decide(s, i, x, p).Approved? && NonnegativeLegs(i.legs)
    ensures var (d, s') := (Decide(s, i, x, p), Evaluated(s, i, x, p));
            var size := Times(Times(Min(TotalNotional(i.legs), Room(s, i, x, p)), x.oiMultiplier), KellyShare(p));
            && Get(s'.strategyDeployed, strategy) ==
               Get(s.strategyDeployed, strategy) + (if strategy == i.strategy then size else 0.0)
            && Get(s'.venueDeployed, venue) == Get(s.venueDeployed, venue) + Times(OnVenue(i.legs, venue), d.scale)
            && Times(TotalNotional(i.legs), d.scale) == size
            && s'.approved == s.approved + 1 && s'.rejected == s.rejected
  {
    var (n, room, d) := (TotalNotional(i.legs), Room(s, i, x, p), Decide(s, i, x, p));
    ApprovedExactly(s, i, x, p);
    NonnegativeSum(NotionalOf, i.legs);
    ShareTimes(n, room);
    TimesThrice(n, Share(n, room), x.oiMultiplier, KellyShare(p));
    ScaledSum(venue, i.legs, d.scale);
    WithLegsAt(s.venueDeployed, Scaled(i.legs, d.scale), venue);
  }

  lemma TimesThrice(n: real, f: real, a: real, b: real)
    ensures Times(n, Times(Times(f, a), b)) == Times(Times(Times(n, f), a), b)
  {
  }

  /** What the intent expects is kept in proportion to its size. */
  lemma ExpectationInProportion(e: Expected, legs: seq<Leg>, scale: real)
    ensures var (e', n, n') := (ScaledExpected(e, scale), TotalNotional(legs), TotalNotional(Scaled(legs, scale)));
            Times(e'.profitUSDNet, n) == Times(e.profitUSDNet, n') && Times(e'.feesUSDEst, n) == Times(e.feesUSDEst, n')
  {
    var n := TotalNotional(legs);
    ScaledSum("", legs, scale);
    TimesSwaps(e.profitUSDNet, scale, n);
    TimesSwaps(e.feesUSDEst, scale, n);
  }

  lemma TimesSwaps(a: real, b: real, c: real)
    ensures Times(Times(a, b), c) == Times(a, Times(c, b))
  {
  }

  /** The multiplier is that of the first leg's venue, and the dynamic cap that of the strategy, where there are any. */
  lemma TrackersDecide(e: Engine, strategy: string, symbol: string, legs: seq<Leg>, nowMs: int)
    ensures e.OIMultiplier(symbol, legs, nowMs) ==
            if e.tracker == null || legs == [] then 1.0
            else OpenInterest.Multiplier(e.tracker.data, legs[0].venue, symbol, e.policy.baselineOI, nowMs)
    ensures e.DynCap(strategy) ==
            if e.dynAlloc == null then 0.0
            else DynamicCap.Adjusted(e.dynAlloc.baseCaps, e.dynAlloc.performance, strategy)
  {
  }

  // ----- Rejections --------------------------------------------------------------------------

  /** The reason holds of the inputs. */
  ghost predicate Explains(reason: Reason, s: State, i: Intent, x: Context, p: Policy) {
    var (n, cap) := (TotalNotional(i.legs), CapThatCounts(i.strategy, x.dynCap, p));
    match reason
    case SystemMode(mode) => mode == x.systemMode && !Running(mode)
    case QualityBelowMinimum => !QualityAllowed(i.strategy, x.quality, p)
    case StrategyNotConfigured => Get(p.perStrategyMaxUSD, i.strategy) == 0.0
    case SingleIntentConcentration => Concentrated(n, cap, p)
    case StrategyCapExceeded => Get(s.strategyDeployed, i.strategy) >= cap
    case VenueNotConfigured(venue) => exists k :: NotConfiguredAt(k, venue, i.legs, p)
    case VenueCapExceeded(venue) => exists k :: OverCapAt(k, venue, s.venueDeployed, i.legs, p)
    case CapitalExhausted =>
      p.initialCapitalUSD > 0.0 && Sum(s.strategyDeployed) >= p.initialCapitalUSD + s.cumulativePnL
    case InsufficientNotional => Allowed(s, i, x, p) && Times(Share(n, Room(s, i, x, p)), x.oiMultiplier) < 0.1
    case KellyTooSmall =>
      Allowed(s, i, x, p) && Times(Times(Share(n, Room(s, i, x, p)), x.oiMultiplier), KellyShare(p)) < 0.05
  }

  predicate NotConfiguredAt(k: int, venue: string, legs: seq<Leg>, p: Policy) {
    0 <= k < |legs| && legs[k].venue == venue && Get(p.perVenueMaxUSD, venue) == 0.0
  }

  predicate OverCapAt(k: int, venue: string, deployed: map<string, real>, legs: seq<Leg>, p: Policy) {
    && 0 <= k < |legs| && legs[k].venue == venue
    && Get(deployed, venue) + legs[k].notionalUSD > Get(p.perVenueMaxUSD, venue)
  }

  /** What a venue refuses a leg for is true of it. */
  lemma {:induction false} VenueRefusal(deployed: map<string, real>, legs: seq<Leg>, p: Policy) returns (k: nat)
    requires VenueGate(deployed, legs, p).Shut?
    ensures var reason := VenueGate(deployed, legs, p).reason;
            || (reason.VenueNotConfigured? && NotConfiguredAt(k, reason.venue, legs, p))
            || (reason.VenueCapExceeded? && OverCapAt(k, reason.venue, deployed, legs, p))
  {
    var cap := Get(p.perVenueMaxUSD, legs[0].venue);
    if cap == 0.0 || Get(deployed, legs[0].venue) + legs[0].notionalUSD > cap {
      k := 0;
    } else {
      k := VenueRefusal(deployed, legs[1..], p);
      k := k + 1;
    }
  }

  /** Every rejection is for a reason that holds; the mode comes first, then the quality. */
  lemma RejectionExplained(s: State, i: Intent, x: Context, p: Policy)
    requires NonnegativeLegs(i.legs) && Decide(s, i, x, p).Rejected?
    ensures var reason := Decide(s, i, x, p).reason;
            && Explains(reason, s, i, x, p)
            && (reason.SystemMode? <==> !Running(x.systemMode))
            && (reason == QualityBelowMinimum <==> Running(x.systemMode) && !QualityAllowed(i.strategy, x.quality, p))
  {
    QualityExactly(i.strategy, x.quality, p);
    CapIs(i.strategy, x.dynCap, p);
    ConcentrationIs(TotalNotional(i.legs), CapThatCounts(i.strategy, x.dynCap, p), p);
    GatesExactly(s, i, x, p);
    if Gates(s, i, x, p).Open? {
      FitScaleIs(s, i, x, p);
    } else if VenueGate(s.venueDeployed, i.legs, p).Shut? {
      var k := VenueRefusal(s.venueDeployed, i.legs, p);
    }
  }

  /** A rejection is counted, and nothing else changes. */
  lemma RejectionOnlyCounts(s: State, i: Intent, x: Context, p: Policy, r: Reason)
    requires Decide(s, i, x, p).Rejected?
    ensures var s' := Evaluated(s, i, x, p);
            && s'.(rejected := s.rejected) == s
            && Count(s'.rejected, r) == Count(s.rejected, r) + if r == Decide(s, i, x, p).reason then 1 else 0
  {
  }

  // ----- Over runs ---------------------------------------------------------------------------

  /** An evaluation in any other mode than RUNNING, or a release that is not negative, or a profit. */
  predicate Halted(c: Call) {
    match c
    case Evaluate(_, context) => !Running(context.systemMode)
    case Release(_, _, notional) => notional >= 0.0
    case PnL(_, _) => true
  }

  lemma HaltedStep(s: State, c: Call, p: Policy, strategy: string, venue: string)
    requires Halted(c) && Get(s.strategyDeployed, strategy) >= 0.0 && Get(s.venueDeployed, venue) >= 0.0
    ensures var s' := Apply(s, c, p);
            && 0.0 <= Get(s'.strategyDeployed, strategy) <= Get(s.strategyDeployed, strategy)
            && 0.0 <= Get(s'.venueDeployed, venue) <= Get(s.venueDeployed, venue)
            && s'.approved == s.approved
  {
    if c.Evaluate? {
      GatesExactly(s, c.intent, c.context, p);
    }
  }

  /** While the system does not run nothing is approved, and nothing deployed rises. */
  lemma {:induction false} NothingRises(run: seq<Call>, p: Policy, m: nat, n: nat, strategy: string, venue: string)
    requires m <= n <= |run| && forall k :: m <= k < n ==> Halted(run[k])
    requires Get(StateAt(run, p, m).strategyDeployed, strategy) >= 0.0
    requires Get(StateAt(run, p, m).venueDeployed, venue) >= 0.0
    ensures var (before, after) := (StateAt(run, p, m), StateAt(run, p, n));
            && 0.0 <= Get(after.strategyDeployed, strategy) <= Get(before.strategyDeployed, strategy)
            && 0.0 <= Get(after.venueDeployed, venue) <= Get(before.venueDeployed, venue)
            && after.approved == before.approved
  {
    if m < n {
      NothingRises(run, p, m, n - 1, strategy, venue);
      HaltedStep(StateAt(run, p, n - 1), run[n - 1], p, strategy, venue);
    }
  }

  /** The decision of call k, if it is an evaluation. */
  ghost function DecisionAt(run: seq<Call>, p: Policy, k: nat): Decision
    requires k < |run| && run[k].Evaluate?
  {
    Decide(StateAt(run, p, k), run[k].intent, run[k].context, p)
  }

  /** How many of the first n calls were approved. */
  ghost function ApprovedIn(run: seq<Call>, p: Policy, n: nat): nat
    requires n <= |run|
  {
    if n == 0 then 0
    else ApprovedIn(run, p, n - 1) + if run[n - 1].Evaluate? && DecisionAt(run, p, n - 1).Approved? then 1 else 0
  }

  /** How many were rejected for that reason. */
  ghost function RejectedIn(run: seq<Call>, p: Policy, n: nat, r: Reason): nat
    requires n <= |run|
  {
    if n == 0 then 0
    else
      RejectedIn(run, p, n - 1, r) + if run[n - 1].Evaluate? && DecisionAt(run, p, n - 1) == Rejected(r) then 1 else 0
  }

  function PnLOf(c: Call): real {
    if c.PnL? then c.pnl else 0.0
  }

  function FeesOf(c: Call): real {
    if c.PnL? then c.fees else 0.0
  }

  function Fills(run: seq<Call>, n: nat): nat
    requires n <= |run|
  {
    if n == 0 then 0 else Fills(run, n - 1) + if run[n - 1].PnL? then 1 else 0
  }

  ghost predicate Counted(s: State, approved: nat, rejected: nat, r: Reason, pnl: real, fees: real, fills: nat) {
    && s.approved == approved && Count(s.rejected, r) == rejected
    && s.cumulativePnL == pnl && s.totalFees == fees && s.fillCount == fills
  }

  lemma CountedNext(s: State, c: Call, p: Policy, r: Reason)
    ensures var yes := c.Evaluate? && Decide(s, c.intent, c.context, p).Approved?;
            var no := c.Evaluate? && Decide(s, c.intent, c.context, p) == Rejected(r);
            Counted(Apply(s, c, p), s.approved + (if yes then 1 else 0), Count(s.rejected, r) + (if no then 1 else 0),
                    r, s.cumulativePnL + PnLOf(c), s.totalFees + FeesOf(c), s.fillCount + if c.PnL? then 1 else 0)
  {
  }

  /** Every evaluation is counted once, by its outcome; profits and fees add up, and fills are counted. */
  lemma {:induction false} EveryCallCounted(run: seq<Call>, p: Policy, n: nat, r: Reason)
    requires n <= |run|
    ensures Counted(StateAt(run, p, n), ApprovedIn(run, p, n), RejectedIn(run, p, n, r), r,
                    SumBy(PnLOf, run[..n]), SumBy(FeesOf, run[..n]), Fills(run, n))
  {
    if n > 0 {
      EveryCallCounted(run, p, n - 1, r);
      CountedNext(StateAt(run, p, n - 1), run[n - 1], p, r);
      assert run[..n][..n - 1] == run[..n - 1];
    }
  }

  // ----- Releasing undoes --------------------------------------------------------------------

  /** The legs of a strategy released one after another, the last one first. */
  function LegsReleased(s: State, strategy: string, legs: seq<Leg>): State
    decreases |legs|
  {
    if legs == [] then s
    else
      var last := legs[|legs| - 1];
      LegsReleased(Released(s, strategy, last.venue, last.notionalUSD), strategy, legs[..|legs| - 1])
  }

  lemma {:induction false} ReleasedTo(s: State, strategy: string, legs: seq<Leg>, venue: string, a: real, b: real)
    requires NonnegativeLegs(legs) && a >= 0.0 && b >= 0.0
    requires Get(s.strategyDeployed, strategy) == a + TotalNotional(legs)
    requires Get(s.venueDeployed, venue) == b + OnVenue(legs, venue)
    ensures var s' := LegsReleased(s, strategy, legs);
            Get(s'.strategyDeployed, strategy) == a && Get(s'.venueDeployed, venue) == b
    decreases |legs|
  {
    if legs != [] {
      var front, last := legs[..|legs| - 1], legs[|legs| - 1];
      NonnegativeSum(NotionalOf, front);
      NonnegativeSum(IsOn(venue), front);
      ReleasedTo(Released(s, strategy, last.venue, last.notionalUSD), strategy, front, venue, a, b);
    }
  }

  lemma ScaledNonnegative(legs: seq<Leg>, scale: real)
    requires NonnegativeLegs(legs) && scale >= 0.0
    ensures NonnegativeLegs(Scaled(legs, scale))
  {
    forall k | 0 <= k < |legs| ensures Scaled(legs, scale)[k].notionalUSD >= 0.0 {
      MulNonnegative(legs[k].notionalUSD, scale);
    }
  }

  /** Releasing the legs of an approval, as they were scaled, leaves strategy and venues as before it. */
  lemma ReleaseUndoes(s: State, i: Intent, x: Context, p: Policy, venue: string)
    requires Decide(s, i, x, p).Approved? && NonnegativeLegs(i.legs)
    requires Get(s.strategyDeployed, i.strategy) >= 0.0 && Get(s.venueDeployed, venue) >= 0.0
    ensures var adjusted := Scaled(i.legs, Decide(s, i, x, p).scale);
            var s' := LegsReleased(Evaluated(s, i, x, p), i.strategy, adjusted);
            && Get(s'.strategyDeployed, i.strategy) == Get(s.strategyDeployed, i.strategy)
            && Get(s'.venueDeployed, venue) == Get(s.venueDeployed, venue)
  {
    var adjusted := Scaled(i.legs, Decide(s, i, x, p).scale);
    ScaledNonnegative(i.legs, Decide(s, i, x, p).scale);
    WithLegsAt(s.venueDeployed, adjusted, venue);
    ReleasedTo(Evaluated(s, i, x, p), i.strategy, adjusted, venue, Get(s.strategyDeployed, i.strategy),
               Get(s.venueDeployed, venue));
  }
}
