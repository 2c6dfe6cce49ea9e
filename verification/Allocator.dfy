/**
 The capital allocator: intents pass a row of gates, are scaled to the tightest cap, and what is
 approved counts against the caps of the strategy and the venues until it is released.

 The system mode, the consensus quality and the clock are inputs.
 */
module Allocator {
  import opened Sums
  import opened MapSums
  import DynamicCap
  import OpenInterest

  datatype Policy = Policy(perStrategyMaxUSD: map<string, real>, perVenueMaxUSD: map<string, real>,
                           minQualityForArb: string, minQualityForFunding: string, minQualityForLiquidity: string,
                           maxSingleIntentPct: real, kellyFraction: real, initialCapitalUSD: real, baselineOI: real)

  datatype Leg = Leg(venue: string, notionalUSD: real)

  datatype Expected = Expected(profitUSDNet: real, feesUSDEst: real)

  datatype Intent = Intent(strategy: string, legs: seq<Leg>)

  /** What the gates look at besides the intent and the engine. */
  datatype Context = Context(systemMode: string, quality: string, dynCap: real, oiMultiplier: real)

  datatype Reason = SystemMode(mode: string) | QualityBelowMinimum | StrategyNotConfigured | SingleIntentConcentration
                  | StrategyCapExceeded | VenueNotConfigured(venue: string) | VenueCapExceeded(venue: string)
                  | CapitalExhausted | InsufficientNotional | KellyTooSmall

  datatype Gate = Open | Shut(reason: Reason)

  datatype Decision = Rejected(reason: Reason) | Approved(scale: real)

  datatype State = State(strategyDeployed: map<string, real>, venueDeployed: map<string, real>,
                         approved: nat, rejected: map<Reason, nat>,
                         cumulativePnL: real, totalFees: real, fillCount: nat, peakEquity: real)

  function NotionalOf(l: Leg): real {
    l.notionalUSD
  }

  function TotalNotional(legs: seq<Leg>): real {
    SumBy(NotionalOf, legs)
  }

  // ----- The gates ---------------------------------------------------------------------------

  function QualityRank(q: string): int {
    if q == "HIGH" then 2 else if q == "MED" then 1 else if q == "LOW" then 0 else -1
  }

  function MinQuality(strategy: string, p: Policy): string {
    if strategy in {"CROSS_VENUE_ARB", "BASIS_CONVERGENCE", "DEX_CEX_ARB", "L2_BRIDGE_ARB"} then p.minQualityForArb
    else if strategy in {"FUNDING_CARRY", "FUNDING_DIFFERENTIAL", "FUNDING_CARRY_REVERSE", "FUNDING_CARRY_EXIT",
                         "FUNDING_DIFFERENTIAL_EXIT", "FUNDING_CARRY_REVERSE_EXIT"} then p.minQualityForFunding
    else if strategy in {"SPREAD_CAPTURE", "LIQUIDATION_CONTRA", "CASCADE_CONTRA", "CORRELATION_BREAK"} then
      p.minQualityForLiquidity
    else if strategy == "MANUAL" then ""
    else "HIGH"
  }

  /** The strategy's cap, lowered by the dynamic one. */
  function StrategyCap(strategy: string, dynCap: real, p: Policy): real {
    var cap := Get(p.perStrategyMaxUSD, strategy);
    if 0.0 < dynCap < cap then dynCap else cap
  }

  function Available(s: State, strategy: string, dynCap: real, p: Policy): real {
    StrategyCap(strategy, dynCap, p) - Get(s.strategyDeployed, strategy)
  }

  function VenueAvailable(venueDeployed: map<string, real>, venue: string, p: Policy): real {
    Get(p.perVenueMaxUSD, venue) - Get(venueDeployed, venue)
  }

  /** The gates up to the strategy's cap. */
  function StrategyGate(s: State, strategy: string, notional: real, x: Context, p: Policy): Gate {
    if x.systemMode != "RUNNING" && x.systemMode != "" then Shut(SystemMode(x.systemMode))
    else if QualityRank(x.quality) < QualityRank(MinQuality(strategy, p)) then Shut(QualityBelowMinimum)
    else if Get(p.perStrategyMaxUSD, strategy) == 0.0 then Shut(StrategyNotConfigured)
    else if p.maxSingleIntentPct > 0.0
         && notional > StrategyCap(strategy, x.dynCap, p) * p.maxSingleIntentPct / 100.0 then
      Shut(SingleIntentConcentration)
    else if Available(s, strategy, x.dynCap, p) <= 0.0 then Shut(StrategyCapExceeded)
    else Open
  }

  /** The first leg, from the left, that its venue refuses. */
  function VenueGate(venueDeployed: map<string, real>, legs: seq<Leg>, p: Policy): Gate {
    if legs == [] then Open
    else if Get(p.perVenueMaxUSD, legs[0].venue) == 0.0 then Shut(VenueNotConfigured(legs[0].venue))
    else if Get(venueDeployed, legs[0].venue) + legs[0].notionalUSD > Get(p.perVenueMaxUSD, legs[0].venue) then
      Shut(VenueCapExceeded(legs[0].venue))
    else VenueGate(venueDeployed, legs[1..], p)
  }

  function Equity(s: State, p: Policy): real {
    p.initialCapitalUSD + s.cumulativePnL
  }

  ghost function CapitalAvailable(s: State, p: Policy): real {
    Equity(s, p) - Sum(s.strategyDeployed)
  }

  ghost function Gates(s: State, i: Intent, x: Context, p: Policy): Gate {
    var gate := StrategyGate(s, i.strategy, TotalNotional(i.legs), x, p);
    if gate.Shut? then gate
    else if VenueGate(s.venueDeployed, i.legs, p).Shut? then VenueGate(s.venueDeployed, i.legs, p)
    else if p.initialCapitalUSD > 0.0 && CapitalAvailable(s, p) <= 0.0 then Shut(CapitalExhausted)
    else Open
  }

  predicate LegsFit(venueDeployed: map<string, real>, legs: seq<Leg>, p: Policy) {
    forall k :: 0 <= k < |legs| ==> legs[k].notionalUSD <= VenueAvailable(venueDeployed, legs[k].venue, p)
  }

  lemma {:induction false} VenueGateFits(venueDeployed: map<string, real>, legs: seq<Leg>, p: Policy)
    requires VenueGate(venueDeployed, legs, p).Open?
    ensures LegsFit(venueDeployed, legs, p)
    ensures forall k :: 0 <= k < |legs| ==> Get(p.perVenueMaxUSD, legs[k].venue) != 0.0
  {
    if legs != [] {
      VenueGateFits(venueDeployed, legs[1..], p);
    }
  }

  // ----- The scale ---------------------------------------------------------------------------

  function StrategyScale(available: real, notional: real): real
    requires available > 0.0
  {
    if notional > available then available / notional else 1.0
  }

  /** The rescaling loop over the venues. It divides by a leg's notional only where that is not zero. */
  function VenueScale(venueDeployed: map<string, real>, legs: seq<Leg>, scale: real, p: Policy): real
    requires LegsFit(venueDeployed, legs, p)
  {
    if legs == [] then scale
    else
      var before := VenueScale(venueDeployed, legs[..|legs| - 1], scale, p);
      var leg := legs[|legs| - 1];
      var avail := VenueAvailable(venueDeployed, leg.venue, p);
      assert leg.notionalUSD == 0.0 ==> Times(leg.notionalUSD, before) == 0.0;
      if Times(leg.notionalUSD, before) > avail &&
          avail / leg.notionalUSD < before then avail / leg.notionalUSD else before
  }

  function CapitalScale(availCap: real, notional: real, scale: real): real
    requires availCap > 0.0
  {
    if Times(notional, scale) > availCap && availCap / notional < scale then availCap / notional else scale
  }

  /** The scale before the multiplier and Kelly's fraction. */
  ghost function FitScale(s: State, i: Intent, x: Context, p: Policy): real
    requires Gates(s, i, x, p).Open?
  {
    VenueGateFits(s.venueDeployed, i.legs, p);
    var scale := VenueScale(s.venueDeployed, i.legs,
                            StrategyScale(Available(s, i.strategy, x.dynCap, p), TotalNotional(i.legs)), p);
    if p.initialCapitalUSD > 0.0 then CapitalScale(CapitalAvailable(s, p), TotalNotional(i.legs), scale) else scale
  }

  function Kelly(p: Policy): (k: real)
    ensures 0.0 < k <= 1.0
  {
    if 0.0 < p.kellyFraction < 1.0 then p.kellyFraction else 1.0
  }

  ghost function Decide(s: State, i: Intent, x: Context, p: Policy): Decision {
    var gate := Gates(s, i, x, p);
    if gate.Shut? then Rejected(gate.reason)
    else
      var scale := Times(FitScale(s, i, x, p), x.oiMultiplier);
      if scale < 0.1 then Rejected(InsufficientNotional)
      else if Times(scale, Kelly(p)) < 0.05 then Rejected(KellyTooSmall)
      else Approved(Times(scale, Kelly(p)))
  }

  // ----- Evaluate, ReleaseNotional, RecordPnL ------------------------------------------------

  function Scaled(legs: seq<Leg>, scale: real): (r: seq<Leg>)
    ensures |r| == |legs|
    ensures forall k :: 0 <= k < |legs| ==> r[k] == Leg(legs[k].venue, Times(legs[k].notionalUSD, scale))
  {
    seq(|legs|, k requires 0 <= k < |legs| => Leg(legs[k].venue, Times(legs[k].notionalUSD, scale)))
  }

  function ScaledExpected(e: Expected, scale: real): Expected {
    Expected(Times(e.profitUSDNet, scale), Times(e.feesUSDEst, scale))
  }

  function WithLegs(venueDeployed: map<string, real>, legs: seq<Leg>): map<string, real> {
    if legs == [] then venueDeployed
    else
      var before := WithLegs(venueDeployed, legs[..|legs| - 1]);
      var leg := legs[|legs| - 1];
      before[leg.venue := Get(before, leg.venue) + leg.notionalUSD]
  }

  function Count(m: map<Reason, nat>, r: Reason): nat {
    if r in m then m[r] else 0
  }

  /** The legs as adjusted count against the strategy and the venues. */
  function Committed(s: State, strategy: string, adjusted: seq<Leg>): State {
    s.(strategyDeployed := s.strategyDeployed[strategy := Get(s.strategyDeployed, strategy) + TotalNotional(adjusted)],
       venueDeployed := WithLegs(s.venueDeployed, adjusted), approved := s.approved + 1)
  }

  ghost function Evaluated(s: State, i: Intent, x: Context, p: Policy): State {
    match Decide(s, i, x, p)
    case Rejected(reason) => s.(rejected := s.rejected[reason := Count(s.rejected, reason) + 1])
    case Approved(scale) => Committed(s, i.strategy, Scaled(i.legs, scale))
  }

  function Lowered(m: map<string, real>, k: string, notional: real): map<string, real> {
    m[k := Max(0.0, Get(m, k) - notional)]
  }

  function Released(s: State, strategy: string, venue: string, notional: real): State {
    s.(strategyDeployed := Lowered(s.strategyDeployed, strategy, notional),
       venueDeployed := Lowered(s.venueDeployed, venue, notional))
  }

  function PnLRecorded(s: State, pnl: real, fees: real, p: Policy): State {
    var s' := s.(cumulativePnL := s.cumulativePnL + pnl, totalFees := s.totalFees + fees, fillCount := s.fillCount + 1);
    s'.(peakEquity := Max(s.peakEquity, Equity(s', p)))
  }

  function Initial(p: Policy): State {
    State(map[], map[], 0, map[], 0.0, 0.0, 0, Max(0.0, p.initialCapitalUSD))
  }

  method LowerAt(m: map<string, real>, k: string, notional: real) returns (r: map<string, real>)
    ensures r == Lowered(m, k, notional)
  {
    r := m[k := Get(m, k) - notional];
    if r[k] < 0.0 {
      r := r[k := 0.0];
    }
  }

  // ----- The engine --------------------------------------------------------------------------

  class Engine {
    const policy: Policy
    const tracker: OpenInterest.OITracker?
    const dynAlloc: DynamicCap.DynamicAllocator?
    var strategyDeployed: map<string, real>
    var venueDeployed: map<string, real>
    var approved: nat
    var rejected: map<Reason, nat>
    var cumulativePnL: real
    var totalFees: real
    var fillCount: nat
    var peakEquity: real

    constructor (policy: Policy, tracker: OpenInterest.OITracker?, dynAlloc: DynamicCap.DynamicAllocator?)
      ensures this.policy == policy && this.tracker == tracker && this.dynAlloc == dynAlloc &&
                Value() == Initial(policy)
    {
      this.policy, this.tracker, this.dynAlloc := policy, tracker, dynAlloc;
      strategyDeployed, venueDeployed := map[], map[];
      approved, rejected := 0, map[];
      cumulativePnL, totalFees, fillCount := 0.0, 0.0, 0;
      peakEquity := if policy.initialCapitalUSD > 0.0 then policy.initialCapitalUSD else 0.0;
    }

    function Value(): State
      reads this
    {
      State(strategyDeployed, venueDeployed, approved, rejected, cumulativePnL, totalFees, fillCount, peakEquity)
    }

    function OIMultiplier(symbol: string, legs: seq<Leg>, nowMs: int): (r: real)
      reads tracker
      ensures 0.25 <= r <= 1.5
    {
      if tracker == null || legs == [] then 1.0
      else tracker.LiquidityMultiplier(legs[0].venue, symbol, policy.baselineOI, nowMs)
    }

    method CheckVenues(legs: array<Leg>) returns (gate: Gate)
      ensures gate == VenueGate(venueDeployed, legs[..], policy)
    {
      for i := 0 to legs.Length
        invariant VenueGate(venueDeployed, legs[..], policy) == VenueGate(venueDeployed, legs[i..], policy)
      {
        var venueCap := Get(policy.perVenueMaxUSD, legs[i].venue);
        assert legs[i..][1..] == legs[i + 1..];
        if venueCap == 0.0 {
          return Shut(VenueNotConfigured(legs[i].venue));
        }
        if Get(venueDeployed, legs[i].venue) + legs[i].notionalUSD > venueCap {
          return Shut(VenueCapExceeded(legs[i].venue));
        }
      }
      return Open;
    }

    method RescaleForVenues(legs: array<Leg>, fitted: real) returns (scale: real)
      requires LegsFit(venueDeployed, legs[..], policy)
      ensures scale == VenueScale(venueDeployed, legs[..], fitted, policy)
    {
      scale := fitted;
      for i := 0 to legs.Length
        invariant LegsFit(venueDeployed, legs[..i], policy)
        invariant scale == VenueScale(venueDeployed, legs[..i], fitted, policy)
      {
        var leg := legs[i];
        var avail := VenueAvailable(venueDeployed, leg.venue, policy);
        assert legs[..i + 1][..i] == legs[..i] && legs[..][i] == leg;
        assert leg.notionalUSD == 0.0 ==> Times(leg.notionalUSD, scale) == 0.0;
        if Times(leg.notionalUSD, scale) > avail {
          var sf := avail / leg.notionalUSD;
          if sf < scale {
            scale := sf;
          }
        }
      }
      assert legs[..legs.Length] == legs[..];
    }

    method SumLegs(legs: array<Leg>) returns (n: real)
      ensures n == TotalNotional(legs[..])
    {
      n := 0.0;
      for i := 0 to legs.Length
        invariant n == TotalNotional(legs[..i])
      {
        assert legs[..i + 1][..i] == legs[..i];
        n := n + legs[i].notionalUSD;
      }
      assert legs[..legs.Length] == legs[..];
    }

    method ScaleLegs(legs: array<Leg>, scale: real)
      modifies legs
      ensures legs[..] == Scaled(old(legs[..]), scale)
    {
      for i := 0 to legs.Length
        invariant forall k :: i <= k < legs.Length ==> legs[k] == old(legs[k])
        invariant forall k :: 0 <= k < i ==> legs[k] == Leg(old(legs[k]).venue, Times(old(legs[k]).notionalUSD, scale))
      {
        legs[i] := Leg(legs[i].venue, Times(legs[i].notionalUSD, scale));
      }
    }

    method DeployLegs(legs: array<Leg>)
      modifies this`venueDeployed
      ensures venueDeployed == WithLegs(old(venueDeployed), legs[..])
    {
      for i := 0 to legs.Length
        invariant venueDeployed == WithLegs(old(venueDeployed), legs[..i])
      {
        assert legs[..i + 1][..i] == legs[..i];
        venueDeployed := venueDeployed[legs[i].venue := Get(venueDeployed, legs[i].venue) + legs[i].notionalUSD];
      }
      assert legs[..legs.Length] == legs[..];
    }

    method Commit(strategy: string, legs: array<Leg>)
      modifies this
      ensures Value() == Committed(old(Value()), strategy, legs[..])
    {
      var n := SumLegs(legs);
      strategyDeployed := strategyDeployed[strategy := Get(strategyDeployed, strategy) + n];
      DeployLegs(legs);
      approved := approved + 1;
    }

    method Reject(reason: Reason) returns (d: Decision)
      modifies this`rejected
      ensures rejected == old(rejected)[reason := Count(old(rejected), reason) + 1] && d == Rejected(reason)
    {
      rejected := rejected[reason := Count(rejected, reason) + 1];
      return Rejected(reason);
    }

    method CheckStrategy(strategy: string, notional: real, x: Context) returns (gate: Gate)
      ensures gate == StrategyGate(Value(), strategy, notional, x, policy)
    {
      if x.systemMode != "RUNNING" && x.systemMode != "" {
        return Shut(SystemMode(x.systemMode));
      }
      if QualityRank(x.quality) < QualityRank(MinQuality(strategy, policy)) {
        return Shut(QualityBelowMinimum);
      }
      var stratCap := Get(policy.perStrategyMaxUSD, strategy);
      if stratCap == 0.0 {
        return Shut(StrategyNotConfigured);
      }
      if 0.0 < x.dynCap < stratCap {
        stratCap := x.dynCap;
      }
      if policy.maxSingleIntentPct > 0.0 && notional > stratCap * policy.maxSingleIntentPct / 100.0 {
        return Shut(SingleIntentConcentration);
      }
      var available := stratCap - Get(strategyDeployed, strategy);
      if available <= 0.0 {
        return Shut(StrategyCapExceeded);
      }
      return Open;
    }

    /** The gates, the scale and the decision; nothing is changed yet. */
    method Judge(strategy: string, legs: array<Leg>, x: Context) returns (d: Decision)
      ensures d == Decide(Value(), Intent(strategy, legs[..]), x, policy)
    {
      var s := Value();
      ghost var intent := Intent(strategy, legs[..]);
      var notional := SumLegs(legs);
      var gate := CheckStrategy(strategy, notional, x);
      if gate.Shut? {
        return Rejected(gate.reason);
      }
      gate := CheckVenues(legs);
      if gate.Shut? {
        return Rejected(gate.reason);
      }
      var totalDeployed := SumValues(strategyDeployed);
      var availCap := policy.initialCapitalUSD + cumulativePnL - totalDeployed;
      if policy.initialCapitalUSD > 0.0 && availCap <= 0.0 {
        return Rejected(CapitalExhausted);
      }
      VenueGateFits(venueDeployed, legs[..], policy);
      var scale := RescaleForVenues(legs, StrategyScale(Available(s, strategy, x.dynCap, policy), notional));
      if policy.initialCapitalUSD > 0.0 {
        scale := CapitalScale(availCap, notional, scale);
      }
      assert scale == FitScale(s, intent, x, policy);
      scale := Times(scale, x.oiMultiplier);
      if scale < 0.1 {
        return Rejected(InsufficientNotional);
      }
      scale := Times(scale, Kelly(policy));
      if scale < 0.05 {
        return Rejected(KellyTooSmall);
      }
      return Approved(scale);
    }

    /** Zero if there is no dynamic allocator. */
    function DynCap(strategy: string): real
      reads dynAlloc
    {
      if dynAlloc == null then 0.0 else DynamicCap.Adjusted(dynAlloc.baseCaps, dynAlloc.performance, strategy)
    }

    method AdjustedCap(strategy: string) returns (dynCap: real)
      ensures dynCap == DynCap(strategy)
    {
      dynCap := 0.0;
      if dynAlloc != null {
        dynCap := dynAlloc.AdjustedCap(strategy);
      }
    }

    /** The legs are scaled where they are, in the caller's own slice, and so is what the intent expects. */
    method Evaluate(strategy: string, symbol: string, legs: array<Leg>, expected: Expected, systemMode: string,
                    quality: string, nowMs: int)
        returns (d: Decision, adjusted: Expected)
      modifies this, legs
      ensures var (s, i) := (old(Value()), Intent(strategy, old(legs[..])));
              var x := Context(systemMode, quality, old(DynCap(strategy)), old(OIMultiplier(symbol, legs[..], nowMs)));
              && d == Decide(s, i, x, policy)
              && Value() == Evaluated(s, i, x, policy)
              && legs[..] == (if d.Approved? then Scaled(i.legs, d.scale) else i.legs)
              && adjusted == (if d.Approved? then ScaledExpected(expected, d.scale) else expected)
    {
      var dynCap := AdjustedCap(strategy);
      d := Judge(strategy, legs, Context(systemMode, quality, dynCap, OIMultiplier(symbol, legs[..], nowMs)));
      adjusted := expected;
      if d.Rejected? {
        d := Reject(d.reason);
        return;
      }
      ScaleLegs(legs, d.scale);
      adjusted := adjusted.(profitUSDNet := Times(adjusted.profitUSDNet, d.scale));
      adjusted := adjusted.(feesUSDEst := Times(adjusted.feesUSDEst, d.scale));
      Commit(strategy, legs);
    }

    method ReleaseNotional(strategy: string, venue: string, notional: real)
      modifies this
      ensures Value() == Released(old(Value()), strategy, venue, notional)
    {
      strategyDeployed := LowerAt(strategyDeployed, strategy, notional);
      venueDeployed := LowerAt(venueDeployed, venue, notional);
    }

    method RecordPnL(pnl: real, fees: real)
      modifies this
      ensures Value() == PnLRecorded(old(Value()), pnl, fees, policy)
    {
      cumulativePnL := cumulativePnL + pnl;
      totalFees := totalFees + fees;
      fillCount := fillCount + 1;
      var equity := policy.initialCapitalUSD + cumulativePnL;
      if equity > peakEquity {
        peakEquity := equity;
      }
    }
  }
}
