/** The caps of the allocator: what one approval may add, and what any run of its calls keeps. */
module AllocatorCaps {
  import opened Sums
  import opened MapSums
  import opened Allocator
  import DynamicCap

  predicate NonnegativeLegs(legs: seq<Leg>) {
    forall k :: 0 <= k < |legs| ==> legs[k].notionalUSD >= 0.0
  }

  function IsOn(venue: string): Leg -> real {
    (l: Leg) => if l.venue == venue then l.notionalUSD else 0.0
  }

  /** What the legs place on one venue. */
  function OnVenue(legs: seq<Leg>, venue: string): real {
    SumBy(IsOn(venue), legs)
  }

  predicate DistinctVenues(legs: seq<Leg>) {
    forall i, j :: 0 <= i < j < |legs| ==> legs[i].venue != legs[j].venue
  }

  predicate AllNonnegative(m: map<string, real>) {
    forall k :: k in m ==> m[k] >= 0.0
  }

  // ----- The scale ---------------------------------------------------------------------------

  /** With non-negative legs the rescaling loop over the venues never changes the scale: the gate was stricter. */
  lemma {:induction false} VenueLoopNeverFires(venueDeployed: map<string, real>, legs: seq<Leg>, scale: real, p: Policy)
    requires LegsFit(venueDeployed, legs, p) && NonnegativeLegs(legs) && 0.0 <= scale <= 1.0
    ensures VenueScale(venueDeployed, legs, scale, p) == scale
  {
    if legs != [] {
      VenueLoopNeverFires(venueDeployed, legs[..|legs| - 1], scale, p);
      var n := legs[|legs| - 1].notionalUSD;
      TimesMonotone(scale, 1.0, n);
      TimesCommutes(scale, n);
      assert Times(1.0, n) == n;
    }
  }

  lemma QuotientScale(part: real, whole: real)
    requires 0.0 < part < whole
    ensures 0.0 < part / whole < 1.0 && Times(whole, part / whole) == part
  {
    var q := part / whole;
    assert q * whole == part;
    if q >= 1.0 {
      MulMonotone(1.0, q, whole);
    }
  }

  lemma StrategyScaleFits(available: real, notional: real)
    requires available > 0.0 && notional >= 0.0
    ensures var f := StrategyScale(available, notional); 0.0 < f <= 1.0 && Times(notional, f) <= available
  {
    if notional > available {
      QuotientScale(available, notional);
    }
  }

  lemma CapitalScaleFits(availCap: real, notional: real, scale: real)
    requires availCap > 0.0 && notional >= 0.0 && 0.0 < scale <= 1.0
    ensures var f := CapitalScale(availCap, notional, scale); 0.0 < f <= scale && Times(notional, f) <= availCap
  {
    if Times(notional, scale) > availCap {
      MulMonotone(scale, 1.0, notional);
      QuotientScale(availCap, notional);
      if scale <= availCap / notional {
        MulMonotone(scale, availCap / notional, notional);
      }
    }
  }

  lemma {:induction false} NonnegativeSum(f: Leg -> real, legs: seq<Leg>)
    requires forall k :: 0 <= k < |legs| ==> f(legs[k]) >= 0.0
    ensures SumBy(f, legs) >= 0.0
  {
    if legs != [] {
      NonnegativeSum(f, legs[..|legs| - 1]);
    }
  }

  /** Before the multiplier, the intent fits the strategy's cap and the capital at once. */
  lemma FitScaleFits(s: State, i: Intent, x: Context, p: Policy)
    requires Gates(s, i, x, p).Open? && NonnegativeLegs(i.legs)
    ensures var (f, n) := (FitScale(s, i, x, p), TotalNotional(i.legs));
            && 0.0 < f <= 1.0 && n >= 0.0
            && Times(n, f) <= Available(s, i.strategy, x.dynCap, p)
            && (p.initialCapitalUSD > 0.0 ==> Times(n, f) <= CapitalAvailable(s, p))
  {
    var n, available := TotalNotional(i.legs), Available(s, i.strategy, x.dynCap, p);
    NonnegativeSum(NotionalOf, i.legs);
    VenueGateFits(s.venueDeployed, i.legs, p);
    StrategyScaleFits(available, n);
    var f := StrategyScale(available, n);
    VenueLoopNeverFires(s.venueDeployed, i.legs, f, p);
    if p.initialCapitalUSD > 0.0 {
      CapitalScaleFits(CapitalAvailable(s, p), n, f);
      TimesCommutes(n, f);
      var g := CapitalScale(CapitalAvailable(s, p), n, f);
      TimesMonotone(g, f, n);
      TimesCommutes(n, g);
    }
  }

  /** The size multiplier and Kelly's fraction together, which are applied after the caps. */
  function Boost(x: Context, p: Policy): real {
    Times(x.oiMultiplier, Kelly(p))
  }

  lemma BoostedFits(n: real, f: real, multiplier: real, kelly: real, room: real, bound: real)
    requires Times(n, f) <= room && n >= 0.0 && f >= 0.0 && 0.0 <= Times(multiplier, kelly) <= bound && room >= 0.0
    ensures Times(n, Times(Times(f, multiplier), kelly)) <= Times(bound, room)
  {
    var boost := Times(multiplier, kelly);
    assert n * ((f * multiplier) * kelly) == (n * f) * boost by {
      assert (f * multiplier) * kelly == f * (multiplier * kelly);
      assert n * (f * boost) == (n * f) * boost;
    }
    MulMonotone(n * f, room, boost);
    MulMonotone(boost, bound, room);
  }

  lemma {:induction false} ScaledSum(venue: string, legs: seq<Leg>, scale: real)
    ensures TotalNotional(Scaled(legs, scale)) == Times(TotalNotional(legs), scale)
    ensures OnVenue(Scaled(legs, scale), venue) == Times(OnVenue(legs, venue), scale)
  {
    if legs == [] {
      assert Times(0.0, scale) == 0.0;
    } else {
      var front, last := legs[..|legs| - 1], legs[|legs| - 1];
      ScaledSum(venue, front, scale);
      assert Scaled(legs, scale)[..|legs| - 1] == Scaled(front, scale);
      TimesSum(TotalNotional(front), last.notionalUSD, scale);
      TimesSum(OnVenue(front, venue), IsOn(venue)(last), scale);
      assert Times(0.0, scale) == 0.0;
    }
  }

  lemma TimesSum(x: real, y: real, k: real)
    ensures Times(x + y, k) == Times(x, k) + Times(y, k)
  {
  }

  /**
   What an approval adds to the strategy: at most `bound` times its room, and of the capital's room
   if that counts.
   */
  lemma ApprovedFits(s: State, i: Intent, x: Context, p: Policy, bound: real)
    requires Decide(s, i, x, p).Approved? && NonnegativeLegs(i.legs) && 0.0 <= Boost(x, p) <= bound
    ensures var added := TotalNotional(Scaled(i.legs, Decide(s, i, x, p).scale));
            && 0.0 <= added <= Times(bound, Available(s, i.strategy, x.dynCap, p))
            && (p.initialCapitalUSD > 0.0 ==> added <= Times(bound, CapitalAvailable(s, p)))
    ensures Available(s, i.strategy, x.dynCap, p) > 0.0 && (p.initialCapitalUSD > 0.0 ==> CapitalAvailable(s, p) > 0.0)
  {
    var (n, f, d) := (TotalNotional(i.legs), FitScale(s, i, x, p), Decide(s, i, x, p));
    FitScaleFits(s, i, x, p);
    ScaledSum("", i.legs, d.scale);
    BoostedFits(n, f, x.oiMultiplier, Kelly(p), Available(s, i.strategy, x.dynCap, p), bound);
    if p.initialCapitalUSD > 0.0 {
      BoostedFits(n, f, x.oiMultiplier, Kelly(p), CapitalAvailable(s, p), bound);
    }
    MulNonnegative(n, d.scale);
  }

  // ----- One call ----------------------------------------------------------------------------

  /** What is already there, and what is added of the room left, stay within the cap as often as the bound says. */
  lemma WithinBound(current: real, added: real, cap: real, bound: real)
    requires current >= 0.0 && bound >= 1.0 && added <= Times(bound, cap - current)
    ensures current + added <= Times(bound, cap)
  {
    TimesAdds(bound, cap - current, current);
    TimesMonotone(1.0, bound, current);
    assert Times(1.0, current) == current;
    assert cap - current + current == cap;
  }

  function StrategyLimit(strategy: string, p: Policy): real {
    Max(0.0, Get(p.perStrategyMaxUSD, strategy))
  }

  function VenueLimit(venue: string, p: Policy): real {
    Max(0.0, Get(p.perVenueMaxUSD, venue))
  }

  /** Every strategy has deployed between nothing and `bound` times its cap. */
  predicate StrategiesWithin(deployed: map<string, real>, p: Policy, bound: real) {
    forall k :: k in deployed ==> 0.0 <= deployed[k] <= Times(bound, StrategyLimit(k, p))
  }

  predicate VenuesWithin(deployed: map<string, real>, p: Policy, bound: real) {
    forall k :: k in deployed ==> 0.0 <= deployed[k] <= Times(bound, VenueLimit(k, p))
  }

  lemma DeployedAfter(s: State, i: Intent, x: Context, p: Policy)
    requires Decide(s, i, x, p).Approved?
    ensures var added := TotalNotional(Scaled(i.legs, Decide(s, i, x, p).scale));
            Evaluated(s, i, x, p).strategyDeployed ==
                s.strategyDeployed[i.strategy := Get(s.strategyDeployed, i.strategy) + added]
  {
  }

  lemma EvaluateKeepsStrategies(s: State, i: Intent, x: Context, p: Policy, bound: real)
    requires NonnegativeLegs(i.legs) && 0.0 <= Boost(x, p) <= bound && bound >= 1.0
    requires StrategiesWithin(s.strategyDeployed, p, bound)
    ensures StrategiesWithin(Evaluated(s, i, x, p).strategyDeployed, p, bound)
  {
    var d := Decide(s, i, x, p);
    if d.Approved? {
      var current, added := Get(s.strategyDeployed, i.strategy), TotalNotional(Scaled(i.legs, d.scale));
      var cap := StrategyCap(i.strategy, x.dynCap, p);
      ApprovedFits(s, i, x, p, bound);
      WithinBound(current, added, cap, bound);
      TimesMonotone(cap, StrategyLimit(i.strategy, p), bound);
      TimesCommutes(cap, bound);
      TimesCommutes(StrategyLimit(i.strategy, p), bound);
      DeployedAfter(s, i, x, p);
    }
  }

  lemma {:induction false} WithLegsAt(deployed: map<string, real>, legs: seq<Leg>, venue: string)
    ensures Get(WithLegs(deployed, legs), venue) == Get(deployed, venue) + OnVenue(legs, venue)
    ensures venue in WithLegs(deployed, legs) <==>
              venue in deployed || exists k :: 0 <= k < |legs| && legs[k].venue == venue
  {
    if legs != [] {
      var front := legs[..|legs| - 1];
      WithLegsAt(deployed, front, venue);
      assert legs == front + [legs[|legs| - 1]];
    }
  }

  lemma {:induction false} OnNoLeg(legs: seq<Leg>, venue: string)
    requires forall k :: 0 <= k < |legs| ==> legs[k].venue != venue
    ensures OnVenue(legs, venue) == 0.0
  {
    if legs != [] {
      OnNoLeg(legs[..|legs| - 1], venue);
    }
  }

  /** On distinct venues a venue's room is that of its one leg. */
  lemma {:induction false} OneLegFits(deployed: map<string, real>, legs: seq<Leg>, venue: string, p: Policy)
    requires DistinctVenues(legs) && LegsFit(deployed, legs, p) && NonnegativeLegs(legs)
    ensures 0.0 <= OnVenue(legs, venue)
    ensures OnVenue(legs, venue) <= VenueAvailable(deployed, venue, p) || OnVenue(legs, venue) == 0.0
  {
    if legs != [] {
      var front, last := legs[..|legs| - 1], legs[|legs| - 1];
      OneLegFits(deployed, front, venue, p);
      if last.venue == venue {
        OnNoLeg(front, venue);
      }
    }
  }

  lemma ScaleWithin(s: State, i: Intent, x: Context, p: Policy, bound: real)
    requires Decide(s, i, x, p).Approved? && NonnegativeLegs(i.legs) && 0.0 <= Boost(x, p) <= bound
    ensures 0.05 <= Decide(s, i, x, p).scale <= bound
  {
    var f := FitScale(s, i, x, p);
    FitScaleFits(s, i, x, p);
    BoostedFits(1.0, f, x.oiMultiplier, Kelly(p), 1.0, bound);
  }

  lemma EvaluateKeepsVenues(s: State, i: Intent, x: Context, p: Policy, bound: real)
    requires NonnegativeLegs(i.legs) && DistinctVenues(i.legs) && 0.0 <= Boost(x, p) <= bound && bound >= 1.0
    requires VenuesWithin(s.venueDeployed, p, bound)
    ensures VenuesWithin(Evaluated(s, i, x, p).venueDeployed, p, bound)
  {
    var d := Decide(s, i, x, p);
    if d.Approved? {
      var adjusted := Scaled(i.legs, d.scale);
      var after := WithLegs(s.venueDeployed, adjusted);
      VenueGateFits(s.venueDeployed, i.legs, p);
      ScaleWithin(s, i, x, p, bound);
      forall v | v in after ensures 0.0 <= after[v] <= Times(bound, VenueLimit(v, p)) {
        VenueAfter(s.venueDeployed, i.legs, d.scale, v, p, bound);
      }
    }
  }

  lemma VenueAfter(deployed: map<string, real>, legs: seq<Leg>, scale: real, v: string, p: Policy, bound: real)
    requires DistinctVenues(legs) && LegsFit(deployed, legs, p) && NonnegativeLegs(legs) && 0.0 <= scale <= bound &&
              bound >= 1.0
    requires VenuesWithin(deployed, p, bound)
    ensures 0.0 <= Get(WithLegs(deployed, Scaled(legs, scale)), v) <= Times(bound, VenueLimit(v, p))
  {
    var current, n := Get(deployed, v), OnVenue(legs, v);
    WithLegsAt(deployed, Scaled(legs, scale), v);
    ScaledSum(v, legs, scale);
    OneLegFits(deployed, legs, v, p);
    MulNonnegative(bound, VenueLimit(v, p));
    AddedFits(current, n, scale, Get(p.perVenueMaxUSD, v), bound);
  }

  lemma AddedFits(current: real, n: real, scale: real, cap: real, bound: real)
    requires 0.0 <= current <= Times(bound, Max(0.0, cap)) && 0.0 <= scale <= bound && bound >= 1.0
    requires n == 0.0 || 0.0 <= n <= cap - current
    ensures 0.0 <= current + Times(n, scale) <= Times(bound, Max(0.0, cap))
  {
    MulNonnegative(n, scale);
    if n == 0.0 {
      assert Times(n, scale) == 0.0;
    } else {
      TimesCommutes(n, scale);
      TimesMonotone(scale, bound, n);
      TimesMonotone(n, cap - current, bound);
      TimesCommutes(n, bound);
      TimesCommutes(cap - current, bound);
      WithinBound(current, Times(n, scale), cap, bound);
      TimesMonotone(cap, Max(0.0, cap), bound);
      TimesCommutes(cap, bound);
      TimesCommutes(Max(0.0, cap), bound);
    }
  }

  /** When an approval is given, everything deployed is at most `bound` times the equity of that moment. */
  lemma CapitalAtApproval(s: State, i: Intent, x: Context, p: Policy, bound: real)
    requires Decide(s, i, x, p).Approved? && NonnegativeLegs(i.legs) && 0.0 <= Boost(x, p) <= bound && bound >= 1.0
    requires p.initialCapitalUSD > 0.0 && AllNonnegative(s.strategyDeployed)
    ensures Sum(Evaluated(s, i, x, p).strategyDeployed) <= Times(bound, Equity(s, p))
  {
    var current, added := Get(s.strategyDeployed, i.strategy), TotalNotional(Scaled(i.legs, Decide(s, i, x, p).scale));
    ApprovedFits(s, i, x, p, bound);
    SumNonnegative(s.strategyDeployed, s.strategyDeployed.Keys);
    SumAfterUpdate(s.strategyDeployed, i.strategy, current + added);
    WithinBound(Sum(s.strategyDeployed), added, Equity(s, p), bound);
    DeployedAfter(s, i, x, p);
  }

  // ----- Runs --------------------------------------------------------------------------------

  datatype Call = Evaluate(intent: Intent, context: Context) | Release(strategy: string, venue: string, notional: real)
                | PnL(pnl: real, fees: real)

  ghost function Apply(s: State, c: Call, p: Policy): State {
    match c
    case Evaluate(intent, context) => Evaluated(s, intent, context, p)
    case Release(strategy, venue, notional) => Released(s, strategy, venue, notional)
    case PnL(pnl, fees) => PnLRecorded(s, pnl, fees, p)
  }

  ghost function StateAt(run: seq<Call>, p: Policy, n: nat): State
    requires n <= |run|
  {
    if n == 0 then Initial(p) else Apply(StateAt(run, p, n - 1), run[n - 1], p)
  }

  /** Non-negative legs and releases, and a boost that stays within the bound. */
  predicate Proper(c: Call, p: Policy, bound: real) {
    match c
    case Evaluate(intent, context) => NonnegativeLegs(intent.legs) && 0.0 <= Boost(context, p) <= bound
    case Release(_, _, notional) => notional >= 0.0
    case PnL(_, _) => true
  }

  predicate AllProper(run: seq<Call>, p: Policy, bound: real) {
    forall k :: 0 <= k < |run| ==> Proper(run[k], p, bound)
  }

  predicate AllDistinct(run: seq<Call>) {
    forall k :: 0 <= k < |run| && run[k].Evaluate? ==> DistinctVenues(run[k].intent.legs)
  }

  lemma ZeroWithin(bound: real, limit: real)
    requires bound >= 0.0 && limit >= 0.0
    ensures Times(bound, limit) >= 0.0
  {
    MulNonnegative(bound, limit);
  }

  lemma ReleaseKeepsStrategies(m: map<string, real>, k: string, notional: real, p: Policy, bound: real)
    requires StrategiesWithin(m, p, bound) && notional >= 0.0 && bound >= 0.0
    ensures StrategiesWithin(Lowered(m, k, notional), p, bound)
  {
    ZeroWithin(bound, StrategyLimit(k, p));
  }

  lemma ReleaseKeepsVenues(m: map<string, real>, k: string, notional: real, p: Policy, bound: real)
    requires VenuesWithin(m, p, bound) && notional >= 0.0 && bound >= 0.0
    ensures VenuesWithin(Lowered(m, k, notional), p, bound)
  {
    ZeroWithin(bound, VenueLimit(k, p));
  }

  /**
   Over every interleaving of calls no strategy has more deployed than `bound` times its cap, or less
   than nothing.
   */
  lemma {:induction false} StrategiesStayWithin(run: seq<Call>, p: Policy, bound: real, n: nat)
    requires n <= |run| && AllProper(run, p, bound) && bound >= 1.0
    ensures StrategiesWithin(StateAt(run, p, n).strategyDeployed, p, bound)
  {
    if n > 0 {
      StrategiesStayWithin(run, p, bound, n - 1);
      var s, c := StateAt(run, p, n - 1), run[n - 1];
      assert Proper(c, p, bound);
      match c
      case Evaluate(intent, context) => EvaluateKeepsStrategies(s, intent, context, p, bound);
      case Release(strategy, venue, notional) =>
          ReleaseKeepsStrategies(s.strategyDeployed, strategy, notional, p, bound);
      case PnL(_, _) =>
    }
  }

  /** The same of every venue, when the legs of each intent are on distinct venues. */
  lemma {:induction false} VenuesStayWithin(run: seq<Call>, p: Policy, bound: real, n: nat)
    requires n <= |run| && AllProper(run, p, bound) && AllDistinct(run) && bound >= 1.0
    ensures VenuesWithin(StateAt(run, p, n).venueDeployed, p, bound)
  {
    if n > 0 {
      VenuesStayWithin(run, p, bound, n - 1);
      var s, c := StateAt(run, p, n - 1), run[n - 1];
      assert Proper(c, p, bound);
      match c
      case Evaluate(intent, context) => EvaluateKeepsVenues(s, intent, context, p, bound);
      case Release(strategy, venue, notional) => ReleaseKeepsVenues(s.venueDeployed, venue, notional, p, bound);
      case PnL(_, _) =>
    }
  }

  /** The multipliers of a run are those the tracker gives. */
  predicate TrackedMultipliers(run: seq<Call>) {
    forall k :: 0 <= k < |run| && run[k].Evaluate? ==> 0.25 <= run[k].context.oiMultiplier <= 1.5
  }

  predicate NonnegativeCall(c: Call) {
    match c
    case Evaluate(intent, _) => NonnegativeLegs(intent.legs)
    case Release(_, _, notional) => notional >= 0.0
    case PnL(_, _) => true
  }

  predicate NonnegativeCalls(run: seq<Call>) {
    forall k :: 0 <= k < |run| ==> NonnegativeCall(run[k])
  }

  lemma TrackedIsProper(run: seq<Call>, p: Policy)
    requires NonnegativeCalls(run) && TrackedMultipliers(run)
    ensures AllProper(run, p, 1.5)
  {
    forall k | 0 <= k < |run| ensures Proper(run[k], p, 1.5) {
      assert NonnegativeCall(run[k]);
      if run[k].Evaluate? {
        var m := run[k].context.oiMultiplier;
        MulNonnegative(m, Kelly(p));
        TimesMonotone(Kelly(p), 1.0, m);
        TimesCommutes(Kelly(p), m);
        TimesMonotone(m, 1.5, 1.0);
      }
    }
  }

  /** Whatever the open interest, what a strategy has deployed never exceeds one and a half times its cap. */
  lemma NeverOverOneAndAHalf(run: seq<Call>, p: Policy, n: nat, strategy: string)
    requires n <= |run| && NonnegativeCalls(run) && TrackedMultipliers(run)
    ensures 0.0 <= Get(StateAt(run, p, n).strategyDeployed, strategy) <= 1.5 * StrategyLimit(strategy, p)
  {
    TrackedIsProper(run, p);
    StrategiesStayWithin(run, p, 1.5, n);
    assert Times(1.5, StrategyLimit(strategy, p)) == 1.5 * StrategyLimit(strategy, p);
  }

  /** Nor the cap itself, if no multiplier times Kelly's fraction exceeds one. */
  lemma NeverOverCap(run: seq<Call>, p: Policy, n: nat, strategy: string)
    requires n <= |run| && AllProper(run, p, 1.0)
    ensures 0.0 <= Get(StateAt(run, p, n).strategyDeployed, strategy) <= StrategyLimit(strategy, p)
  {
    StrategiesStayWithin(run, p, 1.0, n);
    assert Times(1.0, StrategyLimit(strategy, p)) == StrategyLimit(strategy, p);
  }

  lemma TimesPositive(x: real, y: real)
    requires x > 0.0 && y > 0.0
    ensures Times(x, y) > 0.0
  {
  }

  lemma CapTimes(cap: real, m: real)
    requires cap > 0.0 && m >= 0.25
    ensures 0.0 < Times(cap, 0.25) <= Times(cap, m)
    ensures Times(cap, m) < cap <==> m < 1.0
    ensures Times(cap, 0.25) <= cap
  {
    TimesPositive(cap, 0.25);
    TimesMonotone(0.25, m, cap);
    TimesCommutes(0.25, cap);
    TimesCommutes(m, cap);
    TimesAdds(cap, m, 1.0 - m);
    assert Times(cap, 1.0) == cap && m + (1.0 - m) == 1.0;
    if m < 1.0 {
      TimesPositive(cap, 1.0 - m);
    } else {
      TimesMonotone(1.0, m, cap);
      TimesCommutes(1.0, cap);
    }
  }

  /** The dynamic cap can only lower the strategy's cap: above it, it is not looked at. */
  lemma DynamicCapOnlyLowers(strategy: string, performance: DynamicCap.Performance, p: Policy)
    requires DynamicCap.Sane(performance) && Get(p.perStrategyMaxUSD, strategy) > 0.0
    ensures var (cap, m) := (Get(p.perStrategyMaxUSD, strategy), DynamicCap.MultiplierOf(performance));
            && StrategyCap(strategy, Times(cap, m), p) == (if m < 1.0 then Times(cap, m) else cap)
            && Times(cap, 0.25) <= StrategyCap(strategy, Times(cap, m), p) <= cap
  {
    var cap := Get(p.perStrategyMaxUSD, strategy);
    DynamicCap.CapInRange(performance, cap);
    CapTimes(cap, DynamicCap.MultiplierOf(performance));
  }

  // ----- The peak ----------------------------------------------------------------------------

  function EquityAt(run: seq<Call>, p: Policy, n: nat): real
    requires n <= |run|
  {
    if n == 0 then p.initialCapitalUSD
    else EquityAt(run, p, n - 1) + if run[n - 1].PnL? then run[n - 1].pnl else 0.0
  }

  lemma EquityStep(s: State, c: Call, p: Policy)
    ensures var s' := Apply(s, c, p);
            && Equity(s', p) == Equity(s, p) + (if c.PnL? then c.pnl else 0.0)
            && s'.peakEquity == if c.PnL? then Max(s.peakEquity, Equity(s', p)) else s.peakEquity
  {
  }

  /** The high-water mark is the highest equity ever held, or zero when there is no starting capital. */
  lemma {:induction false} PeakIsHighest(run: seq<Call>, p: Policy, n: nat)
    requires n <= |run|
    ensures Equity(StateAt(run, p, n), p) == EquityAt(run, p, n)
    ensures forall k :: 0 <= k <= n ==> EquityAt(run, p, k) <= StateAt(run, p, n).peakEquity
    ensures || (exists k :: 0 <= k <= n && EquityAt(run, p, k) == StateAt(run, p, n).peakEquity)
            || (StateAt(run, p, n).peakEquity == 0.0 && p.initialCapitalUSD <= 0.0)
  {
    if n == 0 {
      assert EquityAt(run, p, 0) == p.initialCapitalUSD;
    } else {
      PeakIsHighest(run, p, n - 1);
      var s, s' := StateAt(run, p, n - 1), StateAt(run, p, n);
      EquityStep(s, run[n - 1], p);
      assert EquityAt(run, p, n - 1) <= s.peakEquity;
      if s'.peakEquity != s.peakEquity {
        assert EquityAt(run, p, n) == s'.peakEquity;
      }
    }
  }

  // ----- Exactly when the caps are kept ------------------------------------------------------

  function VenuesOf(legs: seq<Leg>): (vs: seq<string>)
    ensures |vs| == |legs|
  {
    seq(|legs|, k requires 0 <= k < |legs| => legs[k].venue)
  }

  predicate NoRepeats(vs: seq<string>) {
    forall i, j :: 0 <= i < j < |vs| ==> vs[i] != vs[j]
  }

  /** Every approval of legs on these venues, with no boost over one, leaves the venues within their caps. */
  ghost predicate VenueCapsKept(vs: seq<string>) {
    forall s: State, i: Intent, x: Context, p: Policy
      | VenuesOf(i.legs) == vs && NonnegativeLegs(i.legs) && 0.0 <= Boost(x, p) <= 1.0 &&
          VenuesWithin(s.venueDeployed, p, 1.0) ::
      VenuesWithin(Evaluated(s, i, x, p).venueDeployed, p, 1.0)
  }

  function EqualLegs(vs: seq<string>): (legs: seq<Leg>)
    ensures |legs| == |vs|
    ensures forall k :: 0 <= k < |vs| ==> legs[k] == Leg(vs[k], 60.0)
  {
    seq(|vs|, k requires 0 <= k < |vs| => Leg(vs[k], 60.0))
  }

  lemma {:induction false} EqualTotal(legs: seq<Leg>)
    requires forall k :: 0 <= k < |legs| ==> legs[k].notionalUSD == 60.0
    ensures TotalNotional(legs) == 60.0 * |legs| as real
  {
    if legs != [] {
      EqualTotal(legs[..|legs| - 1]);
    }
  }

  lemma {:induction false} TwoOnVenue(legs: seq<Leg>, a: nat, b: nat)
    requires a < b < |legs| && legs[a].venue == legs[b].venue && NonnegativeLegs(legs)
    ensures OnVenue(legs, legs[a].venue) >= legs[a].notionalUSD + legs[b].notionalUSD
  {
    var v, front := legs[a].venue, legs[..|legs| - 1];
    if b < |legs| - 1 {
      TwoOnVenue(front, a, b);
    } else {
      OneOnVenue(front, a);
    }
  }

  lemma {:induction false} OneOnVenue(legs: seq<Leg>, a: nat)
    requires a < |legs| && NonnegativeLegs(legs)
    ensures OnVenue(legs, legs[a].venue) >= legs[a].notionalUSD
  {
    var front := legs[..|legs| - 1];
    if a < |legs| - 1 {
      OneOnVenue(front, a);
    } else {
      NonnegativeSum(IsOn(legs[a].venue), front);
    }
  }

  lemma {:induction false} GateOpens(legs: seq<Leg>, p: Policy)
    requires forall k :: 0 <= k < |legs| ==>
              legs[k].notionalUSD == 60.0 && Get(p.perVenueMaxUSD, legs[k].venue) == 100.0
    ensures VenueGate(map[], legs, p).Open?
  {
    if legs != [] {
      GateOpens(legs[1..], p);
    }
  }

  function ManualPolicy(vs: seq<string>, kelly: real): Policy {
    Policy(map["MANUAL" := 60.0 * |vs| as real], map v | v in vs :: 100.0, "", "", "", 0.0, kelly, 0.0, 0.0)
  }

  function ManualIntent(vs: seq<string>): Intent {
    Intent("MANUAL", EqualLegs(vs))
  }

  function ManualContext(multiplier: real): Context {
    Context("RUNNING", "", 0.0, multiplier)
  }

  /** An intent of equal legs of 60 that fills its strategy's cap, on venues with caps of 100, is approved unscaled. */
  lemma ManualFits(vs: seq<string>, multiplier: real, kelly: real)
    requires vs != []
    ensures var (s, i, x, p) :=
              (Initial(ManualPolicy(vs, kelly)), ManualIntent(vs), ManualContext(multiplier), ManualPolicy(vs, kelly));
            Gates(s, i, x, p).Open? && FitScale(s, i, x, p) == 1.0
    ensures TotalNotional(EqualLegs(vs)) == 60.0 * |vs| as real
  {
    var legs, p := EqualLegs(vs), ManualPolicy(vs, kelly);
    EqualTotal(legs);
    GateOpens(legs, p);
    assert Available(Initial(p), "MANUAL", 0.0, p) == TotalNotional(legs);
    VenueGateFits(map[], legs, p);
    VenueLoopNeverFires(map[], legs, 1.0, p);
  }

  lemma ManualApproved(vs: seq<string>, multiplier: real, kelly: real)
    requires vs != [] && multiplier >= 0.1 && Times(multiplier, Kelly(ManualPolicy(vs, kelly))) >= 0.05
    ensures var (s, i, x, p) :=
              (Initial(ManualPolicy(vs, kelly)), ManualIntent(vs), ManualContext(multiplier), ManualPolicy(vs, kelly));
            Decide(s, i, x, p) == Approved(Times(multiplier, Kelly(p)))
  {
    ManualFits(vs, multiplier, kelly);
    assert Times(1.0, multiplier) == multiplier;
  }

  /** Two legs of 60 on one venue with a cap of 100 both pass its gate. */
  lemma RepeatedVenueOverflows(vs: seq<string>, a: nat, b: nat)
    requires a < b < |vs| && vs[a] == vs[b]
    ensures !VenueCapsKept(vs)
  {
    var (s, i, x, p) := (Initial(ManualPolicy(vs, 0.0)), ManualIntent(vs), ManualContext(1.0), ManualPolicy(vs, 0.0));
    assert Times(1.0, Kelly(p)) == 1.0;
    ManualApproved(vs, 1.0, 0.0);
    var adjusted := Scaled(i.legs, 1.0);
    assert forall k :: 0 <= k < |vs| ==> adjusted[k] == i.legs[k] by {
      assert Times(60.0, 1.0) == 60.0;
    }
    assert adjusted == i.legs;
    WithLegsAt(map[], i.legs, vs[a]);
    TwoOnVenue(i.legs, a, b);
    assert Times(1.0, VenueLimit(vs[a], p)) == 100.0;
    assert !VenuesWithin(Evaluated(s, i, x, p).venueDeployed, p, 1.0);
    assert VenuesOf(i.legs) == vs;
  }

  /** Every approval under this multiplier and Kelly fraction leaves the strategies within their caps. */
  ghost predicate StrategyCapsKept(multiplier: real, kelly: real) {
    forall s: State, i: Intent, x: Context, p: Policy
      | x.oiMultiplier == multiplier && p.kellyFraction == kelly && NonnegativeLegs(i.legs) &&
          StrategiesWithin(s.strategyDeployed, p, 1.0) ::
      StrategiesWithin(Evaluated(s, i, x, p).strategyDeployed, p, 1.0)
  }

  /** What Kelly's fraction multiplies the scale by. */
  function KellyFactor(kelly: real): real {
    if 0.0 < kelly < 1.0 then kelly else 1.0
  }

  /** The strategy caps are kept exactly when the multiplier times Kelly's fraction is at most one. */
  lemma StrategyCapsNeedBoost(multiplier: real, kelly: real)
    requires multiplier >= 0.0
    ensures StrategyCapsKept(multiplier, kelly) <==> Times(multiplier, KellyFactor(kelly)) <= 1.0
  {
    if Times(multiplier, KellyFactor(kelly)) <= 1.0 {
      forall s: State, i: Intent, x: Context, p: Policy
        | x.oiMultiplier == multiplier && p.kellyFraction == kelly && NonnegativeLegs(i.legs) &&
            StrategiesWithin(s.strategyDeployed, p, 1.0)
        ensures StrategiesWithin(Evaluated(s, i, x, p).strategyDeployed, p, 1.0)
      {
        MulNonnegative(multiplier, Kelly(p));
        EvaluateKeepsStrategies(s, i, x, p, 1.0);
      }
    } else {
      BoostOverflows(multiplier, kelly);
    }
  }

  lemma BoostOverflows(multiplier: real, kelly: real)
    requires multiplier >= 0.0 && Times(multiplier, KellyFactor(kelly)) > 1.0
    ensures !StrategyCapsKept(multiplier, kelly)
  {
    var vs := ["venue"];
    var (s, i, x, p) :=
        (Initial(ManualPolicy(vs, kelly)), ManualIntent(vs), ManualContext(multiplier), ManualPolicy(vs, kelly));
    TimesCommutes(multiplier, Kelly(p));
    TimesMonotone(Kelly(p), 1.0, multiplier);
    assert Times(1.0, multiplier) == multiplier;
    ManualApproved(vs, multiplier, kelly);
    ManualFits(vs, multiplier, kelly);
    var boost := Times(multiplier, Kelly(p));
    ScaledSum("venue", i.legs, boost);
    assert Times(60.0, boost) > 60.0 && Times(1.0, StrategyLimit("MANUAL", p)) == 60.0;
    assert Evaluated(s, i, x, p).strategyDeployed["MANUAL"] == Times(60.0, boost);
    assert !StrategiesWithin(Evaluated(s, i, x, p).strategyDeployed, p, 1.0);
  }

  /** The venue caps are kept exactly for legs on distinct venues: the gate looks at one leg at a time. */
  lemma VenueCapsNeedDistinct(vs: seq<string>)
    ensures VenueCapsKept(vs) <==> NoRepeats(vs)
  {
    if NoRepeats(vs) {
      forall s: State, i: Intent, x: Context, p: Policy
        | VenuesOf(i.legs) == vs && NonnegativeLegs(i.legs) && 0.0 <= Boost(x, p) <= 1.0 &&
            VenuesWithin(s.venueDeployed, p, 1.0)
        ensures VenuesWithin(Evaluated(s, i, x, p).venueDeployed, p, 1.0)
      {
        assert forall k :: 0 <= k < |i.legs| ==> i.legs[k].venue == vs[k];
        EvaluateKeepsVenues(s, i, x, p, 1.0);
      }
    } else {
      var a, b :| 0 <= a < b < |vs| && vs[a] == vs[b];
      RepeatedVenueOverflows(vs, a, b);
    }
  }
}
