/**
 The risk daemon: it follows equity, fills, errors, venue incidents and blacklistings, and escalates
 the operating mode of the system. Only an operator lowers the mode.

 Each call reads the clock once; the reading is an input.
 */
module RiskDaemon {
  import opened Sums
  import opened SlidingWindow

  const ERROR_WINDOW_MS := 300_000
  const STARTING_EQUITY := 100000.0

  datatype Mode = RUNNING | PAUSED | SAFE | FLATTEN | HALTED | OtherMode(name: string)

  datatype Policy = Policy(maxDrawdownPct: real, safeModeDrawdownPct: real, maxErrorRate5mPct: real,
                           minCoreVenuesForSafeMode: int, adlRiskPausePct: real, liqClusterPauseCount: int,
                           venueDelevSafeModeCount: int, venueDelevWindowMs: int)

  datatype PlaybookName = VENUE_MAINTENANCE | VOLATILITY_SPIKE | API_DEGRADATION | ADL_EVENT | LIQUIDATION_CASCADE

  datatype Playbook = Playbook(name: PlaybookName, tsMs: int, targetMode: Mode, autoResolveMs: int)

  datatype Source = VenuesBlacklisted | DrawdownSafeMode | VenueDeleveraging
                  | DrawdownPause | ErrorRatePause | ADLRiskElevated | LiquidationClusters

  datatype Tag = Untagged | Tagged(playbook: PlaybookName)

  datatype Alert = Alert(critical: bool, source: Source, value: real, threshold: real, tag: Tag)

  /** What an evaluation measures and the published state shows. */
  datatype Metrics = Metrics(errorRate: real, drawdown: real, adlRisk: real, liqClusters: int, delevCount: int)

  datatype State = State(mode: Mode, errorEvents: seq<int>, totalEvents: seq<int>, delevEvents: seq<int>,
                         blacklisted: map<string, int>, adlRiskByVenue: map<string, real>, liqClusterCount: int,
                         peakEquity: real, currentEquity: real, playbooks: seq<Playbook>, metrics: Metrics)

  function Self(t: int): int {
    t
  }

  function ModeRank(m: Mode): nat {
    match m
    case RUNNING => 0
    case PAUSED => 1
    case SAFE => 2
    case FLATTEN => 3
    case HALTED => 4
    case OtherMode(_) => 0
  }

  predicate Terminal(m: Mode) {
    m == FLATTEN || m == HALTED
  }

  // ----- What is measured --------------------------------------------------------------------

  function ErrorRate(errors: nat, total: nat): real {
    if total > 0 then errors as real / total as real * 100.0 else 0.0
  }

  function Drawdown(peak: real, current: real): real {
    if peak > 0.0 then (peak - current) / peak * 100.0 else 0.0
  }

  function BlacklistedNow(blacklisted: map<string, int>, nowMs: int): set<string> {
    set v | v in blacklisted && nowMs < blacklisted[v]
  }

  method CountBlacklisted(blacklisted: map<string, int>, nowMs: int) returns (count: nat)
    ensures count == |BlacklistedNow(blacklisted, nowMs)|
  {
    var todo := blacklisted.Keys;
    count := 0;
    ghost var counted: set<string> := {};
    while todo != {}
      invariant todo <= blacklisted.Keys && count == |counted|
      invariant counted == set v | v in blacklisted && v !in todo && nowMs < blacklisted[v]
      decreases |todo|
    {
      var v :| v in todo;
      if nowMs < blacklisted[v] {
        count := count + 1;
        counted := counted + {v};
      }
      todo := todo - {v};
    }
    assert counted == BlacklistedNow(blacklisted, nowMs);
  }

  /** The highest reading, or zero if none is positive. */
  ghost predicate IsHighest(risks: map<string, real>, max: real) {
    && max >= 0.0
    && (forall v :: v in risks ==> risks[v] <= max)
    && (max == 0.0 || exists v :: v in risks && risks[v] == max)
  }

  ghost function Highest(risks: map<string, real>): (max: real)
    ensures IsHighest(risks, max)
    decreases |risks|
  {
    if risks == map[] then 0.0
    else
      var v :| v in risks;
      var rest := Highest(risks - {v});
      if risks[v] > rest then
        assert forall u :: u in risks ==> u == v || u in risks - {v};
        risks[v]
      else
        assert forall u :: u in risks ==> u == v || u in risks - {v};
        rest
  }

  method MaxADLRisk(risks: map<string, real>) returns (max: real)
    ensures max == Highest(risks)
  {
    var todo := risks.Keys;
    max := 0.0;
    while todo != {}
      invariant todo <= risks.Keys && max >= 0.0
      invariant forall v :: v in risks && v !in todo ==> risks[v] <= max
      invariant max == 0.0 || exists v :: v in risks && risks[v] == max
      decreases |todo|
    {
      var v :| v in todo;
      if risks[v] > max {
        max := risks[v];
      }
      todo := todo - {v};
    }
  }

  // ----- What is demanded --------------------------------------------------------------------

  predicate VenuesBreached(blacklistCount: int, p: Policy) {
    blacklistCount >= p.minCoreVenuesForSafeMode
  }

  predicate DelevBreached(m: Metrics, p: Policy) {
    m.delevCount >= p.venueDelevSafeModeCount
  }

  predicate ClustersBreached(m: Metrics, p: Policy) {
    p.liqClusterPauseCount > 0 && m.liqClusters >= p.liqClusterPauseCount
  }

  predicate SafeBreached(m: Metrics, blacklistCount: int, p: Policy) {
    VenuesBreached(blacklistCount, p) || m.drawdown >= p.safeModeDrawdownPct || DelevBreached(m, p)
  }

  predicate PauseBreached(m: Metrics, p: Policy) {
    || m.drawdown >= p.maxDrawdownPct || m.errorRate >= p.maxErrorRate5mPct || m.adlRisk >= p.adlRiskPausePct
    || ClustersBreached(m, p)
  }

  /** The mode that the breached thresholds and the mode before them lead to. */
  function NewMode(mode: Mode, m: Metrics, blacklistCount: int, p: Policy): Mode {
    if Terminal(mode) then mode
    else if SafeBreached(m, blacklistCount, p) || mode == SAFE then SAFE
    else if PauseBreached(m, p) || mode == PAUSED then PAUSED
    else mode
  }

  /** A critical alert for every breached safe-mode threshold, whatever the mode was. */
  function CriticalAlerts(m: Metrics, blacklistCount: int, p: Policy): seq<Alert> {
    (if VenuesBreached(blacklistCount, p)
     then [Alert(true, VenuesBlacklisted, blacklistCount as real, p.minCoreVenuesForSafeMode as real, Untagged)]
     else [])
    + (if m.drawdown >= p.safeModeDrawdownPct
       then [Alert(true, DrawdownSafeMode, m.drawdown, p.safeModeDrawdownPct, Untagged)] else [])
    + (if DelevBreached(m, p)
       then [Alert(true, VenueDeleveraging, m.delevCount as real, p.venueDelevSafeModeCount as real,
                   Tagged(VENUE_MAINTENANCE))] else [])
  }

  /** The first breached pause threshold. */
  function PauseAlert(m: Metrics, p: Policy): Alert
    requires PauseBreached(m, p)
  {
    if m.drawdown >= p.maxDrawdownPct then Alert(false, DrawdownPause, m.drawdown, p.maxDrawdownPct, Untagged)
    else if m.errorRate >= p.maxErrorRate5mPct then
      Alert(false, ErrorRatePause, m.errorRate, p.maxErrorRate5mPct, Tagged(API_DEGRADATION))
    else if m.adlRisk >= p.adlRiskPausePct then
      Alert(false, ADLRiskElevated, m.adlRisk, p.adlRiskPausePct, Tagged(ADL_EVENT))
    else
      Alert(false, LiquidationClusters, m.liqClusters as real, p.liqClusterPauseCount as real,
            Tagged(LIQUIDATION_CASCADE))
  }

  /** Does the evaluation pause a system that was neither paused nor in safe mode? */
  predicate Pauses(mode: Mode, m: Metrics, blacklistCount: int, p: Policy) {
    ModeRank(mode) == 0 && !SafeBreached(m, blacklistCount, p) && PauseBreached(m, p)
  }

  function Alerts(mode: Mode, m: Metrics, blacklistCount: int, p: Policy): seq<Alert> {
    if Terminal(mode) then []
    else
      CriticalAlerts(m, blacklistCount, p)
      + if Pauses(mode, m, blacklistCount, p) then [PauseAlert(m, p)] else []
  }

  function NoTag(a: Alert): Alert {
    a.(tag := Untagged)
  }

  function Untag(alerts: seq<Alert>): (r: seq<Alert>)
    ensures |r| == |alerts|
  {
    seq(|alerts|, i requires 0 <= i < |alerts| => NoTag(alerts[i]))
  }

  /** The two trigger blocks of an evaluation, one threshold after another. */
  method Escalate(mode: Mode, m: Metrics, blacklistCount: nat, p: Policy) returns (newMode: Mode, alerts: seq<Alert>)
    requires !Terminal(mode)
    ensures newMode == NewMode(mode, m, blacklistCount, p)
    ensures alerts == Untag(Alerts(mode, m, blacklistCount, p))
  {
    newMode, alerts := mode, [];
    if VenuesBreached(blacklistCount, p) {
      alerts := alerts +
          [Alert(true, VenuesBlacklisted, blacklistCount as real, p.minCoreVenuesForSafeMode as real, Untagged)];
      if ModeRank(newMode) < ModeRank(SAFE) {
        newMode := SAFE;
      }
    }
    if m.drawdown >= p.safeModeDrawdownPct {
      alerts := alerts + [Alert(true, DrawdownSafeMode, m.drawdown, p.safeModeDrawdownPct, Untagged)];
      if ModeRank(newMode) < ModeRank(SAFE) {
        newMode := SAFE;
      }
    }
    if DelevBreached(m, p) {
      alerts := alerts +
          [Alert(true, VenueDeleveraging, m.delevCount as real, p.venueDelevSafeModeCount as real, Untagged)];
      if ModeRank(newMode) < ModeRank(SAFE) {
        newMode := SAFE;
      }
    }
    assert alerts == Untag(CriticalAlerts(m, blacklistCount, p));
    if m.drawdown >= p.maxDrawdownPct && ModeRank(newMode) < ModeRank(PAUSED) {
      alerts := alerts + [Alert(false, DrawdownPause, m.drawdown, p.maxDrawdownPct, Untagged)];
      newMode := PAUSED;
    }
    if m.errorRate >= p.maxErrorRate5mPct && ModeRank(newMode) < ModeRank(PAUSED) {
      alerts := alerts + [Alert(false, ErrorRatePause, m.errorRate, p.maxErrorRate5mPct, Untagged)];
      newMode := PAUSED;
    }
    if m.adlRisk >= p.adlRiskPausePct && ModeRank(newMode) < ModeRank(PAUSED) {
      alerts := alerts + [Alert(false, ADLRiskElevated, m.adlRisk, p.adlRiskPausePct, Untagged)];
      newMode := PAUSED;
    }
    if ClustersBreached(m, p) && ModeRank(newMode) < ModeRank(PAUSED) {
      alerts := alerts +
          [Alert(false, LiquidationClusters, m.liqClusters as real, p.liqClusterPauseCount as real, Untagged)];
      newMode := PAUSED;
    }
  }

  // ----- Playbooks ---------------------------------------------------------------------------

  predicate Active(playbooks: seq<Playbook>, name: PlaybookName) {
    exists k :: 0 <= k < |playbooks| && playbooks[k].name == name
  }

  function Activated(playbooks: seq<Playbook>, pb: Playbook, breached: bool): seq<Playbook> {
    if breached && !Active(playbooks, pb.name) then playbooks + [pb] else playbooks
  }

  method ActivatePlaybook(playbooks: seq<Playbook>, pb: Playbook) returns (r: seq<Playbook>)
    ensures r == Activated(playbooks, pb, true)
  {
    for i := 0 to |playbooks|
      invariant forall k :: 0 <= k < i ==> playbooks[k].name != pb.name
    {
      if playbooks[i].name == pb.name {
        return playbooks;
      }
    }
    return playbooks + [pb];
  }

  /** The playbook that goes with an alert, if its trigger is breached. */
  function TagFor(source: Source, m: Metrics, p: Policy): Tag {
    match source
    case ADLRiskElevated => if m.adlRisk >= p.adlRiskPausePct then Tagged(ADL_EVENT) else Untagged
    case LiquidationClusters => if ClustersBreached(m, p) then Tagged(LIQUIDATION_CASCADE) else Untagged
    case VenueDeleveraging => if DelevBreached(m, p) then Tagged(VENUE_MAINTENANCE) else Untagged
    case ErrorRatePause => if m.errorRate >= p.maxErrorRate5mPct then Tagged(API_DEGRADATION) else Untagged
    case _ => Untagged
  }

  function Retagged(a: Alert, m: Metrics, p: Policy): Alert {
    if TagFor(a.source, m, p).Tagged? then a.(tag := TagFor(a.source, m, p)) else a
  }

  method TagAlerts(alerts: seq<Alert>, source: Source, name: PlaybookName) returns (r: seq<Alert>)
    ensures |r| == |alerts|
    ensures forall k :: 0 <= k < |r| ==>
              r[k] == if alerts[k].source == source then alerts[k].(tag := Tagged(name)) else alerts[k]
  {
    r := alerts;
    for i := 0 to |r|
      invariant |r| == |alerts|
      invariant forall k :: i <= k < |r| ==> r[k] == alerts[k]
      invariant forall k :: 0 <= k < i ==>
                r[k] == if alerts[k].source == source then alerts[k].(tag := Tagged(name)) else alerts[k]
    {
      if r[i].source == source {
        r := r[i := r[i].(tag := Tagged(name))];
      }
    }
  }

  predicate Volatile(m: Metrics, p: Policy) {
    p.maxDrawdownPct * 0.75 < m.drawdown < p.maxDrawdownPct
  }

  /** The playbooks after an evaluation: one for each breached trigger that has none yet. */
  function Playbooks(playbooks: seq<Playbook>, nowMs: int, m: Metrics, p: Policy): seq<Playbook> {
    var a := Activated(playbooks, Playbook(ADL_EVENT, nowMs, PAUSED, 300_000), m.adlRisk >= p.adlRiskPausePct);
    var b := Activated(a, Playbook(LIQUIDATION_CASCADE, nowMs, PAUSED, 600_000), ClustersBreached(m, p));
    var c := Activated(b, Playbook(VENUE_MAINTENANCE, nowMs, SAFE, 0), DelevBreached(m, p));
    var d := Activated(c, Playbook(API_DEGRADATION, nowMs, PAUSED, 300_000), m.errorRate >= p.maxErrorRate5mPct);
    Activated(d, Playbook(VOLATILITY_SPIKE, nowMs, SAFE, 600_000), Volatile(m, p))
  }

  /** The playbook block of an evaluation. */
  method Annotate(playbooks: seq<Playbook>, alerts: seq<Alert>, nowMs: int, m: Metrics, p: Policy)
      returns (active: seq<Playbook>, tagged: seq<Alert>)
    ensures active == Playbooks(playbooks, nowMs, m, p)
    ensures |tagged| == |alerts|
    ensures forall k :: 0 <= k < |alerts| ==> tagged[k] == Retagged(alerts[k], m, p)
  {
    active, tagged := playbooks, alerts;
    if m.adlRisk >= p.adlRiskPausePct {
      active := ActivatePlaybook(active, Playbook(ADL_EVENT, nowMs, PAUSED, 300_000));
      tagged := TagAlerts(tagged, ADLRiskElevated, ADL_EVENT);
    }
    if ClustersBreached(m, p) {
      active := ActivatePlaybook(active, Playbook(LIQUIDATION_CASCADE, nowMs, PAUSED, 600_000));
      tagged := TagAlerts(tagged, LiquidationClusters, LIQUIDATION_CASCADE);
    }
    if DelevBreached(m, p) {
      active := ActivatePlaybook(active, Playbook(VENUE_MAINTENANCE, nowMs, SAFE, 0));
      tagged := TagAlerts(tagged, VenueDeleveraging, VENUE_MAINTENANCE);
    }
    if m.errorRate >= p.maxErrorRate5mPct {
      active := ActivatePlaybook(active, Playbook(API_DEGRADATION, nowMs, PAUSED, 300_000));
      tagged := TagAlerts(tagged, ErrorRatePause, API_DEGRADATION);
    }
    if Volatile(m, p) {
      active := ActivatePlaybook(active, Playbook(VOLATILITY_SPIKE, nowMs, SAFE, 600_000));
    }
  }

  /** Every alert raised carries its playbook: tagging afterwards finds them all. */
  lemma TagsComplete(mode: Mode, m: Metrics, blacklistCount: int, p: Policy, tagged: seq<Alert>)
    requires var raised := Untag(Alerts(mode, m, blacklistCount, p));
             |tagged| == |raised| && forall k :: 0 <= k < |raised| ==> tagged[k] == Retagged(raised[k], m, p)
    ensures tagged == Alerts(mode, m, blacklistCount, p)
  {
    var expected := Alerts(mode, m, blacklistCount, p);
    forall k | 0 <= k < |expected| ensures tagged[k] == expected[k] {
      assert expected[k].tag == TagFor(expected[k].source, m, p);
      assert Untag(expected)[k] == NoTag(expected[k]);
    }
  }

  // ----- The daemon's calls ------------------------------------------------------------------

  function Unresolved(playbooks: seq<Playbook>, nowMs: int): seq<Playbook> {
    Keep((pb: Playbook) => !(pb.autoResolveMs > 0 && nowMs > pb.tsMs + pb.autoResolveMs), playbooks)
  }

  function Without(playbooks: seq<Playbook>, name: PlaybookName): seq<Playbook> {
    Keep((pb: Playbook) => pb.name != name, playbooks)
  }

  function Pruned(s: State, nowMs: int, p: Policy): State {
    s.(errorEvents := Prune(Self, s.errorEvents, nowMs - ERROR_WINDOW_MS),
       totalEvents := Prune(Self, s.totalEvents, nowMs - ERROR_WINDOW_MS),
       delevEvents := Prune(Self, s.delevEvents, nowMs - p.venueDelevWindowMs))
  }

  ghost function Measurement(s: State): Metrics {
    Metrics(ErrorRate(|s.errorEvents|, |s.totalEvents|), Drawdown(s.peakEquity, s.currentEquity),
            Highest(s.adlRiskByVenue), s.liqClusterCount, |s.delevEvents|)
  }

  /** Pruning and measuring. */
  ghost function Measured(s: State, nowMs: int, p: Policy): State {
    var s' := Pruned(s, nowMs, p);
    s'.(metrics := Measurement(s'))
  }

  ghost function Evaluated(s: State, nowMs: int, p: Policy): State {
    var s' := Measured(s, nowMs, p);
    if Terminal(s.mode) then s'
    else
      s'.(mode := NewMode(s.mode, s'.metrics, |BlacklistedNow(s.blacklisted, nowMs)|, p),
          playbooks := Playbooks(s.playbooks, nowMs, s'.metrics, p))
  }

  ghost function Raised(s: State, nowMs: int, p: Policy): seq<Alert> {
    Alerts(s.mode, Measured(s, nowMs, p).metrics, |BlacklistedNow(s.blacklisted, nowMs)|, p)
  }

  function Filled(s: State, nowMs: int, pnlUSD: real, isError: bool): State {
    var equity := s.currentEquity + pnlUSD;
    s.(totalEvents := s.totalEvents + [nowMs],
       errorEvents := if isError then s.errorEvents + [nowMs] else s.errorEvents,
       currentEquity := equity, peakEquity := Max(s.peakEquity, equity))
  }

  class Daemon {
    const policy: Policy
    var mode: Mode
    var errorEvents: seq<int>
    var totalEvents: seq<int>
    var delevEvents: seq<int>
    var blacklisted: map<string, int>
    var adlRiskByVenue: map<string, real>
    var liqClusterCount: int
    var peakEquity: real
    var currentEquity: real
    var activePlaybooks: seq<Playbook>
    var metrics: Metrics

    constructor (policy: Policy)
      ensures this.policy == policy && Value() == Initial()
    {
      this.policy := policy;
      mode := RUNNING;
      errorEvents, totalEvents, delevEvents := [], [], [];
      blacklisted, adlRiskByVenue, liqClusterCount := map[], map[], 0;
      peakEquity, currentEquity := STARTING_EQUITY, STARTING_EQUITY;
      activePlaybooks, metrics := [], Metrics(0.0, 0.0, 0.0, 0, 0);
    }

    function Value(): State
      reads this
    {
      State(mode, errorEvents, totalEvents, delevEvents, blacklisted, adlRiskByVenue, liqClusterCount,
            peakEquity, currentEquity, activePlaybooks, metrics)
    }

    method PruneWindows(nowMs: int)
      modifies this
      ensures Value() == Pruned(old(Value()), nowMs, policy)
    {
      errorEvents := PruneOlderThan(Self, errorEvents, nowMs - ERROR_WINDOW_MS);
      totalEvents := PruneOlderThan(Self, totalEvents, nowMs - ERROR_WINDOW_MS);
      delevEvents := PruneOlderThan(Self, delevEvents, nowMs - policy.venueDelevWindowMs);
    }

    method Measure() returns (m: Metrics)
      ensures m == Measurement(Value())
    {
      var adlRisk := MaxADLRisk(adlRiskByVenue);
      m := Metrics(ErrorRate(|errorEvents|, |totalEvents|), Drawdown(peakEquity, currentEquity), adlRisk,
                   liqClusterCount, |delevEvents|);
    }

    method Evaluate(nowMs: int) returns (alerts: seq<Alert>)
      modifies this
      ensures Value() == Evaluated(old(Value()), nowMs, policy) && alerts == Raised(old(Value()), nowMs, policy)
    {
      PruneWindows(nowMs);
      metrics := Measure();
      assert Value() == Measured(old(Value()), nowMs, policy);
      var blacklistCount := CountBlacklisted(blacklisted, nowMs);
      if mode == HALTED || mode == FLATTEN {
        return [];
      }
      var newMode, raised := Escalate(mode, metrics, blacklistCount, policy);
      activePlaybooks, alerts := Annotate(activePlaybooks, raised, nowMs, metrics, policy);
      TagsComplete(mode, metrics, blacklistCount, policy, alerts);
      if newMode != mode {
        mode := newMode;
      }
    }

    method RecordFill(nowMs: int, pnlUSD: real, isError: bool) returns (alerts: seq<Alert>)
      modifies this
      ensures var s := Filled(old(Value()), nowMs, pnlUSD, isError);
              Value() == Evaluated(s, nowMs, policy) && alerts == Raised(s, nowMs, policy)
    {
      totalEvents := totalEvents + [nowMs];
      if isError {
        errorEvents := errorEvents + [nowMs];
      }
      currentEquity := currentEquity + pnlUSD;
      if currentEquity > peakEquity {
        peakEquity := currentEquity;
      }
      assert Value() == Filled(old(Value()), nowMs, pnlUSD, isError);
      alerts := Evaluate(nowMs);
    }

    method RecordBlacklist(nowMs: int, venue: string, ttlMs: int) returns (alerts: seq<Alert>)
      modifies this
      ensures var s := old(Value()).(blacklisted := old(blacklisted)[venue := nowMs + ttlMs]);
              Value() == Evaluated(s, nowMs, policy) && alerts == Raised(s, nowMs, policy)
    {
      blacklisted := blacklisted[venue := nowMs + ttlMs];
      alerts := Evaluate(nowMs);
    }

    method RecordADLRisk(nowMs: int, venue: string, riskPct: real) returns (alerts: seq<Alert>)
      modifies this
      ensures var s := old(Value()).(adlRiskByVenue := old(adlRiskByVenue)[venue := riskPct]);
              Value() == Evaluated(s, nowMs, policy) && alerts == Raised(s, nowMs, policy)
    {
      adlRiskByVenue := adlRiskByVenue[venue := riskPct];
      alerts := Evaluate(nowMs);
    }

    method RecordLiqCluster(nowMs: int, count: int) returns (alerts: seq<Alert>)
      modifies this
      ensures var s := old(Value()).(liqClusterCount := count);
              Value() == Evaluated(s, nowMs, policy) && alerts == Raised(s, nowMs, policy)
    {
      liqClusterCount := count;
      alerts := Evaluate(nowMs);
    }

    method RecordVenueDelevEvent(nowMs: int) returns (alerts: seq<Alert>)
      modifies this
      ensures var s := old(Value()).(delevEvents := old(delevEvents) + [nowMs]);
              Value() == Evaluated(s, nowMs, policy) && alerts == Raised(s, nowMs, policy)
    {
      delevEvents := delevEvents + [nowMs];
      alerts := Evaluate(nowMs);
    }

    method SetMode(m: Mode)
      modifies this
      ensures Value() == old(Value()).(mode := m)
    {
      mode := m;
    }

    method ActivePlaybooks(nowMs: int) returns (out: seq<Playbook>)
      modifies this
      ensures Value() == old(Value()).(playbooks := Unresolved(old(activePlaybooks), nowMs))
      ensures out == activePlaybooks
    {
      out := KeepPlaybooks((pb: Playbook) => !(pb.autoResolveMs > 0 && nowMs > pb.tsMs + pb.autoResolveMs),
                           activePlaybooks);
      activePlaybooks := out;
    }

    method ResolvePlaybook(name: PlaybookName)
      modifies this
      ensures Value() == old(Value()).(playbooks := Without(old(activePlaybooks), name))
    {
      activePlaybooks := KeepPlaybooks((pb: Playbook) => pb.name != name, activePlaybooks);
    }
  }

  method KeepPlaybooks(p: Playbook -> bool, playbooks: seq<Playbook>) returns (kept: seq<Playbook>)
    ensures kept == Keep(p, playbooks)
  {
    kept := [];
    for i := 0 to |playbooks|
      invariant kept == Keep(p, playbooks[..i])
    {
      KeepMore(p, playbooks[..i], playbooks[i]);
      assert playbooks[..i + 1] == playbooks[..i] + [playbooks[i]];
      if p(playbooks[i]) {
        kept := kept + [playbooks[i]];
      }
    }
    assert playbooks[..|playbooks|] == playbooks;
  }

  function Initial(): State {
    State(RUNNING, [], [], [], map[], map[], 0, STARTING_EQUITY, STARTING_EQUITY, [], Metrics(0.0, 0.0, 0.0, 0, 0))
  }

  // ----- One evaluation ----------------------------------------------------------------------

  /** A warning is raised exactly when the evaluation pauses a system that ran, and only one. */
  lemma WarningsExplainPauses(mode: Mode, m: Metrics, blacklistCount: int, p: Policy)
    ensures var (alerts, mode') := (Alerts(mode, m, blacklistCount, p), NewMode(mode, m, blacklistCount, p));
            && ((exists k :: 0 <= k < |alerts| && !alerts[k].critical) <==> mode' == PAUSED != mode)
            && (forall k :: 0 <= k < |alerts| && !alerts[k].critical ==>
                k == |alerts| - 1 && alerts[k].value >= alerts[k].threshold)
  {
    var alerts := Alerts(mode, m, blacklistCount, p);
    if Pauses(mode, m, blacklistCount, p) {
      assert !alerts[|alerts| - 1].critical;
    }
  }

  /** A critical alert is raised exactly when safe mode is demanded of a system that is not flattening or halted. */
  lemma CriticalsExplainSafe(mode: Mode, m: Metrics, blacklistCount: int, p: Policy)
    ensures var alerts := Alerts(mode, m, blacklistCount, p);
            && ((exists k :: 0 <= k < |alerts| && alerts[k].critical) <==>
                !Terminal(mode) && SafeBreached(m, blacklistCount, p))
            && (forall k :: 0 <= k < |alerts| && alerts[k].critical ==> alerts[k].value >= alerts[k].threshold)
  {
    var alerts := Alerts(mode, m, blacklistCount, p);
    if !Terminal(mode) && SafeBreached(m, blacklistCount, p) {
      assert alerts[0] == CriticalAlerts(m, blacklistCount, p)[0] && alerts[0].critical;
    }
  }

  /** The alerts that the measured values call for, each with its value, its threshold and its playbook. */
  predicate CalledFor(a: Alert, mode: Mode, m: Metrics, blacklistCount: int, p: Policy) {
    var (venues, delev) := (blacklistCount >= p.minCoreVenuesForSafeMode, m.delevCount >= p.venueDelevSafeModeCount);
    var runs := mode != PAUSED && mode != SAFE && !venues && m.drawdown < p.safeModeDrawdownPct && !delev;
    match a.source
    case VenuesBlacklisted =>
      venues && a == Alert(true, a.source, blacklistCount as real, p.minCoreVenuesForSafeMode as real, Untagged)
    case DrawdownSafeMode =>
      m.drawdown >= p.safeModeDrawdownPct && a == Alert(true, a.source, m.drawdown, p.safeModeDrawdownPct, Untagged)
    case VenueDeleveraging =>
      delev && a == Alert(true, a.source, m.delevCount as real, p.venueDelevSafeModeCount as real,
                          Tagged(VENUE_MAINTENANCE))
    case DrawdownPause =>
      runs && m.drawdown >= p.maxDrawdownPct && a == Alert(false, a.source, m.drawdown, p.maxDrawdownPct, Untagged)
    case ErrorRatePause =>
      && runs && m.drawdown < p.maxDrawdownPct && m.errorRate >= p.maxErrorRate5mPct
      && a == Alert(false, a.source, m.errorRate, p.maxErrorRate5mPct, Tagged(API_DEGRADATION))
    case ADLRiskElevated =>
      && runs && m.drawdown < p.maxDrawdownPct && m.errorRate < p.maxErrorRate5mPct && m.adlRisk >= p.adlRiskPausePct
      && a == Alert(false, a.source, m.adlRisk, p.adlRiskPausePct, Tagged(ADL_EVENT))
    case LiquidationClusters =>
      && runs && m.drawdown < p.maxDrawdownPct && m.errorRate < p.maxErrorRate5mPct && m.adlRisk < p.adlRiskPausePct
      && 0 < p.liqClusterPauseCount <= m.liqClusters
      && a == Alert(false, a.source, m.liqClusters as real, p.liqClusterPauseCount as real, Tagged(LIQUIDATION_CASCADE))
  }

  /**
   Exactly those are raised, each once: one for every safe-mode threshold that is breached, and, where
   none is and the system runs, one for the first pause threshold that is.
   */
  lemma AlertsExactly(mode: Mode, m: Metrics, blacklistCount: int, p: Policy)
    ensures var alerts := Alerts(mode, m, blacklistCount, p);
            && (forall a :: a in alerts <==>
                  mode != FLATTEN && mode != HALTED && CalledFor(a, mode, m, blacklistCount, p))
            && (forall i, j :: 0 <= i < j < |alerts| ==> alerts[i].source != alerts[j].source)
  {
  }

  /** What each playbook asks for. */
  predicate IsStandard(pb: Playbook, nowMs: int) {
    && pb.tsMs == nowMs
    && pb.targetMode == (if pb.name == VENUE_MAINTENANCE || pb.name == VOLATILITY_SPIKE then SAFE else PAUSED)
    && pb.autoResolveMs == (match pb.name
                            case VENUE_MAINTENANCE => 0
                            case VOLATILITY_SPIKE => 600_000
                            case API_DEGRADATION => 300_000
                            case ADL_EVENT => 300_000
                            case LIQUIDATION_CASCADE => 600_000)
  }

  predicate Triggered(name: PlaybookName, m: Metrics, p: Policy) {
    match name
    case VENUE_MAINTENANCE => m.delevCount >= p.venueDelevSafeModeCount
    case VOLATILITY_SPIKE => 4.0 * m.drawdown > 3.0 * p.maxDrawdownPct && m.drawdown < p.maxDrawdownPct
    case API_DEGRADATION => m.errorRate >= p.maxErrorRate5mPct
    case ADL_EVENT => m.adlRisk >= p.adlRiskPausePct
    case LIQUIDATION_CASCADE => 0 < p.liqClusterPauseCount <= m.liqClusters
  }

  /** The order in which the triggers are looked at. */
  function Turn(name: PlaybookName): nat {
    match name
    case ADL_EVENT => 0
    case LIQUIDATION_CASCADE => 1
    case VENUE_MAINTENANCE => 2
    case API_DEGRADATION => 3
    case VOLATILITY_SPIKE => 4
  }

  /** The playbooks after n turns: those there were, and the new ones of the triggers looked at. */
  ghost predicate AddedIn(n: nat, playbooks: seq<Playbook>, now: seq<Playbook>, nowMs: int, m: Metrics, p: Policy) {
    && (forall x :: x in now <==>
          || x in playbooks
          || (Turn(x.name) < n && IsStandard(x, nowMs) && Triggered(x.name, m, p) && !Active(playbooks, x.name)))
    && (forall name :: Active(now, name) <==> Active(playbooks, name) || (Turn(name) < n && Triggered(name, m, p)))
  }

  lemma NoneAdded(playbooks: seq<Playbook>, nowMs: int, m: Metrics, p: Policy)
    ensures AddedIn(0, playbooks, playbooks, nowMs, m, p)
  {
  }

  lemma OneMoreAdded(n: nat, playbooks: seq<Playbook>, now: seq<Playbook>, pb: Playbook, breached: bool,
                     nowMs: int, m: Metrics, p: Policy)
    requires AddedIn(n, playbooks, now, nowMs, m, p) && Turn(pb.name) == n && IsStandard(pb, nowMs)
    requires breached <==> Triggered(pb.name, m, p)
    ensures AddedIn(n + 1, playbooks, Activated(now, pb, breached), nowMs, m, p)
  {
    var r := Activated(now, pb, breached);
    if breached && !Active(now, pb.name) {
      assert r[|now|] == pb;
      forall name | Active(now, name) ensures Active(r, name) {
        var k :| 0 <= k < |now| && now[k].name == name;
        assert r[k].name == name;
      }
    }
  }

  lemma AllAdded(playbooks: seq<Playbook>, nowMs: int, m: Metrics, p: Policy)
    ensures AddedIn(5, playbooks, Playbooks(playbooks, nowMs, m, p), nowMs, m, p)
  {
    var (adl, cascade) :=
      (Playbook(ADL_EVENT, nowMs, PAUSED, 300_000), Playbook(LIQUIDATION_CASCADE, nowMs, PAUSED, 600_000));
    var (maintenance, degraded) :=
      (Playbook(VENUE_MAINTENANCE, nowMs, SAFE, 0), Playbook(API_DEGRADATION, nowMs, PAUSED, 300_000));
    var volatile := Playbook(VOLATILITY_SPIKE, nowMs, SAFE, 600_000);
    var a := Activated(playbooks, adl, m.adlRisk >= p.adlRiskPausePct);
    var b := Activated(a, cascade, ClustersBreached(m, p));
    var c := Activated(b, maintenance, DelevBreached(m, p));
    var d := Activated(c, degraded, m.errorRate >= p.maxErrorRate5mPct);
    NoneAdded(playbooks, nowMs, m, p);
    OneMoreAdded(0, playbooks, playbooks, adl, m.adlRisk >= p.adlRiskPausePct, nowMs, m, p);
    OneMoreAdded(1, playbooks, a, cascade, ClustersBreached(m, p), nowMs, m, p);
    OneMoreAdded(2, playbooks, b, maintenance, DelevBreached(m, p), nowMs, m, p);
    OneMoreAdded(3, playbooks, c, degraded, m.errorRate >= p.maxErrorRate5mPct, nowMs, m, p);
    OneMoreAdded(4, playbooks, d, volatile, Volatile(m, p), nowMs, m, p);
  }

  /** An evaluation adds exactly the standard playbooks of the triggers that are breached and have none yet. */
  lemma PlaybooksExactly(playbooks: seq<Playbook>, nowMs: int, m: Metrics, p: Policy, pb: Playbook)
    ensures pb in Playbooks(playbooks, nowMs, m, p) <==>
              || pb in playbooks
              || (IsStandard(pb, nowMs) && Triggered(pb.name, m, p) && !Active(playbooks, pb.name))
  {
    AllAdded(playbooks, nowMs, m, p);
  }

  lemma {:induction false} KeptAre(keep: Playbook -> bool, playbooks: seq<Playbook>, pb: Playbook)
    ensures pb in Keep(keep, playbooks) <==> pb in playbooks && keep(pb)
  {
    if playbooks != [] {
      KeptAre(keep, playbooks[..|playbooks| - 1], pb);
      assert playbooks == playbooks[..|playbooks| - 1] + [playbooks[|playbooks| - 1]];
    }
  }

  /** Listing drops exactly those past the time they resolve in, if they do, and resolving exactly the one named. */
  lemma ResolvedExactly(playbooks: seq<Playbook>, nowMs: int, name: PlaybookName, pb: Playbook)
    ensures pb in Unresolved(playbooks, nowMs) <==>
              pb in playbooks && (pb.autoResolveMs <= 0 || nowMs - pb.tsMs <= pb.autoResolveMs)
    ensures pb in Without(playbooks, name) <==> pb in playbooks && pb.name != name
  {
    KeptAre((x: Playbook) => !(x.autoResolveMs > 0 && nowMs > x.tsMs + x.autoResolveMs), playbooks, pb);
    KeptAre((x: Playbook) => x.name != name, playbooks, pb);
  }

  // ----- Runs --------------------------------------------------------------------------------

  datatype Call = Fill(pnlUSD: real, isError: bool) | Blacklist(venue: string, ttlMs: int)
                  | ADLRisk(venue: string, riskPct: real)
                | LiqCluster(count: int) | VenueDelev | Tick | Set(mode: Mode) | List | Resolve(name: PlaybookName)

  datatype Event = Event(nowMs: int, call: Call)

  function EventTime(e: Event): int {
    e.nowMs
  }

  predicate Evaluates(c: Call) {
    !c.Set? && !c.List? && !c.Resolve?
  }

  /** What a call records before it evaluates, or all it does if it does not evaluate. */
  function Recorded(s: State, e: Event): State {
    match e.call
    case Fill(pnlUSD, isError) => Filled(s, e.nowMs, pnlUSD, isError)
    case Blacklist(venue, ttlMs) => s.(blacklisted := s.blacklisted[venue := e.nowMs + ttlMs])
    case ADLRisk(venue, riskPct) => s.(adlRiskByVenue := s.adlRiskByVenue[venue := riskPct])
    case LiqCluster(count) => s.(liqClusterCount := count)
    case VenueDelev => s.(delevEvents := s.delevEvents + [e.nowMs])
    case Tick => s
    case Set(mode) => s.(mode := mode)
    case List => s.(playbooks := Unresolved(s.playbooks, e.nowMs))
    case Resolve(name) => s.(playbooks := Without(s.playbooks, name))
  }

  ghost function Apply(s: State, e: Event, p: Policy): State {
    if Evaluates(e.call) then Evaluated(Recorded(s, e), e.nowMs, p) else Recorded(s, e)
  }

  /** The states of a daemon between the calls of a run: one before each call, and the last one. */
  ghost predicate IsLog(log: seq<State>, run: seq<Event>, p: Policy) {
    && |log| == |run| + 1 && log[0] == Initial()
    && forall k {:trigger Apply(log[k], run[k], p)} :: 0 <= k < |run| ==> log[k + 1] == Apply(log[k], run[k], p)
  }

  lemma LogExtends(before: seq<State>, run: seq<Event>, p: Policy)
    requires run != [] && IsLog(before, run[..|run| - 1], p)
    ensures IsLog(before + [Apply(before[|run| - 1], run[|run| - 1], p)], run, p)
  {
    var n := |run| - 1;
    var log := before + [Apply(before[n], run[n], p)];
    forall k | 0 <= k < |run| ensures log[k + 1] == Apply(log[k], run[k], p) {
      assert k < n ==> run[..n][k] == run[k] && before[k + 1] == Apply(before[k], run[..n][k], p);
    }
  }

  /** Every run has one. */
  ghost function LogOf(run: seq<Event>, p: Policy): (log: seq<State>)
    ensures IsLog(log, run, p)
  {
    if run == [] then [Initial()]
    else
      var n := |run| - 1;
      var before := LogOf(run[..n], p);
      LogExtends(before, run, p);
      before + [Apply(before[n], run[n], p)]
  }

  // ----- The mode over a run -----------------------------------------------------------------

  /** A mode may give way to one at least as high, and a terminal one to none. */
  predicate MayFollow(mode: Mode, mode': Mode) {
    ModeRank(mode) <= ModeRank(mode') && (Terminal(mode) ==> mode' == mode)
  }

  lemma MayFollowFurther(a: Mode, b: Mode, c: Mode)
    requires MayFollow(a, b) && MayFollow(b, c)
    ensures MayFollow(a, c)
  {
  }

  lemma ModeStep(s: State, e: Event, p: Policy)
    requires !e.call.Set?
    ensures MayFollow(s.mode, Apply(s, e, p).mode)
  {
    assert Recorded(s, e).mode == s.mode;
  }

  /** The same of modes one after another. */
  lemma {:induction false} ModesFollow(modes: seq<Mode>, m: nat, n: nat)
    requires m <= n < |modes| && forall k :: m <= k < n ==> MayFollow(modes[k], modes[k + 1])
    ensures MayFollow(modes[m], modes[n])
  {
    if m < n {
      ModesFollow(modes, m, n - 1);
      assert MayFollow(modes[n - 1], modes[n - 1 + 1]);
      MayFollowFurther(modes[m], modes[n - 1], modes[n]);
    }
  }

  lemma ModesStep(log: seq<State>, run: seq<Event>, p: Policy, k: nat)
    requires IsLog(log, run, p) && k < |run| && !run[k].call.Set?
    ensures MayFollow(log[k].mode, log[k + 1].mode)
  {
    ModeStep(log[k], run[k], p);
  }

  /** Between two settings by an operator the mode never falls, and flattening and halting never end. */
  lemma OnlyOperatorsLower(log: seq<State>, run: seq<Event>, p: Policy, m: nat, n: nat)
    requires IsLog(log, run, p) && m <= n <= |run| && forall k :: m <= k < n ==> !run[k].call.Set?
    ensures MayFollow(log[m].mode, log[n].mode)
  {
    var modes := seq(|log|, k requires 0 <= k < |log| => log[k].mode);
    forall k | m <= k < n ensures MayFollow(modes[k], modes[k + 1]) {
      ModesStep(log, run, p, k);
    }
    ModesFollow(modes, m, n);
  }

  /** An operator sets the mode to what was asked for; listing and resolving change playbooks only. */
  lemma OperatorsDecide(log: seq<State>, run: seq<Event>, p: Policy, n: nat)
    requires IsLog(log, run, p) && n < |run|
    ensures match run[n].call
            case Set(mode) => log[n + 1] == log[n].(mode := mode)
            case List => log[n + 1] == log[n].(playbooks := Unresolved(log[n].playbooks, run[n].nowMs))
            case Resolve(name) => log[n + 1] == log[n].(playbooks := Without(log[n].playbooks, name))
            case _ => true
  {
    assert log[n + 1] == Apply(log[n], run[n], p);
  }

  // ----- Equity over a run -------------------------------------------------------------------

  function EquityAt(run: seq<Event>, n: nat): real
    requires n <= |run|
  {
    if n == 0 then 100000.0
    else EquityAt(run, n - 1) + if run[n - 1].call.Fill? then run[n - 1].call.pnlUSD else 0.0
  }

  lemma EquityStep(s: State, e: Event, p: Policy)
    ensures var s' := Apply(s, e, p);
            && s'.currentEquity == s.currentEquity + (if e.call.Fill? then e.call.pnlUSD else 0.0)
            && s'.peakEquity == if e.call.Fill? then Max(s.peakEquity, s'.currentEquity) else s.peakEquity
  {
    assert Apply(s, e, p).peakEquity == Recorded(s, e).peakEquity;
  }

  /** The highest equity so far. */
  function PeakAt(run: seq<Event>, n: nat): real
    requires n <= |run|
  {
    if n == 0 then 100000.0 else Max(PeakAt(run, n - 1), EquityAt(run, n))
  }

  lemma {:induction false} PeakAtIsHighest(run: seq<Event>, n: nat)
    requires n <= |run|
    ensures forall k :: 0 <= k <= n ==> EquityAt(run, k) <= PeakAt(run, n)
    ensures exists k :: 0 <= k <= n && EquityAt(run, k) == PeakAt(run, n)
  {
    if n == 0 {
      assert EquityAt(run, 0) == STARTING_EQUITY;
    } else {
      PeakAtIsHighest(run, n - 1);
      var k :| 0 <= k <= n - 1 && EquityAt(run, k) == PeakAt(run, n - 1);
      assert EquityAt(run, if PeakAt(run, n) == PeakAt(run, n - 1) then k else n) == PeakAt(run, n);
    }
  }

  lemma {:induction false} EquityOverRun(log: seq<State>, run: seq<Event>, p: Policy, n: nat)
    requires IsLog(log, run, p) && n <= |run|
    ensures log[n].currentEquity == EquityAt(run, n) <= PeakAt(run, n) == log[n].peakEquity
  {
    if n > 0 {
      EquityOverRun(log, run, p, n - 1);
      EquityStep(log[n - 1], run[n - 1], p);
    }
  }

  /** The peak is the highest equity ever held, no fill being left out in any mode. */
  lemma PeakIsHighest(log: seq<State>, run: seq<Event>, p: Policy, n: nat)
    requires IsLog(log, run, p) && n <= |run|
    ensures log[n].currentEquity == EquityAt(run, n)
    ensures forall k :: 0 <= k <= n ==> EquityAt(run, k) <= log[n].peakEquity
    ensures exists k :: 0 <= k <= n && EquityAt(run, k) == log[n].peakEquity
  {
    EquityOverRun(log, run, p, n);
    PeakAtIsHighest(run, n);
  }

  lemma DrawdownSign(peak: real, current: real)
    requires current <= peak && peak > 0.0
    ensures Drawdown(peak, current) >= 0.0
  {
  }

  lemma PeakIsAbove(log: seq<State>, run: seq<Event>, p: Policy, n: nat)
    requires IsLog(log, run, p) && n <= |run|
    ensures log[n].peakEquity >= STARTING_EQUITY
    ensures log[n].currentEquity <= log[n].peakEquity
  {
    PeakIsHighest(log, run, p, n);
    assert EquityAt(run, 0) <= log[n].peakEquity && EquityAt(run, n) <= log[n].peakEquity;
  }

  /** So the drawdown is never negative, whatever the fills were. */
  lemma DrawdownNonnegative(log: seq<State>, run: seq<Event>, p: Policy, n: nat)
    requires IsLog(log, run, p) && n <= |run|
    ensures Drawdown(log[n].peakEquity, log[n].currentEquity) >= 0.0
  {
    PeakIsAbove(log, run, p, n);
    DrawdownSign(log[n].peakEquity, log[n].currentEquity);
  }

  // ----- The windows over a run --------------------------------------------------------------

  function IsFill(): Call -> bool {
    (c: Call) => c.Fill?
  }

  function IsError(): Call -> bool {
    (c: Call) => c.Fill? && c.isError
  }

  function IsDelev(): Call -> bool {
    (c: Call) => c.VenueDelev?
  }

  /** The times of all calls made so far that count: the full history, which the daemon does not keep. */
  function Occurred(run: seq<Event>, counts: Call -> bool, n: nat): seq<int>
    requires n <= |run|
  {
    if n == 0 then [] else Occurred(run, counts, n - 1) + if counts(run[n - 1].call) then [run[n - 1].nowMs] else []
  }

  /** The cutoff of the last evaluation, for a window of the length given. */
  function CutAt(run: seq<Event>, n: nat, windowMs: int): int
    requires n <= |run| && run != []
  {
    if n == 0 then run[0].nowMs - windowMs
    else if Evaluates(run[n - 1].call) then run[n - 1].nowMs - windowMs
    else CutAt(run, n - 1, windowMs)
  }

  function LastTime(run: seq<Event>, n: nat): int
    requires n <= |run| && run != []
  {
    if n == 0 then run[0].nowMs else run[n - 1].nowMs
  }

  /** A list of the daemon is what the full history holds since the last evaluation's cutoff. */
  ghost predicate ListTrue(list: seq<int>, history: seq<int>, cut: int, lastMs: int, windowMs: int) {
    InOrder(Self, history) && Follows(Self, history, lastMs) && cut <= lastMs - windowMs &&
        list == Recent(Self, history, cut)
  }

  /** One call: a list that the call appends to or not, pruned if the call evaluates. */
  function ListStep(list: seq<int>, e: Event, counts: bool, windowMs: int): seq<int> {
    var list' := list + if counts then [e.nowMs] else [];
    if Evaluates(e.call) then Prune(Self, list', e.nowMs - windowMs) else list'
  }

  lemma ListStepTrue(list: seq<int>, history: seq<int>, cut: int, lastMs: int, windowMs: int, e: Event, counts: bool)
    requires ListTrue(list, history, cut, lastMs, windowMs) && lastMs <= e.nowMs && (counts ==> Evaluates(e.call))
    ensures ListTrue(ListStep(list, e, counts, windowMs), history + (if counts then [e.nowMs] else []),
                     if Evaluates(e.call) then e.nowMs - windowMs else cut, e.nowMs, windowMs)
  {
    FollowsLater(Self, history, lastMs, e.nowMs);
    if counts {
      AppendInOrder(Self, history, e.nowMs);
      PrunedWithOneMore(Self, history, list, e.nowMs, cut, e.nowMs - windowMs);
    } else {
      assert list + [] == list && history + [] == history;
      if Evaluates(e.call) {
        PrunedHistory(Self, history, list, cut, e.nowMs - windowMs);
      }
    }
  }

  lemma ListsStep(s: State, e: Event, p: Policy)
    ensures var s' := Apply(s, e, p);
            && s'.totalEvents == ListStep(s.totalEvents, e, IsFill()(e.call), ERROR_WINDOW_MS)
            && s'.errorEvents == ListStep(s.errorEvents, e, IsError()(e.call), ERROR_WINDOW_MS)
            && s'.delevEvents == ListStep(s.delevEvents, e, IsDelev()(e.call), p.venueDelevWindowMs)
  {
    var r := Recorded(s, e);
    assert r.totalEvents == s.totalEvents + if IsFill()(e.call) then [e.nowMs] else [];
    assert r.errorEvents == s.errorEvents + if IsError()(e.call) then [e.nowMs] else [];
    assert r.delevEvents == s.delevEvents + if IsDelev()(e.call) then [e.nowMs] else [];
  }

  /** A list over the run, on its own. */
  function ListAt(run: seq<Event>, counts: Call -> bool, windowMs: int, n: nat): seq<int>
    requires n <= |run|
  {
    if n == 0 then [] else ListStep(ListAt(run, counts, windowMs, n - 1), run[n - 1], counts(run[n - 1].call), windowMs)
  }

  lemma {:induction false} ListsOverRun(log: seq<State>, run: seq<Event>, p: Policy, n: nat)
    requires IsLog(log, run, p) && n <= |run|
    ensures var s := log[n];
            && s.totalEvents == ListAt(run, IsFill(), ERROR_WINDOW_MS, n)
            && s.errorEvents == ListAt(run, IsError(), ERROR_WINDOW_MS, n)
            && s.delevEvents == ListAt(run, IsDelev(), p.venueDelevWindowMs, n)
  {
    if n > 0 {
      ListsOverRun(log, run, p, n - 1);
      ListsStep(log[n - 1], run[n - 1], p);
    }
  }

  lemma {:induction false} ListAlwaysTrue(run: seq<Event>, counts: Call -> bool, windowMs: int, n: nat)
    requires n <= |run| && run != [] && InOrder(EventTime, run) && forall c :: counts(c) ==> Evaluates(c)
    ensures ListTrue(ListAt(run, counts, windowMs, n), Occurred(run, counts, n), CutAt(run, n, windowMs),
                     LastTime(run, n), windowMs)
  {
    if n > 0 {
      ListAlwaysTrue(run, counts, windowMs, n - 1);
      var e, last := run[n - 1], LastTime(run, n - 1);
      assert last <= e.nowMs by {
        assert n > 1 ==> EventTime(run[n - 2]) <= EventTime(run[n - 1]);
      }
      ListStepTrue(ListAt(run, counts, windowMs, n - 1), Occurred(run, counts, n - 1), CutAt(run, n - 1, windowMs),
                   last, windowMs, e, counts(e.call));
    }
  }

  /** The calls that count in the closed window that ends now. */
  function InWindow(run: seq<Event>, counts: Call -> bool, n: nat, windowMs: int): seq<int>
    requires 0 < n <= |run|
  {
    Keep(Within(Self, run[n - 1].nowMs - windowMs, run[n - 1].nowMs), Occurred(run, counts, n))
  }

  lemma ListIsWindow(run: seq<Event>, counts: Call -> bool, windowMs: int, n: nat)
    requires 0 < n <= |run| && InOrder(EventTime, run) && Evaluates(run[n - 1].call)
    requires forall c :: counts(c) ==> Evaluates(c)
    ensures ListAt(run, counts, windowMs, n) == InWindow(run, counts, n, windowMs)
  {
    ListAlwaysTrue(run, counts, windowMs, n);
    RecentIsWithin(Self, Occurred(run, counts, n), run[n - 1].nowMs - windowMs, run[n - 1].nowMs);
  }

  /** After an evaluation every pruned list is the full history filtered to its window. */
  lemma ListsAreWindows(log: seq<State>, run: seq<Event>, p: Policy, n: nat)
    requires IsLog(log, run, p) && 0 < n <= |run| && InOrder(EventTime, run) && Evaluates(run[n - 1].call)
    ensures var s := log[n];
            && s.totalEvents == InWindow(run, IsFill(), n, ERROR_WINDOW_MS)
            && s.errorEvents == InWindow(run, IsError(), n, ERROR_WINDOW_MS)
            && s.delevEvents == InWindow(run, IsDelev(), n, p.venueDelevWindowMs)
  {
    ListsOverRun(log, run, p, n);
    ListIsWindow(run, IsFill(), ERROR_WINDOW_MS, n);
    ListIsWindow(run, IsError(), ERROR_WINDOW_MS, n);
    ListIsWindow(run, IsDelev(), p.venueDelevWindowMs, n);
  }

  lemma {:induction false} FewerErrors(run: seq<Event>, n: nat, within: int -> bool)
    requires n <= |run|
    ensures |Keep(within, Occurred(run, IsError(), n))| <= |Keep(within, Occurred(run, IsFill(), n))|
  {
    if n > 0 {
      FewerErrors(run, n - 1, within);
      var now, fills, errors := run[n - 1].nowMs, Occurred(run, IsFill(), n - 1), Occurred(run, IsError(), n - 1);
      KeepMore(within, fills, now);
      KeepMore(within, errors, now);
      assert fills + [] == fills && errors + [] == errors;
    }
  }

  lemma RateInRange(errors: nat, total: nat)
    requires errors <= total
    ensures 0.0 <= ErrorRate(errors, total) <= 100.0
  {
    if total > 0 {
      var share := errors as real / total as real;
      assert 0.0 <= share <= 1.0;
    }
  }

  /** The error rate published is that of the fills of the last five minutes, and lies between 0 and 100. */
  lemma ErrorRateTrue(log: seq<State>, run: seq<Event>, p: Policy, n: nat)
    requires IsLog(log, run, p) && 0 < n <= |run| && InOrder(EventTime, run) && Evaluates(run[n - 1].call)
    ensures var (errors, fills) :=
              (InWindow(run, IsError(), n, ERROR_WINDOW_MS), InWindow(run, IsFill(), n, ERROR_WINDOW_MS));
            && log[n].metrics.errorRate == ErrorRate(|errors|, |fills|)
            && |errors| <= |fills|
            && 0.0 <= log[n].metrics.errorRate <= 100.0
  {
    ListsAreWindows(log, run, p, n);
    RateAfter(log[n - 1], run[n - 1], p);
    var now := run[n - 1].nowMs;
    FewerErrors(run, n, Within(Self, now - ERROR_WINDOW_MS, now));
    RateInRange(|InWindow(run, IsError(), n, ERROR_WINDOW_MS)|, |InWindow(run, IsFill(), n, ERROR_WINDOW_MS)|);
  }

  lemma RateAfter(s: State, e: Event, p: Policy)
    requires Evaluates(e.call)
    ensures var s' := Apply(s, e, p); s'.metrics.errorRate == ErrorRate(|s'.errorEvents|, |s'.totalEvents|)
  {
    MetricsAfter(s, e, p);
  }

  lemma MetricsAfter(s: State, e: Event, p: Policy)
    requires Evaluates(e.call)
    ensures var s' := Apply(s, e, p);
            && s'.metrics == Measurement(s')
            && s'.mode == NewMode(s.mode, s'.metrics, |BlacklistedNow(s'.blacklisted, e.nowMs)|, p)
  {
    var r := Recorded(s, e);
    assert Measurement(Pruned(r, e.nowMs, p)) == Measured(r, e.nowMs, p).metrics;
  }

  // ----- What a run alone demands ------------------------------------------------------------

  /** When the last blacklisting of each venue expires. */
  function BlacklistingsAt(run: seq<Event>, n: nat): map<string, int>
    requires n <= |run|
  {
    if n == 0 then map[]
    else
      var (before, e) := (BlacklistingsAt(run, n - 1), run[n - 1]);
      if e.call.Blacklist? then before[e.call.venue := e.nowMs + e.call.ttlMs] else before
  }

  /** The last reading of each venue. */
  function ReadingsAt(run: seq<Event>, n: nat): map<string, real>
    requires n <= |run|
  {
    if n == 0 then map[]
    else
      var (before, e) := (ReadingsAt(run, n - 1), run[n - 1]);
      if e.call.ADLRisk? then before[e.call.venue := e.call.riskPct] else before
  }

  /** The last number of clusters. */
  function ClustersAt(run: seq<Event>, n: nat): int
    requires n <= |run|
  {
    if n == 0 then 0 else if run[n - 1].call.LiqCluster? then run[n - 1].call.count else ClustersAt(run, n - 1)
  }

  lemma RecordsStep(s: State, e: Event, p: Policy)
    ensures var s' := Apply(s, e, p);
            && s'.blacklisted ==
                 (if e.call.Blacklist? then s.blacklisted[e.call.venue := e.nowMs + e.call.ttlMs] else s.blacklisted)
            && s'.adlRiskByVenue ==
                 (if e.call.ADLRisk? then s.adlRiskByVenue[e.call.venue := e.call.riskPct] else s.adlRiskByVenue)
            && s'.liqClusterCount == (if e.call.LiqCluster? then e.call.count else s.liqClusterCount)
  {
    var (s', r) := (Apply(s, e, p), Recorded(s, e));
    assert s'.blacklisted == r.blacklisted && s'.adlRiskByVenue == r.adlRiskByVenue;
    assert s'.liqClusterCount == r.liqClusterCount;
  }

  /** What the daemon has recorded, apart from equity and the pruned lists. */
  datatype Records = Records(blacklisted: map<string, int>, readings: map<string, real>, clusters: int)

  function RecordsOf(s: State): Records {
    Records(s.blacklisted, s.adlRiskByVenue, s.liqClusterCount)
  }

  function RecordsAt(run: seq<Event>, n: nat): Records
    requires n <= |run|
  {
    Records(BlacklistingsAt(run, n), ReadingsAt(run, n), ClustersAt(run, n))
  }

  lemma RecordsNext(run: seq<Event>, p: Policy, n: nat, s: State)
    requires n < |run| && RecordsOf(s) == RecordsAt(run, n)
    ensures RecordsOf(Apply(s, run[n], p)) == RecordsAt(run, n + 1)
  {
    RecordsStep(s, run[n], p);
  }

  lemma {:induction false} RecordsOverRun(log: seq<State>, run: seq<Event>, p: Policy, n: nat)
    requires IsLog(log, run, p) && n <= |run|
    ensures RecordsOf(log[n]) == RecordsAt(run, n)
  {
    if n > 0 {
      RecordsOverRun(log, run, p, n - 1);
      RecordsNext(run, p, n - 1, log[n - 1]);
    }
  }

  /** Equity is below its peak by that percentage of the peak. */
  predicate DrawnDown(run: seq<Event>, n: nat, pct: real)
    requires n <= |run|
  {
    100.0 * (PeakAt(run, n) - EquityAt(run, n)) >= Times(pct, PeakAt(run, n))
  }

  /** That percentage of the fills of the last five minutes were errors. */
  predicate ErrorsReach(run: seq<Event>, n: nat, pct: real)
    requires 0 < n <= |run|
  {
    var (errors, fills) := (|InWindow(run, IsError(), n, 300_000)|, |InWindow(run, IsFill(), n, 300_000)|);
    if fills == 0 then pct <= 0.0 else 100.0 * errors as real >= Times(pct, fills as real)
  }

  /** The last reading of some venue is that high. */
  ghost predicate ReadingsReach(run: seq<Event>, n: nat, pct: real)
    requires n <= |run|
  {
    pct <= 0.0 || exists v :: v in ReadingsAt(run, n) && ReadingsAt(run, n)[v] >= pct
  }

  /** The venues whose last blacklisting has not expired. */
  function StillBlacklisted(run: seq<Event>, n: nat): set<string>
    requires 0 < n <= |run|
  {
    set v | v in BlacklistingsAt(run, n) && run[n - 1].nowMs < BlacklistingsAt(run, n)[v]
  }

  /** Does the history up to now breach a safe-mode threshold?  The run alone decides. */
  predicate HistoryDemandsSafe(run: seq<Event>, p: Policy, n: nat)
    requires 0 < n <= |run|
  {
    || |StillBlacklisted(run, n)| >= p.minCoreVenuesForSafeMode
    || DrawnDown(run, n, p.safeModeDrawdownPct)
    || |InWindow(run, IsDelev(), n, p.venueDelevWindowMs)| >= p.venueDelevSafeModeCount
  }

  /** Or a pause threshold? */
  ghost predicate HistoryDemandsPause(run: seq<Event>, p: Policy, n: nat)
    requires 0 < n <= |run|
  {
    || DrawnDown(run, n, p.maxDrawdownPct)
    || ErrorsReach(run, n, p.maxErrorRate5mPct)
    || ReadingsReach(run, n, p.adlRiskPausePct)
    || 0 < p.liqClusterPauseCount <= ClustersAt(run, n)
  }

  lemma {:induction false} PeakIsPositive(run: seq<Event>, n: nat)
    requires n <= |run|
    ensures PeakAt(run, n) >= 100000.0
  {
    if n > 0 {
      PeakIsPositive(run, n - 1);
    }
  }

  lemma DrawdownMeasured(log: seq<State>, run: seq<Event>, p: Policy, n: nat)
    requires IsLog(log, run, p) && 0 < n <= |run| && Evaluates(run[n - 1].call)
    ensures PeakAt(run, n) >= 100000.0
    ensures Times(log[n].metrics.drawdown, PeakAt(run, n)) == 100.0 * (PeakAt(run, n) - EquityAt(run, n))
  {
    EquityOverRun(log, run, p, n);
    MetricsAfter(log[n - 1], run[n - 1], p);
    PeakIsPositive(run, n);
    PercentOf(PeakAt(run, n) - EquityAt(run, n), PeakAt(run, n));
  }

  lemma RecordsMeasured(log: seq<State>, run: seq<Event>, p: Policy, n: nat)
    requires IsLog(log, run, p) && 0 < n <= |run| && Evaluates(run[n - 1].call)
    ensures var m := log[n].metrics;
            && IsHighest(ReadingsAt(run, n), m.adlRisk) && m.liqClusters == ClustersAt(run, n)
            && m.delevCount == |log[n].delevEvents|
  {
    RecordsOverRun(log, run, p, n);
    MetricsAfter(log[n - 1], run[n - 1], p);
  }

  /**
   What every evaluation publishes: the drawdown as a percentage of the peak, the errors as one of the
   fills of the last five minutes, the highest of the last readings, the last cluster count, and the
   deleveragings in their window.
   */
  lemma MeasuredFromRun(log: seq<State>, run: seq<Event>, p: Policy, n: nat)
    requires IsLog(log, run, p) && 0 < n <= |run| && InOrder(EventTime, run) && Evaluates(run[n - 1].call)
    ensures var (m, fills) := (log[n].metrics, |InWindow(run, IsFill(), n, 300_000)|);
            && PeakAt(run, n) >= 100000.0
            && Times(m.drawdown, PeakAt(run, n)) == 100.0 * (PeakAt(run, n) - EquityAt(run, n))
            && (fills == 0 ==> m.errorRate == 0.0)
            && Times(m.errorRate, fills as real) == 100.0 * |InWindow(run, IsError(), n, 300_000)| as real
            && IsHighest(ReadingsAt(run, n), m.adlRisk)
            && m.liqClusters == ClustersAt(run, n)
            && m.delevCount == |InWindow(run, IsDelev(), n, p.venueDelevWindowMs)|
  {
    DrawdownMeasured(log, run, p, n);
    RecordsMeasured(log, run, p, n);
    ErrorRateTrue(log, run, p, n);
    ListsAreWindows(log, run, p, n);
    ErrorPercent(|InWindow(run, IsError(), n, 300_000)|, |InWindow(run, IsFill(), n, 300_000)|);
  }

  lemma PercentOf(x: real, y: real)
    requires y > 0.0
    ensures Times(x / y * 100.0, y) == 100.0 * x
  {
    assert x / y * y == x;
  }

  lemma ErrorPercent(errors: nat, fills: nat)
    requires errors <= fills
    ensures Times(ErrorRate(errors, fills), fills as real) == 100.0 * errors as real
    ensures fills == 0 ==> ErrorRate(errors, fills) == 0.0
  {
    if fills > 0 {
      PercentOf(errors as real, fills as real);
    }
  }

  /** Each threshold is reached by what is measured exactly when the run reaches it. */
  lemma ThresholdsFromRun(log: seq<State>, run: seq<Event>, p: Policy, n: nat, pct: real)
    requires IsLog(log, run, p) && 0 < n <= |run| && InOrder(EventTime, run) && Evaluates(run[n - 1].call)
    ensures log[n].metrics.drawdown >= pct <==> DrawnDown(run, n, pct)
    ensures log[n].metrics.errorRate >= pct <==> ErrorsReach(run, n, pct)
    ensures log[n].metrics.adlRisk >= pct <==> ReadingsReach(run, n, pct)
  {
    MeasuredFromRun(log, run, p, n);
    var (m, fills) := (log[n].metrics, |InWindow(run, IsFill(), n, 300_000)|);
    TimesReaches(m.drawdown, pct, PeakAt(run, n));
    if fills > 0 {
      TimesReaches(m.errorRate, pct, fills as real);
    }
  }

  lemma TimesReaches(x: real, pct: real, y: real)
    requires y > 0.0
    ensures x >= pct <==> Times(x, y) >= Times(pct, y)
  {
    if x >= pct {
      TimesMonotone(pct, x, y);
    } else {
      assert (pct - x) * y > 0.0;
      assert (pct - x) * y == Times(pct, y) - Times(x, y);
    }
  }

  /** The mode after every evaluation of a run: exactly the higher of the one before and what history demands. */
  lemma ModeMeetsHistory(log: seq<State>, run: seq<Event>, p: Policy, n: nat)
    requires IsLog(log, run, p) && 0 < n <= |run| && InOrder(EventTime, run) && Evaluates(run[n - 1].call)
    ensures var (before, after) := (log[n - 1].mode, log[n].mode);
            after == if Terminal(before) then before
                     else if HistoryDemandsSafe(run, p, n) || before == SAFE then SAFE
                     else if HistoryDemandsPause(run, p, n) || before == PAUSED then PAUSED
                     else before
  {
    MeasuredFromRun(log, run, p, n);
    ThresholdsFromRun(log, run, p, n, p.safeModeDrawdownPct);
    ThresholdsFromRun(log, run, p, n, p.maxDrawdownPct);
    ThresholdsFromRun(log, run, p, n, p.maxErrorRate5mPct);
    ThresholdsFromRun(log, run, p, n, p.adlRiskPausePct);
    RecordsOverRun(log, run, p, n);
    MetricsAfter(log[n - 1], run[n - 1], p);
  }

  /** And it raises the alerts that its own measurements and the blacklistings of the run call for. */
  lemma AlertsMeetHistory(log: seq<State>, run: seq<Event>, p: Policy, n: nat, a: Alert)
    requires IsLog(log, run, p) && 0 < n <= |run| && Evaluates(run[n - 1].call)
    ensures var (before, now) := (log[n - 1].mode, run[n - 1].nowMs);
            a in Raised(Recorded(log[n - 1], run[n - 1]), now, p) <==>
              && before != FLATTEN && before != HALTED
              && CalledFor(a, before, log[n].metrics, |StillBlacklisted(run, n)|, p)
  {
    RecordsOverRun(log, run, p, n);
    RaisedIs(log[n - 1], run[n - 1], p);
    AlertsExactly(log[n - 1].mode, log[n].metrics, |BlacklistedNow(log[n].blacklisted, run[n - 1].nowMs)|, p);
  }

  lemma RaisedIs(s: State, e: Event, p: Policy)
    requires Evaluates(e.call)
    ensures var s' := Apply(s, e, p);
            Raised(Recorded(s, e), e.nowMs, p) ==
            Alerts(s.mode, s'.metrics, |BlacklistedNow(s'.blacklisted, e.nowMs)|, p)
  {
    assert Recorded(s, e).mode == s.mode;
  }

  // ----- Playbooks over a run ----------------------------------------------------------------

  predicate Distinct(playbooks: seq<Playbook>) {
    forall i, j :: 0 <= i < j < |playbooks| ==> playbooks[i].name != playbooks[j].name
  }

  lemma ActivatedDistinct(playbooks: seq<Playbook>, pb: Playbook, breached: bool)
    requires Distinct(playbooks)
    ensures var r := Activated(playbooks, pb, breached);
            && Distinct(r) && (breached ==> Active(r, pb.name))
            && (forall name :: Active(playbooks, name) ==> Active(r, name))
  {
    var r := Activated(playbooks, pb, breached);
    if breached && !Active(playbooks, pb.name) {
      assert r[|playbooks|] == pb;
      forall name | Active(playbooks, name) ensures Active(r, name) {
        var k :| 0 <= k < |playbooks| && playbooks[k].name == name;
        assert r[k].name == name;
      }
    }
  }

  /** Every breached trigger has its playbook after an evaluation, and none has two. */
  lemma PlaybooksCover(playbooks: seq<Playbook>, nowMs: int, m: Metrics, p: Policy)
    requires Distinct(playbooks)
    ensures var r := Playbooks(playbooks, nowMs, m, p);
            && Distinct(r)
            && (m.adlRisk >= p.adlRiskPausePct ==> Active(r, ADL_EVENT))
            && (ClustersBreached(m, p) ==> Active(r, LIQUIDATION_CASCADE))
            && (DelevBreached(m, p) ==> Active(r, VENUE_MAINTENANCE))
            && (m.errorRate >= p.maxErrorRate5mPct ==> Active(r, API_DEGRADATION))
            && (Volatile(m, p) ==> Active(r, VOLATILITY_SPIKE))
            && (forall name :: Active(playbooks, name) ==> Active(r, name))
  {
    var (pa, pb, pc, pd, pe) :=
      (Playbook(ADL_EVENT, nowMs, PAUSED, 300_000), Playbook(LIQUIDATION_CASCADE, nowMs, PAUSED, 600_000),
       Playbook(VENUE_MAINTENANCE, nowMs, SAFE, 0), Playbook(API_DEGRADATION, nowMs, PAUSED, 300_000),
       Playbook(VOLATILITY_SPIKE, nowMs, SAFE, 600_000));
    var a := Activated(playbooks, pa, m.adlRisk >= p.adlRiskPausePct);
    var b := Activated(a, pb, ClustersBreached(m, p));
    var c := Activated(b, pc, DelevBreached(m, p));
    var d := Activated(c, pd, m.errorRate >= p.maxErrorRate5mPct);
    ActivatedDistinct(playbooks, pa, m.adlRisk >= p.adlRiskPausePct);
    ActivatedDistinct(a, pb, ClustersBreached(m, p));
    ActivatedDistinct(b, pc, DelevBreached(m, p));
    ActivatedDistinct(c, pd, m.errorRate >= p.maxErrorRate5mPct);
    ActivatedDistinct(d, pe, Volatile(m, p));
  }

  lemma {:induction false} KeepDistinct(p: Playbook -> bool, playbooks: seq<Playbook>)
    requires Distinct(playbooks)
    ensures Distinct(Keep(p, playbooks))
    ensures forall k :: 0 <= k < |Keep(p, playbooks)| ==> Active(playbooks, Keep(p, playbooks)[k].name)
  {
    if playbooks != [] {
      var front, last := playbooks[..|playbooks| - 1], playbooks[|playbooks| - 1];
      KeepDistinct(p, front);
      assert !Active(front, last.name);
      assert forall name :: Active(front, name) ==> Active(playbooks, name);
      assert Active(playbooks, last.name);
    }
  }

  /** In no run is a playbook ever active twice. */
  lemma {:induction false} PlaybooksDistinct(log: seq<State>, run: seq<Event>, p: Policy, n: nat)
    requires IsLog(log, run, p) && n <= |run|
    ensures Distinct(log[n].playbooks)
  {
    if n > 0 {
      PlaybooksDistinct(log, run, p, n - 1);
      PlaybooksStep(log[n - 1], run[n - 1], p);
    }
  }

  lemma PlaybooksStep(s: State, e: Event, p: Policy)
    requires Distinct(s.playbooks)
    ensures Distinct(Apply(s, e, p).playbooks)
  {
    if Evaluates(e.call) {
      assert Recorded(s, e).playbooks == s.playbooks;
      PlaybooksCover(s.playbooks, e.nowMs, Apply(s, e, p).metrics, p);
    } else if e.call.List? {
      KeepDistinct((pb: Playbook) => !(pb.autoResolveMs > 0 && e.nowMs > pb.tsMs + pb.autoResolveMs), s.playbooks);
    } else if e.call.Resolve? {
      KeepDistinct((pb: Playbook) => pb.name != e.call.name, s.playbooks);
    }
  }
}
