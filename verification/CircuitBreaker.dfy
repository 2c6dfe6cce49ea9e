/**
 The per-venue circuit breaker: OK, WARN and BLACKLISTED, with persistence timers whose zero means
 not running, and what that guarantees over whole runs.
 */
module CircuitBreaker {
  import opened Trust

  /** The thresholds in basis points and the times in milliseconds. */
  datatype Limits = Limits(outlierBpsWarn: real, outlierBpsBlacklist: real, warnPersistMs: int,
                           blacklistPersistMs: int, blacklistTtlMs: int, recoveryMs: int)

  datatype Reason = None | WarnThreshold | BlacklistThreshold | BlacklistFromWarn | TtlExpired | Recovered

  datatype Status = Status(state: State, outlierSinceMs: int, hardOutlierSinceMs: int, warnSinceMs: int,
                           blacklistUntilMs: int, recoverySinceMs: int, reason: Reason)

  datatype Anomaly = NoAnomaly | ReduceTrust(deviationBps: real, windowMs: int)
                     | Blacklist60s(deviationBps: real, windowMs: int)

  // ----- One update --------------------------------------------------------------------------

  predicate IsOutlier(dev: real, p: Limits) {
    dev > p.outlierBpsWarn
  }

  predicate IsHardOutlier(dev: real, p: Limits) {
    dev > p.outlierBpsBlacklist
  }

  function StartTimer(since: int, nowMs: int): int {
    if since == 0 then nowMs else since
  }

  function Blacklist(nowMs: int, s: Status, dev: real, p: Limits, reason: Reason): (Status, Anomaly) {
    (s.(state := BLACKLISTED, blacklistUntilMs := nowMs + p.blacklistTtlMs, warnSinceMs := 0, recoverySinceMs := 0,
        outlierSinceMs := 0, hardOutlierSinceMs := 0, reason := reason),
     Blacklist60s(dev, p.blacklistPersistMs))
  }

  function FromBlacklisted(nowMs: int, s: Status): (Status, Anomaly) {
    if nowMs >= s.blacklistUntilMs then
      (s.(state := WARN, warnSinceMs := nowMs, recoverySinceMs := nowMs, outlierSinceMs := 0,
          hardOutlierSinceMs := 0, reason := TtlExpired), NoAnomaly)
    else (s, NoAnomaly)
  }

  function FromOK(nowMs: int, s: Status, dev: real, p: Limits): (Status, Anomaly) {
    if IsHardOutlier(dev, p) then
      var next := s.(hardOutlierSinceMs := StartTimer(s.hardOutlierSinceMs, nowMs));
      if nowMs - next.hardOutlierSinceMs >= p.blacklistPersistMs
      then Blacklist(nowMs, next, dev, p, BlacklistThreshold) else (next, NoAnomaly)
    else if IsOutlier(dev, p) then
      var next := s.(hardOutlierSinceMs := 0, outlierSinceMs := StartTimer(s.outlierSinceMs, nowMs));
      if nowMs - next.outlierSinceMs >= p.warnPersistMs
      then (next.(state := WARN, warnSinceMs := nowMs, recoverySinceMs := 0, reason := WarnThreshold),
            ReduceTrust(dev, p.warnPersistMs))
      else (next, NoAnomaly)
    else (s.(outlierSinceMs := 0, hardOutlierSinceMs := 0), NoAnomaly)
  }

  function FromWarn(nowMs: int, s: Status, dev: real, p: Limits): (Status, Anomaly) {
    if IsHardOutlier(dev, p) then
      var next := s.(hardOutlierSinceMs := StartTimer(s.hardOutlierSinceMs, nowMs));
      if nowMs - next.hardOutlierSinceMs >= p.blacklistPersistMs
      then Blacklist(nowMs, next, dev, p, BlacklistFromWarn) else (next, NoAnomaly)
    else if !IsOutlier(dev, p) then
      var next := s.(recoverySinceMs := StartTimer(s.recoverySinceMs, nowMs));
      if nowMs - next.recoverySinceMs >= p.recoveryMs
      then (next.(state := OK, warnSinceMs := 0, recoverySinceMs := 0, outlierSinceMs := 0,
                  hardOutlierSinceMs := 0, reason := Recovered), NoAnomaly)
      else (next, NoAnomaly)
    else (s.(recoverySinceMs := 0, hardOutlierSinceMs := 0), NoAnomaly)
  }

  function UpdateVenueStatus(nowMs: int, s: Status, dev: real, p: Limits): (Status, Anomaly) {
    match s.state
    case BLACKLISTED => FromBlacklisted(nowMs, s)
    case OK => FromOK(nowMs, s, dev, p)
    case WARN => FromWarn(nowMs, s, dev, p)
  }

  /**
   An anomaly is reported exactly when a venue is newly warned or newly blacklisted; the reason names
   the last change of state, and the timestamps when it happened and when it expires.
   */
  lemma AnomalyMarks(nowMs: int, s: Status, dev: real, p: Limits)
    ensures var (next, a) := UpdateVenueStatus(nowMs, s, dev, p);
            && (if s.state != BLACKLISTED && next.state == BLACKLISTED then
                  a == Blacklist60s(dev, p.blacklistPersistMs) && next.blacklistUntilMs == nowMs + p.blacklistTtlMs
                else if s.state == OK && next.state == WARN then a == ReduceTrust(dev, p.warnPersistMs)
                else a == NoAnomaly)
            && (next.state == WARN ==> next.warnSinceMs == if s.state == WARN then s.warnSinceMs else nowMs)
            && next.reason == (match (s.state, next.state)
                               case (OK, WARN) => WarnThreshold
                               case (OK, BLACKLISTED) => BlacklistThreshold
                               case (WARN, BLACKLISTED) => BlacklistFromWarn
                               case (BLACKLISTED, WARN) => TtlExpired
                               case (WARN, OK) => Recovered
                               case _ => s.reason)
  {
  }

  // ----- Runs --------------------------------------------------------------------------------

  datatype Observation = Observation(nowMs: int, deviationBps: real)

  /** The status after the first k observations. */
  function StatusAt(s: Status, obs: seq<Observation>, p: Limits, k: nat): Status
    requires k <= |obs|
  {
    if k == 0 then s
    else UpdateVenueStatus(obs[k - 1].nowMs, StatusAt(s, obs, p, k - 1), obs[k - 1].deviationBps, p).0
  }

  /** Timestamps are positive and never go back. */
  predicate Clocked(obs: seq<Observation>) {
    && (forall i :: 0 <= i < |obs| ==> obs[i].nowMs > 0)
    && (forall i, j :: 0 <= i < j < |obs| ==> obs[i].nowMs <= obs[j].nowMs)
  }

  /** No timer is running, as in a status never updated. */
  predicate Fresh(s: Status) {
    s.outlierSinceMs == 0 && s.hardOutlierSinceMs == 0
  }

  // ----- The observation a timer started at --------------------------------------------------

  /** The first `start` in the unbroken stretch of `run` that ends before k, or k if there is none. */
  ghost function Anchor(run: nat -> bool, start: nat -> bool, k: nat): (a: nat)
    ensures a <= k
  {
    if k == 0 || !run(k - 1) then k
    else
      var a := Anchor(run, start, k - 1);
      if a < k - 1 then a else if start(k - 1) then k - 1 else k
  }

  ghost predicate Unbroken(run: nat -> bool, m: nat, k: nat) {
    forall i :: m <= i < k ==> run(i)
  }

  lemma {:induction false} AnchorIsFirst(run: nat -> bool, start: nat -> bool, k: nat)
    ensures var a := Anchor(run, start, k);
            && (a < k ==> start(a) && Unbroken(run, a, k))
            && (forall m: nat :: m < k && start(m) && Unbroken(run, m, k) ==> a <= m)
  {
    if k > 0 && run(k - 1) {
      AnchorIsFirst(run, start, k - 1);
      forall m: nat | m < k - 1 && Unbroken(run, m, k) ensures Unbroken(run, m, k - 1) {
      }
    } else if k > 0 {
      forall m: nat | m < k ensures !Unbroken(run, m, k) {
        assert !run(k - 1);
      }
    }
  }

  ghost predicate InState(st: State, s: Status, obs: seq<Observation>, p: Limits, i: nat) {
    i < |obs| && StatusAt(s, obs, p, i).state == st
  }

  /** Observations over the warning threshold, met in OK. */
  ghost function OutliersInOK(s: Status, obs: seq<Observation>, p: Limits): nat -> bool {
    (i: nat) => InState(OK, s, obs, p, i) && IsOutlier(obs[i].deviationBps, p)
  }

  /** Of those, the ones not over the blacklist threshold, which start the warning timer. */
  ghost function SoftInOK(s: Status, obs: seq<Observation>, p: Limits): nat -> bool {
    (i: nat) => OutliersInOK(s, obs, p)(i) && !IsHardOutlier(obs[i].deviationBps, p)
  }

  ghost function HardInOK(s: Status, obs: seq<Observation>, p: Limits): nat -> bool {
    (i: nat) => InState(OK, s, obs, p, i) && IsHardOutlier(obs[i].deviationBps, p)
  }

  ghost function HardInWarn(s: Status, obs: seq<Observation>, p: Limits): nat -> bool {
    (i: nat) => InState(WARN, s, obs, p, i) && IsHardOutlier(obs[i].deviationBps, p)
  }

  /** Observations met in WARN that do not stop the blacklist timer: those over its threshold, and clean ones. */
  ghost function NotSoftInWarn(s: Status, obs: seq<Observation>, p: Limits): nat -> bool {
    (i: nat) => InState(WARN, s, obs, p, i) &&
        (IsHardOutlier(obs[i].deviationBps, p) || !IsOutlier(obs[i].deviationBps, p))
  }

  ghost function Since(obs: seq<Observation>, a: nat, k: nat): int
    requires a <= k <= |obs|
  {
    if a < k then obs[a].nowMs else 0
  }

  /** Every timer says when its stretch began. */
  ghost predicate TimersTrue(s: Status, obs: seq<Observation>, p: Limits, k: nat)
    requires k <= |obs|
  {
    var now := StatusAt(s, obs, p, k);
    && (now.state == OK ==>
          && now.hardOutlierSinceMs == Since(obs, Anchor(HardInOK(s, obs, p), HardInOK(s, obs, p), k), k)
          && now.outlierSinceMs == Since(obs, Anchor(OutliersInOK(s, obs, p), SoftInOK(s, obs, p), k), k))
    && (now.state == WARN ==>
          now.hardOutlierSinceMs == Since(obs, Anchor(NotSoftInWarn(s, obs, p), HardInWarn(s, obs, p), k), k))
  }

  /** How the start of a stretch moves with one more observation. */
  lemma SinceStep(run: nat -> bool, start: nat -> bool, obs: seq<Observation>, k: nat)
    requires k < |obs| && Clocked(obs)
    ensures var since := Since(obs, Anchor(run, start, k), k);
            Since(obs, Anchor(run, start, k + 1), k + 1)
            == if !run(k) then 0 else if since != 0 then since else if start(k) then obs[k].nowMs else 0
  {
  }

  lemma TimersStep(s: Status, obs: seq<Observation>, p: Limits, k: nat)
    requires k < |obs| && Clocked(obs) && p.outlierBpsWarn <= p.outlierBpsBlacklist && TimersTrue(s, obs, p, k)
    ensures TimersTrue(s, obs, p, k + 1)
  {
    var hardOK, softOK, outOK := HardInOK(s, obs, p), SoftInOK(s, obs, p), OutliersInOK(s, obs, p);
    var hardWarn, notSoft := HardInWarn(s, obs, p), NotSoftInWarn(s, obs, p);
    var now, dev := StatusAt(s, obs, p, k), obs[k].deviationBps;
    assert StatusAt(s, obs, p, k + 1) == UpdateVenueStatus(obs[k].nowMs, now, dev, p).0;
    assert hardOK(k) <==> now.state == OK && IsHardOutlier(dev, p);
    assert outOK(k) <==> now.state == OK && IsOutlier(dev, p);
    assert softOK(k) <==> now.state == OK && IsOutlier(dev, p) && !IsHardOutlier(dev, p);
    assert hardWarn(k) <==> now.state == WARN && IsHardOutlier(dev, p);
    assert notSoft(k) <==> now.state == WARN && (IsHardOutlier(dev, p) || !IsOutlier(dev, p));
    SinceStep(hardOK, hardOK, obs, k);
    SinceStep(outOK, softOK, obs, k);
    SinceStep(notSoft, hardWarn, obs, k);
  }

  lemma {:induction false} TimersStayTrue(s: Status, obs: seq<Observation>, p: Limits, k: nat)
    requires k <= |obs| && Fresh(s) && Clocked(obs) && p.outlierBpsWarn <= p.outlierBpsBlacklist
    ensures TimersTrue(s, obs, p, k)
  {
    if k > 0 {
      TimersStayTrue(s, obs, p, k - 1);
      TimersStep(s, obs, p, k - 1);
    }
  }

  // ----- When a venue leaves OK --------------------------------------------------------------

  /** Every observation from m to k is met in OK and over the threshold given. */
  ghost predicate OverInOK(s: Status, obs: seq<Observation>, p: Limits, m: nat, k: nat, bps: real) {
    k < |obs| && forall i :: m <= i <= k ==> InState(OK, s, obs, p, i) && obs[i].deviationBps > bps
  }

  /** A stretch up to k, from a start, that has lasted. */
  ghost predicate Lasted(run: nat -> bool, start: nat -> bool, obs: seq<Observation>, m: nat, k: nat, persist: int) {
    m <= k < |obs| && start(m) && Unbroken(run, m, k) && obs[k].nowMs - obs[m].nowMs >= persist
  }

  /** The timer of a stretch runs from its first start, or from now if now is the first. */
  lemma TimerRuns(run: nat -> bool, start: nat -> bool, obs: seq<Observation>, k: nat, persist: int)
    requires k < |obs| && Clocked(obs) && start(k)
    ensures obs[k].nowMs - StartTimer(Since(obs, Anchor(run, start, k), k), obs[k].nowMs) >= persist
       <==> exists m: nat :: Lasted(run, start, obs, m, k, persist)
  {
    var a := Anchor(run, start, k);
    AnchorIsFirst(run, start, k);
    assert StartTimer(Since(obs, a, k), obs[k].nowMs) == obs[a].nowMs;
    if obs[k].nowMs - obs[a].nowMs >= persist {
      assert Lasted(run, start, obs, a, k, persist);
    }
    if m: nat :| Lasted(run, start, obs, m, k, persist) {
      LastedSinceAnchor(run, start, obs, m, k, persist);
    }
  }

  lemma LastedSinceAnchor(run: nat -> bool, start: nat -> bool, obs: seq<Observation>, m: nat, k: nat, persist: int)
    requires Clocked(obs) && Lasted(run, start, obs, m, k, persist)
    ensures obs[k].nowMs - obs[Anchor(run, start, k)].nowMs >= persist
  {
    AnchorIsFirst(run, start, k);
    assert m < k ==> Anchor(run, start, k) <= m;
  }

  lemma HardStretch(s: Status, obs: seq<Observation>, p: Limits, m: nat, k: nat)
    requires m <= k < |obs|
    ensures var run := HardInOK(s, obs, p);
            run(k) && run(m) && Unbroken(run, m, k) <==> OverInOK(s, obs, p, m, k, p.outlierBpsBlacklist)
  {
    var run := HardInOK(s, obs, p);
    if run(k) && run(m) && Unbroken(run, m, k) {
      forall i | m <= i <= k ensures InState(OK, s, obs, p, i) && obs[i].deviationBps > p.outlierBpsBlacklist {
        assert run(i);
      }
    }
    if OverInOK(s, obs, p, m, k, p.outlierBpsBlacklist) {
      forall i | m <= i <= k ensures run(i) {
        assert InState(OK, s, obs, p, i);
      }
    }
  }

  /**
   A venue in OK is blacklisted by an observation exactly when the observations over the blacklist
   threshold that end with it, all met in OK and with none missing, have lasted the persist time.
   */
  lemma BlacklistedFromOK(s: Status, obs: seq<Observation>, p: Limits, k: nat)
    requires k < |obs| && Fresh(s) && Clocked(obs) && p.outlierBpsWarn <= p.outlierBpsBlacklist
    requires StatusAt(s, obs, p, k).state == OK
    ensures StatusAt(s, obs, p, k + 1).state == BLACKLISTED <==>
              exists m: nat :: m <= k && OverInOK(s, obs, p, m, k, p.outlierBpsBlacklist) &&
                obs[k].nowMs - obs[m].nowMs >= p.blacklistPersistMs
  {
    var run := HardInOK(s, obs, p);
    TimersStayTrue(s, obs, p, k);
    if run(k) {
      TimerRuns(run, run, obs, k, p.blacklistPersistMs);
      forall m: nat | m <= k
        ensures Lasted(run, run, obs, m, k, p.blacklistPersistMs) <==>
                OverInOK(s, obs, p, m, k, p.outlierBpsBlacklist) && obs[k].nowMs - obs[m].nowMs >= p.blacklistPersistMs
      {
        HardStretch(s, obs, p, m, k);
      }
    }
  }

  lemma SoftStretch(s: Status, obs: seq<Observation>, p: Limits, m: nat, k: nat)
    requires m <= k < |obs|
    ensures var run, start := OutliersInOK(s, obs, p), SoftInOK(s, obs, p);
            run(k) && start(m) && Unbroken(run, m, k) <==>
              OverInOK(s, obs, p, m, k, p.outlierBpsWarn) && obs[m].deviationBps <= p.outlierBpsBlacklist
  {
    var run, start := OutliersInOK(s, obs, p), SoftInOK(s, obs, p);
    if run(k) && start(m) && Unbroken(run, m, k) {
      forall i | m <= i <= k ensures InState(OK, s, obs, p, i) && obs[i].deviationBps > p.outlierBpsWarn {
        assert run(i);
      }
    }
    if OverInOK(s, obs, p, m, k, p.outlierBpsWarn) && obs[m].deviationBps <= p.outlierBpsBlacklist {
      forall i | m <= i <= k ensures run(i) {
        assert InState(OK, s, obs, p, i);
      }
      assert start(m);
    }
  }

  /**
   A venue in OK is warned by an observation exactly when it is over the warning threshold but not
   the blacklist threshold, and the observations over the warning threshold that end with it, all
   met in OK and counted from one that is not over the blacklist threshold, have lasted the persist
   time.
   */
  lemma WarnedFromOK(s: Status, obs: seq<Observation>, p: Limits, k: nat)
    requires k < |obs| && Fresh(s) && Clocked(obs) && p.outlierBpsWarn <= p.outlierBpsBlacklist
    requires StatusAt(s, obs, p, k).state == OK
    ensures StatusAt(s, obs, p, k + 1).state == WARN <==>
              p.outlierBpsWarn < obs[k].deviationBps <= p.outlierBpsBlacklist &&
              exists m: nat :: m <= k && OverInOK(s, obs, p, m, k, p.outlierBpsWarn) &&
                obs[m].deviationBps <= p.outlierBpsBlacklist && obs[k].nowMs - obs[m].nowMs >= p.warnPersistMs
  {
    var run, start := OutliersInOK(s, obs, p), SoftInOK(s, obs, p);
    TimersStayTrue(s, obs, p, k);
    if start(k) {
      TimerRuns(run, start, obs, k, p.warnPersistMs);
      forall m: nat | m <= k
        ensures Lasted(run, start, obs, m, k, p.warnPersistMs) <==>
                OverInOK(s, obs, p, m, k, p.outlierBpsWarn) && obs[m].deviationBps <= p.outlierBpsBlacklist &&
                obs[k].nowMs - obs[m].nowMs >= p.warnPersistMs
      {
        SoftStretch(s, obs, p, m, k);
      }
    }
  }

  // ----- When a warned venue is blacklisted --------------------------------------------------

  /** Not between the two thresholds. */
  predicate HardOrClean(dev: real, p: Limits) {
    dev > p.outlierBpsBlacklist || dev <= p.outlierBpsWarn
  }

  /** From m to k in WARN, starting and ending over the blacklist threshold, with nothing between the two thresholds. */
  ghost predicate HardSinceInWarn(s: Status, obs: seq<Observation>, p: Limits, m: nat, k: nat) {
    && m <= k < |obs|
    && obs[m].deviationBps > p.outlierBpsBlacklist && obs[k].deviationBps > p.outlierBpsBlacklist
    && (forall i :: m <= i <= k ==> InState(WARN, s, obs, p, i) && HardOrClean(obs[i].deviationBps, p))
  }

  lemma WarnStretch(s: Status, obs: seq<Observation>, p: Limits, m: nat, k: nat)
    requires m <= k < |obs|
    ensures var run, start := NotSoftInWarn(s, obs, p), HardInWarn(s, obs, p);
            start(k) && start(m) && Unbroken(run, m, k) <==> HardSinceInWarn(s, obs, p, m, k)
  {
    var run, start := NotSoftInWarn(s, obs, p), HardInWarn(s, obs, p);
    if start(k) && start(m) && Unbroken(run, m, k) {
      forall i | m <= i <= k ensures InState(WARN, s, obs, p, i) && HardOrClean(obs[i].deviationBps, p) {
        assert i < k ==> run(i);
      }
    }
    if HardSinceInWarn(s, obs, p, m, k) {
      forall i | m <= i < k ensures run(i) {
        assert HardOrClean(obs[i].deviationBps, p);
      }
    }
  }

  /**
   A venue in WARN is blacklisted by an observation over the blacklist threshold exactly when the
   first such observation since the last one between the thresholds is a persist time ago.  Clean
   observations in between do not count against it.
   */
  lemma BlacklistedFromWarn(s: Status, obs: seq<Observation>, p: Limits, k: nat)
    requires k < |obs| && Fresh(s) && Clocked(obs) && p.outlierBpsWarn <= p.outlierBpsBlacklist
    requires StatusAt(s, obs, p, k).state == WARN
    ensures StatusAt(s, obs, p, k + 1).state == BLACKLISTED <==>
              exists m: nat :: m <= k && HardSinceInWarn(s, obs, p, m, k) &&
                obs[k].nowMs - obs[m].nowMs >= p.blacklistPersistMs
  {
    var run, start := NotSoftInWarn(s, obs, p), HardInWarn(s, obs, p);
    TimersStayTrue(s, obs, p, k);
    if start(k) {
      TimerRuns(run, start, obs, k, p.blacklistPersistMs);
      forall m: nat | m <= k
        ensures Lasted(run, start, obs, m, k, p.blacklistPersistMs) <==>
                HardSinceInWarn(s, obs, p, m, k) && obs[k].nowMs - obs[m].nowMs >= p.blacklistPersistMs
      {
        WarnStretch(s, obs, p, m, k);
      }
    }
  }

  /** So two isolated spikes a persist time apart blacklist a warned venue, however clean it is between them. */
  lemma SpikesBlacklistFromWarn(s: Status, p: Limits, first: int, clean: int, last: int, spike: real)
    requires s.state == WARN && Fresh(s) && s.recoverySinceMs == 0
    requires 0 < first < clean <= last && last - first >= p.blacklistPersistMs > 0 && p.recoveryMs > 0
    requires spike > p.outlierBpsBlacklist >= p.outlierBpsWarn >= 0.0
    ensures var obs := [Observation(first, spike), Observation(clean, 0.0), Observation(last, spike)];
            StatusAt(s, obs, p, 2).state == WARN && StatusAt(s, obs, p, 3).state == BLACKLISTED
  {
    var obs := [Observation(first, spike), Observation(clean, 0.0), Observation(last, spike)];
    assert StatusAt(s, obs, p, 0) == s;
    var s1 := StatusAt(s, obs, p, 1);
    assert s1 == UpdateVenueStatus(first, s, spike, p).0 == s.(hardOutlierSinceMs := first);
    var s2 := StatusAt(s, obs, p, 2);
    assert s2 == UpdateVenueStatus(clean, s1, 0.0, p).0 == s1.(recoverySinceMs := clean);
    assert StatusAt(s, obs, p, 3) == UpdateVenueStatus(last, s2, spike, p).0;
  }

  // ----- How long a venue stays away ---------------------------------------------------------

  /** Not yet back in OK from a blacklisting that expires at `expiry`, `lastMs` being the latest time seen. */
  predicate Away(s: Status, lastMs: int, expiry: int) {
    match s.state
    case OK => false
    case BLACKLISTED => s.blacklistUntilMs >= expiry || lastMs >= expiry
    case WARN => lastMs >= expiry && (s.recoverySinceMs == 0 || s.recoverySinceMs >= expiry)
  }

  lemma AwayStep(s: Status, lastMs: int, nowMs: int, dev: real, p: Limits, expiry: int)
    requires lastMs <= nowMs && Away(s, lastMs, expiry)
    ensures Away(UpdateVenueStatus(nowMs, s, dev, p).0, nowMs, expiry) || nowMs >= expiry + p.recoveryMs
  {
  }

  lemma {:induction false} AwayUntil(s: Status, obs: seq<Observation>, p: Limits, k: nat, j: nat)
    requires k < j <= |obs| && Clocked(obs)
    requires StatusAt(s, obs, p, k).state != BLACKLISTED && StatusAt(s, obs, p, k + 1).state == BLACKLISTED
    ensures var expiry := obs[k].nowMs + p.blacklistTtlMs;
            || Away(StatusAt(s, obs, p, j), obs[j - 1].nowMs, expiry)
            || obs[j - 1].nowMs >= expiry + p.recoveryMs
  {
    if j > k + 1 {
      AwayUntil(s, obs, p, k, j - 1);
      var before, last := StatusAt(s, obs, p, j - 1), obs[j - 2].nowMs;
      var expiry := obs[k].nowMs + p.blacklistTtlMs;
      if Away(before, last, expiry) {
        AwayStep(before, last, obs[j - 1].nowMs, obs[j - 1].deviationBps, p, expiry);
      }
    }
  }

  /**
   From an observation that blacklists a venue to any later one after which it is OK takes at least
   the blacklist time and then the recovery time.
   */
  lemma BlacklistLasts(s: Status, obs: seq<Observation>, p: Limits, k: nat, j: nat)
    requires k < j < |obs| && Clocked(obs)
    requires StatusAt(s, obs, p, k).state != BLACKLISTED && StatusAt(s, obs, p, k + 1).state == BLACKLISTED
    requires StatusAt(s, obs, p, j + 1).state == OK
    ensures obs[j].nowMs - obs[k].nowMs >= p.blacklistTtlMs + p.recoveryMs
  {
    AwayUntil(s, obs, p, k, j + 1);
  }

  /** While a venue is blacklisted its expiry is the time of the blacklisting plus the blacklist time. */
  lemma {:induction false} ExpiryIsFixed(s: Status, obs: seq<Observation>, p: Limits, k: nat, j: nat)
    requires k < j <= |obs| && !InState(BLACKLISTED, s, obs, p, k)
    requires forall i :: k < i <= j ==> StatusAt(s, obs, p, i).state == BLACKLISTED
    ensures StatusAt(s, obs, p, j).blacklistUntilMs == obs[k].nowMs + p.blacklistTtlMs
  {
    if j > k + 1 {
      ExpiryIsFixed(s, obs, p, k, j - 1);
    }
  }

  /** A blacklisted venue is let back into WARN by exactly the observations at or after the expiry. */
  lemma BlacklistExpires(s: Status, obs: seq<Observation>, p: Limits, k: nat, j: nat)
    requires k < j < |obs| && !InState(BLACKLISTED, s, obs, p, k)
    requires forall i :: k < i <= j ==> StatusAt(s, obs, p, i).state == BLACKLISTED
    ensures StatusAt(s, obs, p, j + 1).state ==
              (if obs[j].nowMs - obs[k].nowMs >= p.blacklistTtlMs then WARN else BLACKLISTED)
  {
    ExpiryIsFixed(s, obs, p, k, j);
  }

  // ----- When a warned venue recovers --------------------------------------------------------

  /** The statuses that observations are met in, and the last one. */
  ghost predicate IsLog(log: seq<Status>, obs: seq<Observation>, p: Limits) {
    && |log| == |obs| + 1
    && (forall k :: 0 <= k < |obs| ==> log[k + 1] == UpdateVenueStatus(obs[k].nowMs, log[k], obs[k].deviationBps, p).0)
  }

  /** What starts the recovery timer: a clean observation in WARN, and the one that ends a blacklisting. */
  predicate Starts(before: State, dev: real, after: State, p: Limits) {
    (before == WARN && !IsOutlier(dev, p)) || (before == BLACKLISTED && after == WARN)
  }

  /** What leaves it running: these, and one over the blacklist threshold that does not blacklist. */
  predicate Keeps(before: State, dev: real, after: State, p: Limits) {
    (before == WARN && HardOrClean(dev, p) && after != BLACKLISTED) || (before == BLACKLISTED && after == WARN)
  }

  ghost function Starting(log: seq<Status>, obs: seq<Observation>, p: Limits): nat -> bool {
    (i: nat) => i < |obs| && i + 1 < |log| && Starts(log[i].state, obs[i].deviationBps, log[i + 1].state, p)
  }

  ghost function Keeping(log: seq<Status>, obs: seq<Observation>, p: Limits): nat -> bool {
    (i: nat) => i < |obs| && i + 1 < |log| && Keeps(log[i].state, obs[i].deviationBps, log[i + 1].state, p)
  }

  ghost function RecoveryStart(log: seq<Status>, obs: seq<Observation>, p: Limits, k: nat): int
    requires k <= |obs|
  {
    Since(obs, Anchor(Keeping(log, obs, p), Starting(log, obs, p), k), k)
  }

  lemma RecoveryUpdate(nowMs: int, s: Status, dev: real, p: Limits, since: int)
    requires p.outlierBpsWarn <= p.outlierBpsBlacklist
    requires (s.state == WARN ==> s.recoverySinceMs == since) && (s.state == BLACKLISTED ==> since == 0)
    ensures var next := UpdateVenueStatus(nowMs, s, dev, p).0;
            next.state == WARN ==>
              next.recoverySinceMs == if !Keeps(s.state, dev, next.state, p) then 0
                                      else if since != 0 then since
                                      else if Starts(s.state, dev, next.state, p) then nowMs else 0
  {
  }

  /** No recovery is under way when a blacklisting begins or goes on. */
  lemma NoneWhenBlacklisted(log: seq<Status>, obs: seq<Observation>, p: Limits, k: nat)
    requires k <= |obs| && |log| == |obs| + 1 && log[k].state == BLACKLISTED
    ensures RecoveryStart(log, obs, p, k) == 0
  {
    if k > 0 {
      assert !Keeps(log[k - 1].state, obs[k - 1].deviationBps, log[k - 1 + 1].state, p);
      assert !Keeping(log, obs, p)(k - 1);
    }
  }

  lemma RecoveryStartNext(log: seq<Status>, obs: seq<Observation>, p: Limits, k: nat)
    requires k < |obs| && |log| == |obs| + 1 && Clocked(obs)
    ensures var (since, dev) := (RecoveryStart(log, obs, p, k), obs[k].deviationBps);
            RecoveryStart(log, obs, p, k + 1) ==
            if !Keeps(log[k].state, dev, log[k + 1].state, p) then 0 else if since != 0 then since
            else if Starts(log[k].state, dev, log[k + 1].state, p) then obs[k].nowMs else 0
  {
    SinceStep(Keeping(log, obs, p), Starting(log, obs, p), obs, k);
    assert Keeping(log, obs, p)(k) <==> Keeps(log[k].state, obs[k].deviationBps, log[k + 1].state, p);
    assert Starting(log, obs, p)(k) <==> Starts(log[k].state, obs[k].deviationBps, log[k + 1].state, p);
  }

  /** The recovery timer holds the time of the observation its stretch started at. */
  ghost predicate RecoveryTrue(log: seq<Status>, obs: seq<Observation>, p: Limits, k: nat)
    requires k <= |obs| && |log| == |obs| + 1
  {
    log[k].state == WARN ==> log[k].recoverySinceMs == RecoveryStart(log, obs, p, k)
  }

  lemma RecoveryStep(log: seq<Status>, obs: seq<Observation>, p: Limits, k: nat)
    requires k < |obs| && IsLog(log, obs, p) && Clocked(obs) && p.outlierBpsWarn <= p.outlierBpsBlacklist
    requires RecoveryTrue(log, obs, p, k)
    ensures RecoveryTrue(log, obs, p, k + 1)
  {
    if log[k].state == BLACKLISTED {
      NoneWhenBlacklisted(log, obs, p, k);
    }
    RecoveryUpdate(obs[k].nowMs, log[k], obs[k].deviationBps, p, RecoveryStart(log, obs, p, k));
    RecoveryStartNext(log, obs, p, k);
  }

  lemma {:induction false} RecoveryStaysTrue(log: seq<Status>, obs: seq<Observation>, p: Limits, k: nat)
    requires k <= |obs| && IsLog(log, obs, p) && Clocked(obs) && p.outlierBpsWarn <= p.outlierBpsBlacklist
    requires log[0].state == WARN ==> log[0].recoverySinceMs == 0
    ensures RecoveryTrue(log, obs, p, k)
  {
    if k > 0 {
      RecoveryStaysTrue(log, obs, p, k - 1);
      RecoveryStep(log, obs, p, k - 1);
    }
  }

  /**
   The venue was clean in WARN at m, or its blacklisting ended there, and since then it has been in
   WARN with nothing between the two thresholds.
   */
  ghost predicate RecoveringSince(log: seq<Status>, obs: seq<Observation>, p: Limits, m: nat, k: nat) {
    && m <= k < |obs| && |log| == |obs| + 1
    && (forall i :: m < i <= k ==> log[i].state == WARN && HardOrClean(obs[i].deviationBps, p))
    && ((log[m].state == WARN && !IsOutlier(obs[m].deviationBps, p)) || (m < k && log[m].state == BLACKLISTED))
  }

  lemma StretchInWarn(log: seq<Status>, obs: seq<Observation>, p: Limits, m: nat, k: nat)
    requires m <= k < |obs| && |log| == |obs| + 1 && log[k].state == WARN && !IsOutlier(obs[k].deviationBps, p)
    requires Starting(log, obs, p)(m) && Unbroken(Keeping(log, obs, p), m, k)
    ensures RecoveringSince(log, obs, p, m, k)
  {
    var run := Keeping(log, obs, p);
    forall i | m < i < k ensures log[i].state == WARN && HardOrClean(obs[i].deviationBps, p) {
      assert run(i - 1) && run(i);
      assert Keeps(log[i - 1].state, obs[i - 1].deviationBps, log[i - 1 + 1].state, p) &&
          Keeps(log[i].state, obs[i].deviationBps, log[i + 1].state, p);
    }
    assert Starts(log[m].state, obs[m].deviationBps, log[m + 1].state, p);
  }

  lemma WarnInStretch(log: seq<Status>, obs: seq<Observation>, p: Limits, m: nat, k: nat)
    requires RecoveringSince(log, obs, p, m, k) && !IsOutlier(obs[k].deviationBps, p)
    ensures Starting(log, obs, p)(m) && Unbroken(Keeping(log, obs, p), m, k)
  {
    var run := Keeping(log, obs, p);
    forall i | m <= i < k ensures run(i) {
      assert log[i + 1].state == WARN;
      assert Keeps(log[i].state, obs[i].deviationBps, log[i + 1].state, p);
    }
    assert m < k ==> log[m + 1].state == WARN;
    assert Starts(log[m].state, obs[m].deviationBps, log[m + 1].state, p);
  }

  lemma RecoveredUpdate(nowMs: int, s: Status, dev: real, p: Limits)
    requires s.state == WARN && p.outlierBpsWarn <= p.outlierBpsBlacklist
    ensures UpdateVenueStatus(nowMs, s, dev, p).0.state == OK <==>
              dev <= p.outlierBpsWarn && nowMs - StartTimer(s.recoverySinceMs, nowMs) >= p.recoveryMs
  {
  }

  lemma RecoveryLasted(log: seq<Status>, obs: seq<Observation>, p: Limits, k: nat)
    requires k < |obs| && |log| == |obs| + 1 && Clocked(obs) && log[k].state == WARN &&
              !IsOutlier(obs[k].deviationBps, p)
    ensures obs[k].nowMs - StartTimer(RecoveryStart(log, obs, p, k), obs[k].nowMs) >= p.recoveryMs <==>
              exists m: nat ::
                  m <= k && RecoveringSince(log, obs, p, m, k) && obs[k].nowMs - obs[m].nowMs >= p.recoveryMs
  {
    var run, start := Keeping(log, obs, p), Starting(log, obs, p);
    assert start(k);
    TimerRuns(run, start, obs, k, p.recoveryMs);
    forall m: nat | m <= k
      ensures Lasted(run, start, obs, m, k, p.recoveryMs) <==>
              RecoveringSince(log, obs, p, m, k) && obs[k].nowMs - obs[m].nowMs >= p.recoveryMs
    {
      if start(m) && Unbroken(run, m, k) {
        StretchInWarn(log, obs, p, m, k);
      }
      if RecoveringSince(log, obs, p, m, k) {
        WarnInStretch(log, obs, p, m, k);
      }
    }
  }

  lemma RecoveredInLog(log: seq<Status>, obs: seq<Observation>, p: Limits, k: nat)
    requires k < |obs| && IsLog(log, obs, p) && Clocked(obs) && p.outlierBpsWarn <= p.outlierBpsBlacklist
    requires log[0].state == WARN ==> log[0].recoverySinceMs == 0
    requires log[k].state == WARN
    ensures log[k + 1].state == OK <==>
              && obs[k].deviationBps <= p.outlierBpsWarn
              && exists m: nat ::
                   m <= k && RecoveringSince(log, obs, p, m, k) && obs[k].nowMs - obs[m].nowMs >= p.recoveryMs
  {
    RecoveryStaysTrue(log, obs, p, k);
    RecoveredUpdate(obs[k].nowMs, log[k], obs[k].deviationBps, p);
    if obs[k].deviationBps <= p.outlierBpsWarn {
      RecoveryLasted(log, obs, p, k);
    }
  }

  /** The log of a run of updates. */
  function LogOf(s: Status, obs: seq<Observation>, p: Limits): (log: seq<Status>)
    ensures |log| == |obs| + 1
  {
    seq(|obs| + 1, k requires 0 <= k <= |obs| => StatusAt(s, obs, p, k))
  }

  lemma LogIsLog(s: Status, obs: seq<Observation>, p: Limits)
    ensures IsLog(LogOf(s, obs, p), obs, p)
  {
    var log := LogOf(s, obs, p);
    forall k | 0 <= k < |obs|
      ensures log[k + 1] == UpdateVenueStatus(obs[k].nowMs, log[k], obs[k].deviationBps, p).0
    {
      assert log[k] == StatusAt(s, obs, p, k) && log[k + 1] == StatusAt(s, obs, p, k + 1);
    }
  }

  /**
   A venue in WARN is OK again after an observation exactly when that is clean and the recovery time
   has passed since the first clean one, or since the end of its blacklisting, with nothing between
   the two thresholds since.  Observations over the blacklist threshold do not count against it
   unless they have lasted long enough to blacklist it.
   */
  lemma RecoveredFromWarn(s: Status, obs: seq<Observation>, p: Limits, k: nat)
    requires k < |obs| && Clocked(obs) && p.outlierBpsWarn <= p.outlierBpsBlacklist
    requires s.state == WARN ==> s.recoverySinceMs == 0
    requires StatusAt(s, obs, p, k).state == WARN
    ensures StatusAt(s, obs, p, k + 1).state == OK <==>
              && obs[k].deviationBps <= p.outlierBpsWarn
              && exists m: nat ::
                   && m <= k && RecoveringSince(LogOf(s, obs, p), obs, p, m, k)
                   && obs[k].nowMs - obs[m].nowMs >= p.recoveryMs
  {
    var log := LogOf(s, obs, p);
    LogIsLog(s, obs, p);
    assert log[0] == s && log[k] == StatusAt(s, obs, p, k) && log[k + 1] == StatusAt(s, obs, p, k + 1);
    RecoveredInLog(log, obs, p, k);
  }

  // ----- A venue that stays close ------------------------------------------------------------

  /** A venue that starts OK and is never over the warning threshold stays OK. */
  lemma {:induction false} CloseStaysOK(s: Status, obs: seq<Observation>, p: Limits, k: nat)
    requires k <= |obs| && s.state == OK && p.outlierBpsWarn <= p.outlierBpsBlacklist
    requires forall i :: 0 <= i < k ==> obs[i].deviationBps <= p.outlierBpsWarn
    ensures StatusAt(s, obs, p, k).state == OK
  {
    if k > 0 {
      CloseStaysOK(s, obs, p, k - 1);
    }
  }
}
