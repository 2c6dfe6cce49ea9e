/**
 The rolling daily limits of the transfer policy: what they keep over whole runs, and exactly for
 which configurations.
 */
module TransferLimits {
  import opened SlidingWindow
  import opened Sums
  import opened TransferPolicy
  import opened TransferScreen

  // ----- When a held transfer can be approved ------------------------------------------------

  predicate GatesOff(c: Config) {
    c.dualApprovalThresholdUSD <= 0.0 && !c.manualApprovalRequired
  }

  /**
   Is there an amount within the cap that some gate holds?  Where requests may be negative, one of
   them lets an amount past the daily limit, unless it uses up the daily count.
   */
  predicate Holdable(cap: real, c: Config, negatives: bool) {
    || c.manualApprovalRequired
    || (&& c.dualApprovalThresholdUSD > 0.0
        && (cap > 0.0 ==> c.dualApprovalThresholdUSD <= cap)
        && (c.maxDailyUSD > 0.0 ==>
              || c.dualApprovalThresholdUSD <= c.maxDailyUSD
              || (negatives && c.maxTransfersPerDay != 1)))
  }

  /**
   Can a transfer be held for approval and then approved?  It needs an allowlist entry that is used
   and whose cap leaves an amount to hold, and an approval that does not expire before it starts.
   */
  predicate ApprovalsReachable(c: Config, negatives: bool) {
    && c.approvalExpiryH >= 0
    && exists k :: 0 <= k < |c.allowlist| && Used(k, c) && Holdable(CapFor(c.allowlist[k].entry, c), c, negatives)
  }

  /** No request is for a negative amount. */
  predicate NonnegativeRequests(run: seq<Event>) {
    forall e :: e in run && e.call.CheckCall? ==> e.call.req.amountUSD >= 0.0
  }

  /** The runs considered: all in which time does not go back, with negative requests or without. */
  predicate Allowed(run: seq<Event>, negatives: bool) {
    InOrder(EventTime, run) && (negatives || NonnegativeRequests(run))
  }

  /** Whatever still waits for approval has expired. */
  predicate AllExpired(s: State, nowMs: int) {
    forall id :: id in s.pending ==> s.pending[id].expiresAt < nowMs
  }

  /** A check that holds a transfer, where none can be approved afterwards, holds one that has expired already. */
  lemma HeldIsExpired(s: State, nowMs: int, req: Request, tampered: bool, c: Config, negatives: bool)
    requires !ApprovalsReachable(c, negatives) && Check(s, nowMs, req, tampered, c).1.outcome.Pending?
    requires negatives || (req.amountUSD >= 0.0 && SumBy(AmountOf, Prune(Time, s.history, nowMs - DAY_MS)) >= 0.0)
    ensures ExpiryMs(c) < 0
  {
    var k := ScreenedIsUsed(nowMs, req, tampered, c);
    assert c.approvalExpiryH >= 0 ==> !Holdable(CapFor(c.allowlist[k].entry, c), c, negatives);
  }

  lemma ExpiredStep(s: State, e: Event, c: Config, lastMs: int, negatives: bool)
    requires !ApprovalsReachable(c, negatives) && AllExpired(s, lastMs) && lastMs <= e.nowMs
    requires negatives || (&& (e.call.CheckCall? ==> e.call.req.amountUSD >= 0.0)
                           && SumBy(AmountOf, Prune(Time, s.history, e.nowMs - DAY_MS)) >= 0.0)
    ensures AllExpired(Apply(s, e, c).0, e.nowMs)
    ensures Apply(s, e, c).1.Approved? ==> e.call.CheckCall?
  {
    if e.call.CheckCall? && Apply(s, e, c).1.Pending? {
      HeldIsExpired(s, e.nowMs, e.call.req, e.call.tampered, c, negatives);
    }
  }

  // ----- What checks approve -----------------------------------------------------------------

  /** Is there a most that a check approves by itself? */
  predicate Capped(c: Config) {
    c.maxPerTransferUSD > 0.0 || c.dualApprovalThresholdUSD > 0.0
  }

  /** No check approves more for the entry by itself, and short of the approval threshold all less. */
  function DirectCap(entry: Entry, c: Config): (cap: real)
    ensures Capped(c) ==> cap > 0.0
  {
    if c.maxPerTransferUSD <= 0.0 then c.dualApprovalThresholdUSD
    else if c.dualApprovalThresholdUSD <= 0.0 then CapFor(entry, c)
    else Min(CapFor(entry, c), c.dualApprovalThresholdUSD)
  }

  predicate AllNonnegative(records: seq<Record>) {
    forall k :: 0 <= k < |records| ==> AmountOf(records[k]) >= 0.0
  }

  /** Some entry that is used lets a check approve the amount by itself. */
  ghost predicate Direct(amount: real, c: Config) {
    exists k :: Used(k, c) && (Capped(c) ==> amount <= DirectCap(c.allowlist[k].entry, c))
  }

  ghost predicate AllDirect(records: seq<Record>, c: Config) {
    forall i :: 0 <= i < |records| ==> Direct(AmountOf(records[i]), c)
  }

  /** What is known of the amounts approved, when checks alone approve. */
  ghost predicate Bounded(records: seq<Record>, c: Config, negatives: bool) {
    && AllDirect(records, c)
    && (!negatives ==> AllNonnegative(records))
    && (c.manualApprovalRequired ==> records == [])
  }

  lemma BookedBounded(s: State, e: Event, c: Config, full: seq<Record>, negatives: bool)
    requires Bounded(full, c, negatives) && (Apply(s, e, c).1.Approved? ==> e.call.CheckCall?)
    requires !negatives && e.call.CheckCall? ==> e.call.req.amountUSD >= 0.0
    ensures Bounded(full + Booked(s, e, c), c, negatives)
  {
    if Apply(s, e, c).1.Approved? {
      var k := ScreenedIsUsed(e.nowMs, e.call.req, e.call.tampered, c);
      assert ApprovalsFor(e.call.req.amountUSD, c) == 0;
      assert Direct(e.call.req.amountUSD, c);
    }
  }

  lemma SumOfPruned(history: seq<Record>, full: seq<Record>, cut: int, lastMs: int, nowMs: int)
    requires HistoryTrue(history, full, cut, lastMs) && lastMs <= nowMs && AllNonnegative(full)
    ensures SumBy(AmountOf, Prune(Time, history, nowMs - DAY_MS)) >= 0.0
  {
    var never := (r: Record) => false;
    HistoryPruned(history, full, cut, lastMs, nowMs);
    KeepNone(never, full);
    KeepFewer(never, NotBefore(Time, nowMs - DAY_MS), AmountOf, full);
  }

  lemma ChecksApproveNext(run: seq<Event>, c: Config, n: nat, negatives: bool)
    requires n < |run| && Allowed(run, negatives) && !ApprovalsReachable(c, negatives)
    requires AllExpired(StateAt(run, c, n), LastTime(run, n)) && Bounded(ApprovedRecords(run, c, n), c, negatives)
    ensures AllExpired(StateAt(run, c, n + 1), run[n].nowMs) && Bounded(ApprovedRecords(run, c, n + 1), c, negatives)
    ensures OutcomeAt(run, c, n).Approved? ==> run[n].call.CheckCall?
  {
    var s, e, full := StateAt(run, c, n), run[n], ApprovedRecords(run, c, n);
    HistoryAlwaysTrue(run, c, n);
    LastTimeFirst(run, n);
    if !negatives {
      assert e in run;
      SumOfPruned(s.history, full, CutAt(run, c, n), LastTime(run, n), e.nowMs);
    }
    ExpiredStep(s, e, c, LastTime(run, n), negatives);
    BookedBounded(s, e, c, full, negatives);
  }

  /** With no approval to be reached, transfers are approved by checks only. */
  lemma {:induction false} OnlyChecksApprove(run: seq<Event>, c: Config, n: nat, negatives: bool)
    requires n < |run| && Allowed(run, negatives) && !ApprovalsReachable(c, negatives)
    ensures AllExpired(StateAt(run, c, n), LastTime(run, n)) && Bounded(ApprovedRecords(run, c, n), c, negatives)
    ensures OutcomeAt(run, c, n).Approved? ==> run[n].call.CheckCall?
  {
    if n > 0 {
      OnlyChecksApprove(run, c, n - 1, negatives);
      ChecksApproveNext(run, c, n - 1, negatives);
    }
    ChecksApproveNext(run, c, n, negatives);
  }

  // ----- The limits over a run ---------------------------------------------------------------

  predicate WithinCount(records: seq<Record>, c: Config) {
    |records| <= c.maxTransfersPerDay
  }

  predicate WithinAmount(records: seq<Record>, c: Config) {
    SumBy(AmountOf, records) <= c.maxDailyUSD
  }

  /** What a check approves fits the limits together with what the pruned history holds. */
  lemma CheckFits(s: State, e: Event, c: Config)
    requires e.call.CheckCall? && Apply(s, e, c).1.Approved?
    ensures var kept := Prune(Time, s.history, e.nowMs - DAY_MS);
            && (c.maxTransfersPerDay > 0 ==> |kept| < c.maxTransfersPerDay)
            && (c.maxDailyUSD > 0.0 ==> SumBy(AmountOf, kept) + e.call.req.amountUSD <= c.maxDailyUSD)
    ensures Booked(s, e, c) == [Record(e.call.req.toAddress, e.call.req.amountUSD, e.nowMs)]
  {
  }

  function Day(from: int): Record -> bool {
    Within(Time, from, from + DAY_MS)
  }

  /** The transfers approved in the closed day that starts at `from`. */
  function InDay(run: seq<Event>, c: Config, n: nat, from: int): seq<Record>
    requires n <= |run|
  {
    Keep(Day(from), ApprovedRecords(run, c, n))
  }

  /** Any room that negative requests make under the daily amount is too small to exceed it. */
  predicate RoomIsHarmless(c: Config) {
    || c.manualApprovalRequired
    || c.maxTransfersPerDay == 1
    || forall k :: 0 <= k < |c.allowlist| && Used(k, c) ==>
         && c.maxTransfersPerDay > 1 && Capped(c)
         && Times(DirectCap(c.allowlist[k].entry, c), (c.maxTransfersPerDay - 1) as real) <= c.maxDailyUSD
  }

  predicate AmountIsLimited(c: Config, negatives: bool) {
    c.maxDailyUSD > 0.0 && (negatives ==> RoomIsHarmless(c))
  }

  lemma DayWith(full: seq<Record>, r: Record, from: int)
    ensures Keep(Day(from), full + [r]) ==
            Keep(Day(from), full) + if from <= r.ts <= from + DAY_MS then [r] else []
  {
    KeepMore(Day(from), full, r);
    assert Day(from)(r) <==> from <= Time(r) <= from + DAY_MS;
  }

  /** A day that holds now has no more in it than the day that ends now; if as many, then the same. */
  lemma DayInRecent(full: seq<Record>, nowMs: int, from: int)
    requires from <= nowMs <= from + DAY_MS
    ensures var (day, recent) := (Keep(Day(from), full), Recent(Time, full, nowMs - DAY_MS));
            && |day| <= |recent| && (|day| == |recent| ==> day == recent)
            && (AllNonnegative(full) ==> SumBy(AmountOf, day) <= SumBy(AmountOf, recent))
  {
    WindowIsRecent(Time, AmountOf, full, from, DAY_MS, nowMs);
    if |Keep(Day(from), full)| == |Recent(Time, full, nowMs - DAY_MS)| {
      KeepSame(Day(from), NotBefore(Time, nowMs - DAY_MS), AmountOf, full);
    }
  }

  lemma {:induction false} SumOfCapped(records: seq<Record>, cap: real)
    requires forall k :: 0 <= k < |records| ==> AmountOf(records[k]) <= cap
    ensures SumBy(AmountOf, records) <= Times(cap, |records| as real)
  {
    if records != [] {
      var n := |records| - 1;
      SumOfCapped(records[..n], cap);
      TimesAdds(cap, n as real, 1.0);
      assert n as real + 1.0 == |records| as real && Times(cap, 1.0) == cap;
    }
  }

  lemma {:induction false} KeepDirect(full: seq<Record>, p: Record -> bool, c: Config)
    requires AllDirect(full, c)
    ensures AllDirect(Keep(p, full), c)
  {
    if full != [] {
      KeepDirect(full[..|full| - 1], p, c);
    }
  }

  lemma ShareOf(x: real, n: nat, total: real)
    requires n > 0 && Times(x, n as real) <= total
    ensures x <= total / n as real
  {
    assert total / n as real - x == (total - x * n as real) / n as real;
  }

  lemma DirectIsShare(amount: real, c: Config)
    requires RoomIsHarmless(c) && Direct(amount, c) && !c.manualApprovalRequired && c.maxTransfersPerDay > 1
    ensures amount <= c.maxDailyUSD / (c.maxTransfersPerDay - 1) as real
  {
    var k :| Used(k, c) && (Capped(c) ==> amount <= DirectCap(c.allowlist[k].entry, c));
    ShareOf(DirectCap(c.allowlist[k].entry, c), c.maxTransfersPerDay - 1, c.maxDailyUSD);
  }

  lemma SharesAreWithin(day: seq<Record>, n: nat, total: real)
    requires 0 <= |day| <= n && n > 0 && total > 0.0
    requires forall k :: 0 <= k < |day| ==> AmountOf(day[k]) <= total / n as real
    ensures SumBy(AmountOf, day) <= total
  {
    var share := total / n as real;
    SumOfCapped(day, share);
    TimesMonotone(|day| as real, n as real, share);
    TimesCommutes(|day| as real, share);
    TimesCommutes(n as real, share);
    assert Times(share, n as real) == total;
  }

  /** Fewer transfers than the count allows, each within its cap, cannot exceed the daily amount. */
  lemma FewAreWithin(full: seq<Record>, from: int, c: Config)
    requires RoomIsHarmless(c) && AllDirect(full, c) && c.maxDailyUSD > 0.0 && !c.manualApprovalRequired
    requires |Keep(Day(from), full)| < c.maxTransfersPerDay
    ensures WithinAmount(Keep(Day(from), full), c)
  {
    var day := Keep(Day(from), full);
    if c.maxTransfersPerDay > 1 {
      KeepDirect(full, Day(from), c);
      forall k | 0 <= k < |day| ensures AmountOf(day[k]) <= c.maxDailyUSD / (c.maxTransfersPerDay - 1) as real {
        DirectIsShare(AmountOf(day[k]), c);
      }
      SharesAreWithin(day, c.maxTransfersPerDay - 1, c.maxDailyUSD);
    } else {
      assert day == [];
    }
  }

  lemma DayGrows(history: seq<Record>, full: seq<Record>, cut: int, lastMs: int, r: Record, c: Config, from: int,
                 negatives: bool)
    requires HistoryTrue(history, full, cut, lastMs) && lastMs <= r.ts
    requires Bounded(full + [r], c, negatives)
    requires var kept := Prune(Time, history, r.ts - DAY_MS);
             && (c.maxTransfersPerDay > 0 ==> |kept| < c.maxTransfersPerDay)
             && (c.maxDailyUSD > 0.0 ==> SumBy(AmountOf, kept) + r.amountUSD <= c.maxDailyUSD)
    ensures var (day, day') := (Keep(Day(from), full), Keep(Day(from), full + [r]));
            && (c.maxTransfersPerDay > 0 && WithinCount(day, c) ==> WithinCount(day', c))
            && (AmountIsLimited(c, negatives) && WithinAmount(day, c) ==> WithinAmount(day', c))
  {
    var day, recent := Keep(Day(from), full), Recent(Time, full, r.ts - DAY_MS);
    HistoryPruned(history, full, cut, lastMs, r.ts);
    DayWith(full, r, from);
    assert day + [] == day;
    assert forall k :: 0 <= k < |full| ==> (full + [r])[k] == full[k];
    if from <= r.ts <= from + DAY_MS {
      DayInRecent(full, r.ts, from);
      SumByAppend(AmountOf, day, [r]);
      assert SumBy(AmountOf, [r]) == r.amountUSD;
      if AmountIsLimited(c, negatives) && negatives && |day| < |recent| {
        FewAreWithin(full + [r], from, c);
      }
    }
  }

  /** A day is within the limits that hold. */
  predicate DayKept(day: seq<Record>, c: Config, negatives: bool) {
    && (c.maxTransfersPerDay > 0 ==> WithinCount(day, c))
    && (AmountIsLimited(c, negatives) ==> WithinAmount(day, c))
  }

  lemma DayNext(s: State, e: Event, c: Config, full: seq<Record>, cut: int, lastMs: int, from: int, negatives: bool)
    requires HistoryTrue(s.history, full, cut, lastMs) && lastMs <= e.nowMs
    requires Bounded(full + Booked(s, e, c), c, negatives) && (Apply(s, e, c).1.Approved? ==> e.call.CheckCall?)
    requires DayKept(Keep(Day(from), full), c, negatives)
    ensures DayKept(Keep(Day(from), full + Booked(s, e, c)), c, negatives)
  {
    if Apply(s, e, c).1.Approved? {
      CheckFits(s, e, c);
      DayGrows(s.history, full, cut, lastMs, Booked(s, e, c)[0], c, from, negatives);
    } else {
      assert full + [] == full;
    }
  }

  lemma DayStep(run: seq<Event>, c: Config, n: nat, from: int, negatives: bool)
    requires n < |run| && Allowed(run, negatives) && !ApprovalsReachable(c, negatives)
    requires DayKept(InDay(run, c, n, from), c, negatives)
    ensures DayKept(InDay(run, c, n + 1, from), c, negatives)
  {
    OnlyChecksApprove(run, c, n, negatives);
    ChecksApproveNext(run, c, n, negatives);
    HistoryAlwaysTrue(run, c, n);
    LastTimeFirst(run, n);
    DayNext(StateAt(run, c, n), run[n], c, ApprovedRecords(run, c, n), CutAt(run, c, n), LastTime(run, n), from,
            negatives);
  }

  lemma {:induction false} DaysKept(run: seq<Event>, c: Config, n: nat, from: int, negatives: bool)
    requires n <= |run| && Allowed(run, negatives) && !ApprovalsReachable(c, negatives)
    ensures DayKept(InDay(run, c, n, from), c, negatives)
  {
    if n == 0 {
      assert InDay(run, c, 0, from) == [];
    } else {
      DaysKept(run, c, n - 1, from, negatives);
      DayStep(run, c, n - 1, from, negatives);
    }
  }

  /**
   Where no held transfer can come to be approved, every closed window of 24 hours holds at most the
   daily count of approved transfers, and at most the daily amount if requests are not negative or
   the room that negative ones make is harmless.
   */
  lemma DailyLimits(run: seq<Event>, c: Config, n: nat, from: int, negatives: bool)
    requires n <= |run| && Allowed(run, negatives) && !ApprovalsReachable(c, negatives)
    ensures c.maxTransfersPerDay > 0 ==> WithinCount(InDay(run, c, n, from), c)
    ensures AmountIsLimited(c, negatives) ==> WithinAmount(InDay(run, c, n, from), c)
  {
    DaysKept(run, c, n, from, negatives);
  }

  /** With both gates off the daily count is kept by every run, and the daily amount by every run without negatives. */
  lemma DailyLimitsWithoutGates(run: seq<Event>, c: Config, n: nat, from: int)
    requires n <= |run| && InOrder(EventTime, run) && GatesOff(c)
    ensures c.maxTransfersPerDay > 0 ==> WithinCount(InDay(run, c, n, from), c)
    ensures c.maxDailyUSD > 0.0 && NonnegativeRequests(run) ==> WithinAmount(InDay(run, c, n, from), c)
  {
    DailyLimits(run, c, n, from, true);
    if NonnegativeRequests(run) {
      DailyLimits(run, c, n, from, false);
    }
  }
}
