/**
 Exactly which configurations of the transfer policy keep the daily limits over all runs: for every
 other one, a run that breaks them.
 */
module TransferExact {
  import opened SlidingWindow
  import opened Sums
  import opened TransferLimits
  import opened TransferPolicy
  import opened TransferScreen

  // ----- Runs, one event at a time -----------------------------------------------------------

  lemma {:induction false} RunPrefix(run: seq<Event>, more: seq<Event>, c: Config, n: nat)
    requires n <= |run|
    ensures StateAt(run + more, c, n) == StateAt(run, c, n)
    ensures ApprovedRecords(run + more, c, n) == ApprovedRecords(run, c, n)
  {
    if n > 0 {
      RunPrefix(run, more, c, n - 1);
    }
  }

  function Last(run: seq<Event>, c: Config): (State, seq<Record>) {
    (StateAt(run, c, |run|), ApprovedRecords(run, c, |run|))
  }

  lemma LastOfOneMore(run: seq<Event>, e: Event, c: Config)
    ensures Last(run + [e], c) == (Apply(Last(run, c).0, e, c).0, Last(run, c).1 + Booked(Last(run, c).0, e, c))
  {
    RunPrefix(run, [e], c, |run|);
  }

  /** A check of a transfer that entry l is the first to list. */
  function Ask(l: nat, id: string, amount: real, nowMs: int, c: Config): Event
    requires l < |c.allowlist|
  {
    Event(nowMs, CheckCall(RequestFor(l, id, amount, c), false))
  }

  function Sent(l: nat, amount: real, nowMs: int, c: Config): Record
    requires l < |c.allowlist|
  {
    Record(c.allowlist[l].address, amount, nowMs)
  }

  function Ready(l: nat, c: Config): int
    requires l < |c.allowlist|
  {
    ReadyAt(c.allowlist[l].entry, c)
  }

  /** Neither a gate nor a limit stands in the way of a check for entry l. */
  predicate Passes(history: seq<Record>, l: nat, amount: real, c: Config)
    requires l < |c.allowlist|
  {
    && !OverCap(amount, c.allowlist[l].entry, c)
    && Velocity(history, amount, c).Approved?
    && ApprovalsFor(amount, c) == 0
  }

  lemma AskApproved(s: State, l: nat, nowMs: int, amount: real, c: Config)
    requires Used(l, c) && nowMs >= Ready(l, c)
    requires Passes(s.history, l, amount, c) && Prune(Time, s.history, nowMs - DAY_MS) == s.history
    ensures Booked(s, Ask(l, "id", amount, nowMs, c), c) == [Sent(l, amount, nowMs, c)]
    ensures Apply(s, Ask(l, "id", amount, nowMs, c), c).0 == s.(history := s.history + [Sent(l, amount, nowMs, c)])
  {
    RequestPasses(l, "id", amount, nowMs, c);
  }

  /** Nothing has been held for approval, and nothing pruned. */
  ghost predicate AllSent(run: seq<Event>, records: seq<Record>, c: Config) {
    Last(run, c) == (State(records, map[]), records)
  }

  lemma OneMoreSent(run: seq<Event>, records: seq<Record>, l: nat, nowMs: int, amount: real, c: Config)
    requires Used(l, c) && nowMs >= Ready(l, c)
    requires AllSent(run, records, c) && Passes(records, l, amount, c)
    requires Prune(Time, records, nowMs - DAY_MS) == records
    ensures AllSent(run + [Ask(l, "id", amount, nowMs, c)], records + [Sent(l, amount, nowMs, c)], c)
  {
    AskApproved(State(records, map[]), l, nowMs, amount, c);
    LastOfOneMore(run, Ask(l, "id", amount, nowMs, c), c);
  }

  lemma FirstSent(l: nat, amount: real, nowMs: int, c: Config)
    requires Used(l, c) && nowMs >= Ready(l, c) && Passes([], l, amount, c)
    ensures AllSent([Ask(l, "id", amount, nowMs, c)], [Sent(l, amount, nowMs, c)], c)
  {
    var e, r := Ask(l, "id", amount, nowMs, c), Sent(l, amount, nowMs, c);
    assert Prune(Time, [], nowMs - DAY_MS) == [];
    OneMoreSent([], [], l, nowMs, amount, c);
    assert [] + [e] == [e] && [] + [r] == [r];
  }

  function Repeated(r: Record, k: nat): (s: seq<Record>)
    ensures |s| == k
    ensures forall i :: 0 <= i < k ==> s[i] == r
  {
    if k == 0 then [] else Repeated(r, k - 1) + [r]
  }

  lemma TimesOneMore(a: real, k: nat)
    ensures Times(a, (k + 1) as real) == Times(a, k as real) + a
  {
    TimesAdds(a, k as real, 1.0);
    assert k as real + 1.0 == (k + 1) as real && Times(a, 1.0) == a;
  }

  lemma {:induction false} SumRepeated(r: Record, k: nat)
    ensures SumBy(AmountOf, Repeated(r, k)) == Times(r.amountUSD, k as real)
  {
    if k == 0 {
      assert Times(r.amountUSD, 0.0) == 0.0;
    } else {
      SumRepeated(r, k - 1);
      TimesOneMore(r.amountUSD, k - 1);
      assert Repeated(r, k)[..k - 1] == Repeated(r, k - 1);
    }
  }

  // ----- Many held transfers approved at once ------------------------------------------------

  /** What is sent first, and an amount that can then be held for approval, all listed by entry l at one time. */
  datatype Plan = Plan(l: nat, opening: seq<Event>, base: seq<Record>, amount: real)

  ghost predicate Feasible(pl: Plan, c: Config) {
    && c.approvalExpiryH >= 0 && Used(pl.l, c)
    && (forall k :: 0 <= k < |pl.opening| ==> pl.opening[k].nowMs == Ready(pl.l, c))
    && (forall k :: 0 <= k < |pl.base| ==> pl.base[k].ts == Ready(pl.l, c))
    && Last(pl.opening, c) == (State(pl.base, map[]), pl.base)
    && !OverCap(pl.amount, c.allowlist[pl.l].entry, c)
    && Velocity(pl.base, pl.amount, c).Approved?
    && ApprovalsFor(pl.amount, c) > 0
  }

  function CheckOf(k: nat, pl: Plan, c: Config): Event
    requires pl.l < |c.allowlist|
  {
    Ask(pl.l, TextOf(k), pl.amount, Ready(pl.l, c), c)
  }

  function Held(k: nat, pl: Plan, c: Config): PendingTransfer
    requires pl.l < |c.allowlist|
  {
    NewPending(Ready(pl.l, c), RequestFor(pl.l, TextOf(k), pl.amount, c), c)
  }

  function ToSend(pl: Plan, c: Config): Record
    requires pl.l < |c.allowlist|
  {
    Sent(pl.l, pl.amount, Ready(pl.l, c), c)
  }

  /** After the opening the first k transfers are asked for. */
  function Checks(k: nat, pl: Plan, c: Config): seq<Event>
    requires pl.l < |c.allowlist|
  {
    if k == 0 then pl.opening else Checks(k - 1, pl, c) + [CheckOf(k - 1, pl, c)]
  }

  function Sign(k: nat, signer: string, pl: Plan, c: Config): Event
    requires pl.l < |c.allowlist|
  {
    Event(Ready(pl.l, c), ApproveCall(TextOf(k), signer))
  }

  /** Transfer k is signed, by two operators if it needs both. */
  function Signatures(k: nat, pl: Plan, c: Config): seq<Event>
    requires pl.l < |c.allowlist|
  {
    [Sign(k, "first", pl, c)] + if ApprovalsFor(pl.amount, c) == 2 then [Sign(k, "second", pl, c)] else []
  }

  function Rush(asked: nat, signed: nat, pl: Plan, c: Config): seq<Event>
    requires pl.l < |c.allowlist|
  {
    if signed == 0 then Checks(asked, pl, c) else Rush(asked, signed - 1, pl, c) + Signatures(signed - 1, pl, c)
  }

  predicate Waits(s: State, k: nat, pl: Plan, c: Config)
    requires pl.l < |c.allowlist|
  {
    TextOf(k) in s.pending && s.pending[TextOf(k)] == Held(k, pl, c)
  }

  /** The transfers from `signed` up to `asked` wait for approval. */
  predicate Waiting(s: State, signed: nat, asked: nat, pl: Plan, c: Config)
    requires pl.l < |c.allowlist|
  {
    forall k :: signed <= k < asked ==> Waits(s, k, pl, c)
  }

  lemma CheckHolds(s: State, k: nat, pl: Plan, c: Config)
    requires Feasible(pl, c) && s.history == pl.base
    ensures Apply(s, CheckOf(k, pl, c), c) == (State(pl.base, s.pending[TextOf(k) := Held(k, pl, c)]), Pending)
  {
    var nowMs := Ready(pl.l, c);
    RequestPasses(pl.l, TextOf(k), pl.amount, nowMs, c);
    assert Prune(Time, pl.base, nowMs - DAY_MS) == pl.base;
  }

  lemma CheckWaits(s: State, k: nat, pl: Plan, c: Config)
    requires Feasible(pl, c) && s.history == pl.base && Waiting(s, 0, k, pl, c)
    ensures var s' := Apply(s, CheckOf(k, pl, c), c).0;
            s'.history == pl.base && Waiting(s', 0, k + 1, pl, c) && Booked(s, CheckOf(k, pl, c), c) == []
  {
    CheckHolds(s, k, pl, c);
    var s' := State(pl.base, s.pending[TextOf(k) := Held(k, pl, c)]);
    forall i | 0 <= i < k + 1 ensures Waits(s', i, pl, c) {
      assert i < k ==> Waits(s, i, pl, c);
      assert |TextOf(i)| == i && |TextOf(k)| == k;
    }
  }

  /** The base and the first k transfers, asked for and not yet signed. */
  ghost predicate AllWait(run: seq<Event>, k: nat, pl: Plan, c: Config)
    requires pl.l < |c.allowlist|
  {
    var (s, records) := Last(run, c);
    s.history == pl.base && records == pl.base && Waiting(s, 0, k, pl, c)
  }

  lemma OneMoreWaits(run: seq<Event>, k: nat, pl: Plan, c: Config)
    requires Feasible(pl, c) && AllWait(run, k, pl, c)
    ensures AllWait(run + [CheckOf(k, pl, c)], k + 1, pl, c)
  {
    CheckWaits(Last(run, c).0, k, pl, c);
    LastOfOneMore(run, CheckOf(k, pl, c), c);
    assert pl.base + [] == pl.base;
  }

  lemma {:induction false} ChecksWait(k: nat, pl: Plan, c: Config)
    requires Feasible(pl, c)
    ensures AllWait(Checks(k, pl, c), k, pl, c)
  {
    if k > 0 {
      ChecksWait(k - 1, pl, c);
      OneMoreWaits(Checks(k - 1, pl, c), k - 1, pl, c);
    }
  }

  /** Transfer k waits, signed by those given; the ones after it wait unsigned. */
  predicate PartlySigned(s: State, k: nat, asked: nat, approvals: seq<Approval>, pl: Plan, c: Config)
    requires pl.l < |c.allowlist|
  {
    && TextOf(k) in s.pending && s.pending[TextOf(k)] == Held(k, pl, c).(approvals := approvals)
    && Waiting(s, k + 1, asked, pl, c)
  }

  lemma OneSignature(s: State, k: nat, asked: nat, approvals: seq<Approval>, signer: string, pl: Plan, c: Config)
    requires Feasible(pl, c) && PartlySigned(s, k, asked, approvals, pl, c)
    requires |approvals| < ApprovalsFor(pl.amount, c) && !HasSigned(approvals, signer) && signer != "requester"
    ensures var e, more := Sign(k, signer, pl, c), approvals + [Approval(signer, Ready(pl.l, c))];
            if |more| < ApprovalsFor(pl.amount, c) then
              PartlySigned(Apply(s, e, c).0, k, asked, more, pl, c) && Booked(s, e, c) == []
            else
              Waiting(Apply(s, e, c).0, k + 1, asked, pl, c) && Booked(s, e, c) == [ToSend(pl, c)]
  {
    var s' := Approve(s, Ready(pl.l, c), TextOf(k), signer).0;
    forall i | k + 1 <= i < asked ensures Waits(s', i, pl, c) {
      assert Waits(s, i, pl, c);
      assert |TextOf(i)| == i && |TextOf(k)| == k;
    }
  }

  lemma SignaturesApprove(run: seq<Event>, signed: nat, asked: nat, pl: Plan, c: Config)
    requires Feasible(pl, c) && signed < asked && Waiting(Last(run, c).0, signed, asked, pl, c)
    ensures Last(run + Signatures(signed, pl, c), c).1 == Last(run, c).1 + [ToSend(pl, c)]
    ensures Waiting(Last(run + Signatures(signed, pl, c), c).0, signed + 1, asked, pl, c)
  {
    var s, first, second := Last(run, c).0, Sign(signed, "first", pl, c), Sign(signed, "second", pl, c);
    assert Waits(s, signed, pl, c);
    OneSignature(s, signed, asked, [], "first", pl, c);
    LastOfOneMore(run, first, c);
    if ApprovalsFor(pl.amount, c) == 2 {
      var approvals := [Approval("first", Ready(pl.l, c))];
      assert [] + approvals == approvals;
      OneSignature(Last(run + [first], c).0, signed, asked, approvals, "second", pl, c);
      LastOfOneMore(run + [first], second, c);
      assert run + Signatures(signed, pl, c) == run + [first] + [second];
    } else {
      assert run + Signatures(signed, pl, c) == run + [first];
    }
  }

  /** The first transfers asked for have been approved on top of the base, and the others wait. */
  ghost predicate AllSigned(run: seq<Event>, signed: nat, asked: nat, pl: Plan, c: Config)
    requires pl.l < |c.allowlist|
  {
    && Waiting(Last(run, c).0, signed, asked, pl, c)
    && Last(run, c).1 == pl.base + Repeated(ToSend(pl, c), signed)
  }

  lemma OneMoreSigned(run: seq<Event>, signed: nat, asked: nat, pl: Plan, c: Config)
    requires Feasible(pl, c) && signed < asked && AllSigned(run, signed, asked, pl, c)
    ensures AllSigned(run + Signatures(signed, pl, c), signed + 1, asked, pl, c)
  {
    SignaturesApprove(run, signed, asked, pl, c);
    assert Repeated(ToSend(pl, c), signed + 1) == Repeated(ToSend(pl, c), signed) + [ToSend(pl, c)];
  }

  lemma {:induction false} RushApprovesAll(asked: nat, signed: nat, pl: Plan, c: Config)
    requires Feasible(pl, c) && signed <= asked
    ensures AllSigned(Rush(asked, signed, pl, c), signed, asked, pl, c)
  {
    if signed == 0 {
      ChecksWait(asked, pl, c);
      assert pl.base + [] == pl.base;
    } else {
      RushApprovesAll(asked, signed - 1, pl, c);
      OneMoreSigned(Rush(asked, signed - 1, pl, c), signed - 1, asked, pl, c);
    }
  }

  /** An event of the rush: at the one time, and if it asks then for the amount held. */
  predicate RushEvent(e: Event, pl: Plan, c: Config)
    requires pl.l < |c.allowlist|
  {
    && e.nowMs == Ready(pl.l, c)
    && (e in pl.opening || (e.call.CheckCall? ==> e.call.req.amountUSD == pl.amount))
  }

  lemma {:induction false} RushEvents(asked: nat, signed: nat, pl: Plan, c: Config)
    requires Feasible(pl, c)
    ensures forall k :: 0 <= k < |Rush(asked, signed, pl, c)| ==> RushEvent(Rush(asked, signed, pl, c)[k], pl, c)
  {
    if signed > 0 {
      RushEvents(asked, signed - 1, pl, c);
    } else if asked > 0 {
      RushEvents(asked - 1, 0, pl, c);
      assert Rush(asked, 0, pl, c) == Rush(asked - 1, 0, pl, c) + [CheckOf(asked - 1, pl, c)];
    }
  }

  /** As many transfers as one likes, approved at the same moment: approvals do not look at the limits. */
  lemma ManyAtOnce(c: Config, k: nat, pl: Plan) returns (run: seq<Event>)
    requires Feasible(pl, c)
    ensures InOrder(EventTime, run)
    ensures pl.opening == [] && pl.amount >= 0.0 ==> NonnegativeRequests(run)
    ensures InDay(run, c, |run|, Ready(pl.l, c)) ==
            pl.base + Repeated(Record(c.allowlist[pl.l].address, pl.amount, Ready(pl.l, c)), k)
  {
    run := Rush(k, k, pl, c);
    RushEvents(k, k, pl, c);
    assert forall e :: e in run ==> RushEvent(e, pl, c);
    RushApprovesAll(k, k, pl, c);
    var all, day := Last(run, c).1, Day(Ready(pl.l, c));
    forall i | 0 <= i < |all| ensures day(all[i]) {
      assert day(all[i]) <==> Ready(pl.l, c) <= Time(all[i]) <= Ready(pl.l, c) + DAY_MS;
    }
    KeepAll(day, all);
  }

  // ----- A plan for every configuration where approvals can be reached -----------------------

  /** An amount that the cap lets through and some gate holds. */
  function HeldAmount(cap: real, c: Config): (a: real)
    requires Holdable(cap, c, false)
    ensures a > 0.0 && ApprovalsFor(a, c) > 0
    ensures (cap > 0.0 ==> a <= cap) && (c.maxDailyUSD > 0.0 ==> a <= c.maxDailyUSD)
  {
    if !c.manualApprovalRequired then c.dualApprovalThresholdUSD
    else
      var a := if cap > 0.0 then cap else 1.0;
      if 0.0 < c.maxDailyUSD < a then c.maxDailyUSD else a
  }

  lemma DirectPlan(l: nat, c: Config) returns (pl: Plan)
    requires c.approvalExpiryH >= 0 && Used(l, c) && Holdable(CapFor(c.allowlist[l].entry, c), c, false)
    ensures Feasible(pl, c) && pl.amount > 0.0 && pl.opening == []
  {
    pl := Plan(l, [], [], HeldAmount(CapFor(c.allowlist[l].entry, c), c));
    assert SumBy(AmountOf, []) == 0.0;
    assert Velocity([], pl.amount, c).Approved?;
  }

  /** Where only a negative request lets the amount past the daily limit, one opens the run. */
  lemma OpenedPlan(l: nat, c: Config) returns (pl: Plan)
    requires c.approvalExpiryH >= 0 && Used(l, c) && Holdable(CapFor(c.allowlist[l].entry, c), c, true)
    requires !Holdable(CapFor(c.allowlist[l].entry, c), c, false)
    ensures Feasible(pl, c) && pl.amount > 0.0
  {
    var a, nowMs := c.dualApprovalThresholdUSD, Ready(l, c);
    pl := Plan(l, [Ask(l, "id", -a, nowMs, c)], [Sent(l, -a, nowMs, c)], a);
    assert SumBy(AmountOf, []) == 0.0;
    FirstSent(l, -a, nowMs, c);
    assert SumBy(AmountOf, [Sent(l, -a, nowMs, c)]) == -a;
    assert Velocity([Sent(l, -a, nowMs, c)], a, c).Approved?;
  }

  lemma PlanFor(c: Config, negatives: bool) returns (pl: Plan)
    requires ApprovalsReachable(c, negatives)
    ensures Feasible(pl, c) && pl.amount > 0.0
    ensures !negatives ==> pl.opening == []
  {
    var l :| 0 <= l < |c.allowlist| && Used(l, c) && Holdable(CapFor(c.allowlist[l].entry, c), c, negatives);
    if Holdable(CapFor(c.allowlist[l].entry, c), c, false) {
      pl := DirectPlan(l, c);
    } else {
      pl := OpenedPlan(l, c);
    }
  }

  lemma EnoughTimes(total: real, a: real) returns (k: nat)
    requires total > 0.0 && a > 0.0
    ensures Times(a, k as real) > total
  {
    k := (total / a).Floor + 1;
    var rest := k as real - total / a;
    assert rest > 0.0 && rest * a > 0.0;
    TimesAdds(a, total / a, rest);
    assert Times(a, total / a) == total && Times(a, rest) > 0.0;
  }

  /** Enough transfers of an amount to exceed a count and, on top of what there is, a total. */
  lemma EnoughOf(base: seq<Record>, a: real, count: nat, total: real) returns (k: nat)
    requires a > 0.0 && total > 0.0
    ensures k > count && SumBy(AmountOf, base) + Times(a, k as real) > total
  {
    var atLeast := Times(a, count as real);
    MulNonnegative(a, count as real);
    k := EnoughTimes(total + Abs(SumBy(AmountOf, base)) + atLeast, a);
    MoreTimes(a, count, k);
  }

  lemma SumWithRepeated(base: seq<Record>, r: Record, k: nat)
    ensures SumBy(AmountOf, base + Repeated(r, k)) == SumBy(AmountOf, base) + Times(r.amountUSD, k as real)
  {
    SumByAppend(AmountOf, base, Repeated(r, k));
    SumRepeated(r, k);
  }

  /** Approved at once, more transfers than any count and of more than any amount. */
  lemma RushOverflows(c: Config, negatives: bool, count: nat, total: real) returns (run: seq<Event>, from: int)
    requires ApprovalsReachable(c, negatives) && total > 0.0
    ensures Allowed(run, negatives)
    ensures |InDay(run, c, |run|, from)| > count && SumBy(AmountOf, InDay(run, c, |run|, from)) > total
  {
    var pl := PlanFor(c, negatives);
    var k := EnoughOf(pl.base, pl.amount, count, total);
    run := ManyAtOnce(c, k, pl);
    from := Ready(pl.l, c);
    SumWithRepeated(pl.base, ToSend(pl, c), k);
  }

  lemma MoreTimes(a: real, m: nat, k: nat)
    requires a > 0.0 && Times(a, k as real) > Times(a, m as real)
    ensures k > m
  {
    if k <= m {
      TimesMonotone(k as real, m as real, a);
      TimesCommutes(k as real, a);
      TimesCommutes(m as real, a);
    }
  }

  // ----- Exactly when the count is kept ------------------------------------------------------

  /** In no run allowed does a closed day hold more approved transfers than the daily count. */
  ghost predicate CountKept(c: Config, negatives: bool) {
    forall run: seq<Event>, n: nat, from: int | n <= |run| && Allowed(run, negatives) ::
      WithinCount(InDay(run, c, n, from), c)
  }

  /** Nor do they ever add up to more than the daily amount. */
  ghost predicate AmountKept(c: Config, negatives: bool) {
    forall run: seq<Event>, n: nat, from: int | n <= |run| && Allowed(run, negatives) ::
      WithinAmount(InDay(run, c, n, from), c)
  }

  /** The daily count is kept exactly by the configurations in which no held transfer can come to be approved. */
  lemma CountLimitExactly(c: Config, negatives: bool)
    requires c.maxTransfersPerDay > 0
    ensures CountKept(c, negatives) <==> !ApprovalsReachable(c, negatives)
  {
    if ApprovalsReachable(c, negatives) {
      var run, from := RushOverflows(c, negatives, c.maxTransfersPerDay, 1.0);
      assert !WithinCount(InDay(run, c, |run|, from), c);
    } else {
      forall run: seq<Event>, n: nat, from: int | n <= |run| && Allowed(run, negatives)
        ensures WithinCount(InDay(run, c, n, from), c)
      {
        DailyLimits(run, c, n, from, negatives);
      }
    }
  }

  // ----- The room that negative requests make ------------------------------------------------

  /**
   For entry l, k transfers of amount a that checks approve after a first one of minus `room`, when
   another day has begun.
   */
  datatype Room = Room(l: nat, k: nat, a: real, room: real)

  predicate Roomy(w: Room, c: Config) {
    && Used(w.l, c) && w.a > 0.0 && w.room >= 0.0 && !c.manualApprovalRequired
    && (c.dualApprovalThresholdUSD > 0.0 ==> w.a < c.dualApprovalThresholdUSD)
    && !OverCap(w.a, c.allowlist[w.l].entry, c)
    && (c.maxTransfersPerDay > 0 ==> w.k < c.maxTransfersPerDay)
    && c.maxDailyUSD > 0.0 && Times(w.a, w.k as real) <= w.room + c.maxDailyUSD
  }

  function Opening(w: Room, c: Config): Record
    requires w.l < |c.allowlist|
  {
    Sent(w.l, -w.room, Ready(w.l, c), c)
  }

  function Using(w: Room, c: Config): Record
    requires w.l < |c.allowlist|
  {
    Sent(w.l, w.a, Ready(w.l, c) + 1, c)
  }

  function RoomRun(w: Room, n: nat, c: Config): seq<Event>
    requires w.l < |c.allowlist|
  {
    if n == 0 then [Ask(w.l, "id", -w.room, Ready(w.l, c), c)]
    else RoomRun(w, n - 1, c) + [Ask(w.l, "id", w.a, Ready(w.l, c) + 1, c)]
  }

  function RoomRecords(w: Room, n: nat, c: Config): seq<Record>
    requires w.l < |c.allowlist|
  {
    [Opening(w, c)] + Repeated(Using(w, c), n)
  }

  lemma OneMoreFits(a: real, n: nat, k: nat)
    requires n < k && a > 0.0
    ensures Times(a, n as real) + a <= Times(a, k as real)
  {
    TimesOneMore(a, n);
    TimesMonotone((n + 1) as real, k as real, a);
    TimesCommutes(k as real, a);
    TimesCommutes((n + 1) as real, a);
  }

  lemma SumOfRoom(w: Room, n: nat, c: Config)
    requires Roomy(w, c) && n < w.k
    ensures SumBy(AmountOf, RoomRecords(w, n, c)) + w.a <= c.maxDailyUSD
  {
    var first, others := Opening(w, c), Repeated(Using(w, c), n);
    SumByAppend(AmountOf, [first], others);
    assert SumBy(AmountOf, [first]) == -w.room;
    SumRepeated(Using(w, c), n);
    OneMoreFits(w.a, n, w.k);
  }

  lemma RoomBegins(w: Room, c: Config)
    requires Roomy(w, c)
    ensures AllSent(RoomRun(w, 0, c), RoomRecords(w, 0, c), c)
  {
    assert SumBy(AmountOf, []) == 0.0;
    FirstSent(w.l, -w.room, Ready(w.l, c), c);
    assert RoomRecords(w, 0, c) == [Opening(w, c)];
  }

  lemma RoomPasses(w: Room, n: nat, c: Config)
    requires Roomy(w, c) && n < w.k
    ensures Passes(RoomRecords(w, n, c), w.l, w.a, c)
    ensures Prune(Time, RoomRecords(w, n, c), Ready(w.l, c) + 1 - DAY_MS) == RoomRecords(w, n, c)
  {
    SumOfRoom(w, n, c);
    assert RoomRecords(w, n, c)[0].ts == Ready(w.l, c);
  }

  lemma RecordsGrow(w: Room, n: nat, c: Config)
    requires w.l < |c.allowlist|
    ensures RoomRecords(w, n + 1, c) == RoomRecords(w, n, c) + [Sent(w.l, w.a, Ready(w.l, c) + 1, c)]
  {
    assert Repeated(Using(w, c), n + 1) == Repeated(Using(w, c), n) + [Using(w, c)];
  }

  lemma RoomGrows(w: Room, n: nat, c: Config)
    requires Roomy(w, c) && n < w.k && AllSent(RoomRun(w, n, c), RoomRecords(w, n, c), c)
    ensures AllSent(RoomRun(w, n + 1, c), RoomRecords(w, n + 1, c), c)
  {
    RoomPasses(w, n, c);
    OneMoreSent(RoomRun(w, n, c), RoomRecords(w, n, c), w.l, Ready(w.l, c) + 1, w.a, c);
    RecordsGrow(w, n, c);
  }

  lemma {:induction false} RoomIsUsed(w: Room, n: nat, c: Config)
    requires Roomy(w, c) && n <= w.k
    ensures AllSent(RoomRun(w, n, c), RoomRecords(w, n, c), c)
  {
    if n == 0 {
      RoomBegins(w, c);
    } else {
      RoomIsUsed(w, n - 1, c);
      RoomGrows(w, n - 1, c);
    }
  }

  /** An event of such a run. */
  predicate RoomEvent(e: Event, w: Room, c: Config)
    requires w.l < |c.allowlist|
  {
    Ready(w.l, c) <= e.nowMs <= Ready(w.l, c) + 1 && (e.call.CheckCall? ==> e.call.req.amountUSD in {-w.room, w.a})
  }

  lemma {:induction false} RoomEvents(w: Room, n: nat, c: Config)
    requires w.l < |c.allowlist|
    ensures var run := RoomRun(w, n, c);
            && |run| == n + 1 && InOrder(EventTime, run)
            && (forall i :: 0 <= i < n + 1 ==> RoomEvent(run[i], w, c))
  {
    if n > 0 {
      RoomEvents(w, n - 1, c);
    }
  }

  lemma OnDay(r: Record, from: int)
    ensures Day(from)(r) <==> from <= r.ts <= from + DAY_MS
  {
    assert Time(r) == r.ts;
  }

  /** A day that starts after the first transfer holds the others alone. */
  lemma DayWithoutFirst(first: Record, others: seq<Record>, from: int)
    requires first.ts < from && forall i :: 0 <= i < |others| ==> others[i].ts == from
    ensures Keep(Day(from), [first] + others) == others
  {
    OnDay(first, from);
    forall i | 0 <= i < |others| ensures Day(from)(others[i]) {
      OnDay(others[i], from);
    }
    KeepAppend(Day(from), [first], others);
    KeepNone(Day(from), [first]);
    KeepAll(Day(from), others);
    assert [] + others == others;
  }

  lemma RoomShows(w: Room, c: Config) returns (run: seq<Event>, from: int)
    requires Roomy(w, c)
    ensures InOrder(EventTime, run) && forall i :: 0 <= i < |run| ==> RoomEvent(run[i], w, c)
    ensures SumBy(AmountOf, InDay(run, c, |run|, from)) == Times(w.a, w.k as real)
  {
    run, from := RoomRun(w, w.k, c), Ready(w.l, c) + 1;
    RoomEvents(w, w.k, c);
    RoomIsUsed(w, w.k, c);
    assert ApprovedRecords(run, c, |run|) == RoomRecords(w, w.k, c);
    DayWithoutFirst(Opening(w, c), Repeated(Using(w, c), w.k), from);
    SumRepeated(Using(w, c), w.k);
  }

  lemma Midpoint(total: real, k: nat, cap: real) returns (a: real)
    requires total > 0.0 && k > 0 && cap > 0.0 && Times(cap, k as real) > total
    ensures 0.0 < a < cap && Times(a, k as real) > total
  {
    var n := k as real;
    var part := total / n;
    a := (part + cap) / 2.0;
    assert Times(part, n) == total;
    if part >= cap {
      TimesMonotone(cap, part, n);
    }
    TimesAdds(n, a, a);
    TimesAdds(n, part, cap);
    TimesCommutes(n, a);
    TimesCommutes(n, part);
    TimesCommutes(n, cap);
    assert a + a == part + cap;
    TimesMonotone(part, cap, n);
  }

  /** How many transfers, and of what amount, exceed a daily amount where it is not harmless. */
  lemma RoomFor(l: nat, c: Config) returns (k: nat, a: real)
    requires Used(l, c) && c.maxDailyUSD > 0.0 && !c.manualApprovalRequired && c.maxTransfersPerDay != 1
    requires !(&& c.maxTransfersPerDay > 1 && Capped(c)
               && Times(DirectCap(c.allowlist[l].entry, c), (c.maxTransfersPerDay - 1) as real) <= c.maxDailyUSD)
    ensures Times(a, k as real) > c.maxDailyUSD && Roomy(Room(l, k, a, Times(a, k as real)), c)
  {
    var cap := DirectCap(c.allowlist[l].entry, c);
    if c.maxTransfersPerDay <= 0 {
      a := if Capped(c) then cap / 2.0 else 1.0;
      k := EnoughTimes(c.maxDailyUSD, a);
    } else {
      k := c.maxTransfersPerDay - 1;
      if Capped(c) {
        a := Midpoint(c.maxDailyUSD, k, cap);
      } else {
        a := c.maxDailyUSD + 1.0;
        TimesMonotone(1.0, k as real, a);
        TimesCommutes(k as real, a);
        assert Times(1.0, a) == a;
      }
    }
  }

  lemma RoomOverflows(c: Config) returns (run: seq<Event>, from: int)
    requires !RoomIsHarmless(c) && c.maxDailyUSD > 0.0
    ensures InOrder(EventTime, run) && !WithinAmount(InDay(run, c, |run|, from), c)
  {
    var l :| 0 <= l < |c.allowlist| && Used(l, c) &&
             !(&& c.maxTransfersPerDay > 1 && Capped(c)
               && Times(DirectCap(c.allowlist[l].entry, c), (c.maxTransfersPerDay - 1) as real) <= c.maxDailyUSD);
    var k, a := RoomFor(l, c);
    run, from := RoomShows(Room(l, k, a, Times(a, k as real)), c);
  }

  /**
   The daily amount is kept exactly by the configurations in which no held transfer can come to be
   approved and, where requests may be negative, the room they make is harmless.
   */
  lemma AmountLimitExactly(c: Config, negatives: bool)
    requires c.maxDailyUSD > 0.0
    ensures AmountKept(c, negatives) <==> !ApprovalsReachable(c, negatives) && (negatives ==> RoomIsHarmless(c))
  {
    if ApprovalsReachable(c, negatives) {
      var run, from := RushOverflows(c, negatives, 0, c.maxDailyUSD);
      assert !WithinAmount(InDay(run, c, |run|, from), c);
    } else if negatives && !RoomIsHarmless(c) {
      var run, from := RoomOverflows(c);
      assert !WithinAmount(InDay(run, c, |run|, from), c);
    } else {
      forall run: seq<Event>, n: nat, from: int | n <= |run| && Allowed(run, negatives)
        ensures WithinAmount(InDay(run, c, n, from), c)
      {
        DailyLimits(run, c, n, from, negatives);
      }
    }
  }

  // ----- Requests bounded from below ---------------------------------------------------------

  /** No request is for less than m. */
  predicate RequestsAtLeast(run: seq<Event>, m: real) {
    forall e :: e in run && e.call.CheckCall? ==> e.call.req.amountUSD >= m
  }

  ghost predicate AmountKeptAbove(c: Config, m: real) {
    forall run: seq<Event>, n: nat, from: int | n <= |run| && InOrder(EventTime, run) && RequestsAtLeast(run, m) ::
      WithinAmount(InDay(run, c, n, from), c)
  }

  predicate OnlyAmountLimited(c: Config) {
    GatesOff(c) && c.maxDailyUSD > 0.0 && c.maxPerTransferUSD <= 0.0 && c.maxTransfersPerDay <= 0
  }

  /** A negative amount, however small, makes room for one over the limit. */
  lemma RoomFromNegative(c: Config, m: real) returns (run: seq<Event>, from: int)
    requires OnlyAmountLimited(c) && m < 0.0 && c.allowlist != []
    ensures InOrder(EventTime, run) && RequestsAtLeast(run, m) && !WithinAmount(InDay(run, c, |run|, from), c)
  {
    var w := Room(0, 1, c.maxDailyUSD - m, -m);
    assert Times(w.a, 1.0) == w.a;
    run, from := RoomShows(w, c);
    forall e | e in run && e.call.CheckCall? ensures e.call.req.amountUSD >= m {
      var i :| 0 <= i < |run| && run[i] == e;
      assert RoomEvent(run[i], w, c);
    }
  }

  /**
   With the daily amount as the only limit, it is kept exactly when no negative amounts are asked for,
   or nothing is listed.
   */
  lemma AmountLimitNeedsNonnegative(c: Config, m: real)
    requires OnlyAmountLimited(c)
    ensures AmountKeptAbove(c, m) <==> m >= 0.0 || c.allowlist == []
  {
    if m < 0.0 && c.allowlist != [] {
      var run, from := RoomFromNegative(c, m);
      assert !WithinAmount(InDay(run, c, |run|, from), c);
    } else {
      forall run: seq<Event>, n: nat, from: int | n <= |run| && InOrder(EventTime, run) && RequestsAtLeast(run, m)
        ensures WithinAmount(InDay(run, c, n, from), c)
      {
        DailyLimits(run, c, n, from, c.allowlist == []);
      }
    }
  }
}
