/**
 The transfer policy: the gates every withdrawal passes, the rolling daily limits, and the approvals
 that large or manual transfers wait for.

 The clock and the tamper check are inputs of a check.
 */
module TransferPolicy {
  import opened Sums
  import opened SlidingWindow
  import opened TransferScreen

  const DAY_MS := 24 * HOUR_MS

  datatype Decision = Decision(requestID: string, outcome: Outcome, approvalsNeeded: nat, approvalsHave: nat)

  datatype Record = Record(toAddress: string, amountUSD: real, ts: int)

  datatype Approval = Approval(approvedBy: string, approvedAt: int)

  datatype PendingTransfer = PendingTransfer(request: Request, needed: nat, approvals: seq<Approval>,
                                             createdAt: int, expiresAt: int)

  datatype State = State(history: seq<Record>, pending: map<string, PendingTransfer>)

  function Time(r: Record): int {
    r.ts
  }

  function AmountOf(r: Record): real {
    r.amountUSD
  }

  // ----- Check -------------------------------------------------------------------------------

  /** The rolling limits, on a history already pruned. */
  function Velocity(history: seq<Record>, amount: real, c: Config): (denied: Outcome)
    ensures denied.Approved? || denied.Denied?
  {
    if c.maxTransfersPerDay > 0 && |history| >= c.maxTransfersPerDay then Denied(DailyCountExceeded)
    else if c.maxDailyUSD > 0.0 && SumBy(AmountOf, history) + amount > c.maxDailyUSD then Denied(DailyNotionalExceeded)
    else Approved
  }

  /** How many sign-offs a transfer waits for. */
  function ApprovalsFor(amount: real, c: Config): nat {
    if c.dualApprovalThresholdUSD > 0.0 && amount >= c.dualApprovalThresholdUSD then 2
    else if c.manualApprovalRequired then 1
    else 0
  }

  function ExpiryMs(c: Config): int {
    (if c.approvalExpiryH == 0 then 24 else c.approvalExpiryH) * HOUR_MS
  }

  function NewPending(nowMs: int, req: Request, c: Config): PendingTransfer {
    PendingTransfer(req, ApprovalsFor(req.amountUSD, c), [], nowMs, nowMs + ExpiryMs(c))
  }

  function Check(s: State, nowMs: int, req: Request, tampered: bool, c: Config): (State, Decision) {
    var screened := Screen(nowMs, req, tampered, c);
    if screened.Denied? then (s, Decision(req.id, screened, 0, 0))
    else
      var history := Prune(Time, s.history, nowMs - DAY_MS);
      var velocity := Velocity(history, req.amountUSD, c);
      var needed := ApprovalsFor(req.amountUSD, c);
      if velocity.Denied? then (s.(history := history), Decision(req.id, velocity, 0, 0))
      else if needed > 0 then
        (State(history, s.pending[req.id := NewPending(nowMs, req, c)]), Decision(req.id, Pending, needed, 0))
      else
        (s.(history := history + [Record(req.toAddress, req.amountUSD, nowMs)]), Decision(req.id, Approved, 0, 0))
  }

  // ----- Approve, DenyPending, ListPending ---------------------------------------------------

  predicate HasSigned(approvals: seq<Approval>, by_: string) {
    exists k :: 0 <= k < |approvals| && approvals[k].approvedBy == by_
  }

  function Approve(s: State, nowMs: int, requestID: string, by_: string): (State, Decision) {
    if requestID !in s.pending then (s, Decision(requestID, Denied(NotFound), 0, 0))
    else
      var pt := s.pending[requestID];
      if nowMs > pt.expiresAt then
        (s.(pending := s.pending - {requestID}), Decision(requestID, Denied(Expired), 0, 0))
      else if HasSigned(pt.approvals, by_) then (s, Decision(requestID, StillPending(DuplicateApprover), 0, 0))
      else if pt.request.requestedBy == by_ then (s, Decision(requestID, StillPending(SelfApproval), 0, 0))
      else
        var approvals := pt.approvals + [Approval(by_, nowMs)];
        if |approvals| >= pt.needed then
          (State(s.history + [Record(pt.request.toAddress, pt.request.amountUSD, nowMs)], s.pending - {requestID}),
           Decision(requestID, Approved, pt.needed, |approvals|))
        else
          (s.(pending := s.pending[requestID := pt.(approvals := approvals)]),
           Decision(requestID, Pending, pt.needed, |approvals|))
  }

  function DenyPending(s: State, requestID: string): (State, Decision) {
    if requestID !in s.pending then (s, Decision(requestID, Denied(NotFound), 0, 0))
    else (s.(pending := s.pending - {requestID}), Decision(requestID, Denied(OperatorDenied), 0, 0))
  }

  function ListPending(s: State, nowMs: int): State {
    s.(pending := map id | id in s.pending && nowMs <= s.pending[id].expiresAt :: s.pending[id])
  }

  // ----- The engine --------------------------------------------------------------------------

  class Engine {
    const cfg: Config
    var history: seq<Record>
    var pending: map<string, PendingTransfer>

    constructor (cfg: Config)
      ensures this.cfg == cfg && Value() == State([], map[])
    {
      this.cfg := cfg;
      history, pending := [], map[];
    }

    function Value(): State
      reads this
    {
      State(history, pending)
    }

    method DailyTotal() returns (total: real)
      ensures total == SumBy(AmountOf, history)
    {
      total := 0.0;
      for i := 0 to |history|
        invariant total == SumBy(AmountOf, history[..i])
      {
        assert history[..i + 1][..i] == history[..i];
        total := total + history[i].amountUSD;
      }
      assert history[..|history|] == history;
    }

    method CheckTransfer(nowMs: int, req: Request, tampered: bool) returns (d: Decision)
      modifies this
      ensures (Value(), d) == Check(old(Value()), nowMs, req, tampered, cfg)
    {
      var screened := ScreenTransfer(nowMs, req, tampered, cfg);
      if screened.Denied? {
        return Decision(req.id, screened, 0, 0);
      }
      history := PruneOlderThan(Time, history, nowMs - DAY_MS);
      if cfg.maxTransfersPerDay > 0 && |history| >= cfg.maxTransfersPerDay {
        return Decision(req.id, Denied(DailyCountExceeded), 0, 0);
      }
      var dailyTotal := DailyTotal();
      if cfg.maxDailyUSD > 0.0 && dailyTotal + req.amountUSD > cfg.maxDailyUSD {
        return Decision(req.id, Denied(DailyNotionalExceeded), 0, 0);
      }
      var needed := ApprovalsFor(req.amountUSD, cfg);
      if needed > 0 {
        pending := pending[req.id := NewPending(nowMs, req, cfg)];
        return Decision(req.id, Pending, needed, 0);
      }
      history := history + [Record(req.toAddress, req.amountUSD, nowMs)];
      return Decision(req.id, Approved, 0, 0);
    }

    method ApproveTransfer(nowMs: int, requestID: string, approvedBy: string) returns (d: Decision)
      modifies this
      ensures (Value(), d) == Approve(old(Value()), nowMs, requestID, approvedBy)
    {
      if requestID !in pending {
        return Decision(requestID, Denied(NotFound), 0, 0);
      }
      var pt := pending[requestID];
      if nowMs > pt.expiresAt {
        pending := pending - {requestID};
        return Decision(requestID, Denied(Expired), 0, 0);
      }
      for i := 0 to |pt.approvals|
        invariant forall k :: 0 <= k < i ==> pt.approvals[k].approvedBy != approvedBy
        invariant Value() == old(Value())
      {
        if pt.approvals[i].approvedBy == approvedBy {
          return Decision(requestID, StillPending(DuplicateApprover), 0, 0);
        }
      }
      if pt.request.requestedBy == approvedBy {
        return Decision(requestID, StillPending(SelfApproval), 0, 0);
      }
      pt := pt.(approvals := pt.approvals + [Approval(approvedBy, nowMs)]);
      if |pt.approvals| >= pt.needed {
        history := history + [Record(pt.request.toAddress, pt.request.amountUSD, nowMs)];
        pending := pending - {requestID};
        return Decision(requestID, Approved, pt.needed, |pt.approvals|);
      }
      pending := pending[requestID := pt];
      return Decision(requestID, Pending, pt.needed, |pt.approvals|);
    }

    method DenyPendingTransfer(requestID: string) returns (d: Decision)
      modifies this
      ensures (Value(), d) == DenyPending(old(Value()), requestID)
    {
      if requestID !in pending {
        return Decision(requestID, Denied(NotFound), 0, 0);
      }
      pending := pending - {requestID};
      return Decision(requestID, Denied(OperatorDenied), 0, 0);
    }

    /** The transfers still in time, in the order in which the map gives its keys; the others are dropped. */
    method ListPendingTransfers(nowMs: int, ids: seq<string>) returns (listed: seq<PendingTransfer>)
      requires (forall id :: id in ids <==> id in pending) && forall i, j :: 0 <= i < j < |ids| ==> ids[i] != ids[j]
      modifies this
      ensures Value() == ListPending(old(Value()), nowMs)
      ensures listed == InTime(old(pending), ids, nowMs)
    {
      DroppedAre(pending, ids, nowMs);
      pending, listed := DropExpired(pending, ids, nowMs);
    }
  }

  function InTime(pending: map<string, PendingTransfer>, ids: seq<string>, nowMs: int): seq<PendingTransfer>
    requires forall id :: id in ids ==> id in pending
  {
    if ids == [] then []
    else
      var id := ids[|ids| - 1];
      InTime(pending, ids[..|ids| - 1], nowMs) + if nowMs > pending[id].expiresAt then [] else [pending[id]]
  }

  function Dropped(pending: map<string, PendingTransfer>, ids: seq<string>, nowMs: int): map<string, PendingTransfer>
    requires forall id :: id in ids ==> id in pending
  {
    if ids == [] then pending
    else
      var id := ids[|ids| - 1];
      var rest := Dropped(pending, ids[..|ids| - 1], nowMs);
      if nowMs > pending[id].expiresAt then rest - {id} else rest
  }

  lemma {:induction false} DroppedAt(pending: map<string, PendingTransfer>, ids: seq<string>, nowMs: int, id: string)
    requires forall id :: id in ids ==> id in pending
    ensures id in Dropped(pending, ids, nowMs) <==> id in pending && (id in ids ==> nowMs <= pending[id].expiresAt)
    ensures id in Dropped(pending, ids, nowMs) ==> Dropped(pending, ids, nowMs)[id] == pending[id]
  {
    if ids != [] {
      var front := ids[..|ids| - 1];
      DroppedAt(pending, front, nowMs, id);
      assert ids == front + [ids[|ids| - 1]];
    }
  }

  lemma DroppedAre(pending: map<string, PendingTransfer>, ids: seq<string>, nowMs: int)
    requires forall id :: id in ids <==> id in pending
    ensures Dropped(pending, ids, nowMs) == map id | id in pending && nowMs <= pending[id].expiresAt :: pending[id]
  {
    forall id: string
      ensures id in Dropped(pending, ids, nowMs) <==> id in pending && nowMs <= pending[id].expiresAt
      ensures id in Dropped(pending, ids, nowMs) ==> Dropped(pending, ids, nowMs)[id] == pending[id]
    {
      DroppedAt(pending, ids, nowMs, id);
    }
  }

  method DropExpired(pending: map<string, PendingTransfer>, ids: seq<string>, nowMs: int)
      returns (kept: map<string, PendingTransfer>, listed: seq<PendingTransfer>)
    requires forall id :: id in ids ==> id in pending
    ensures kept == Dropped(pending, ids, nowMs) && listed == InTime(pending, ids, nowMs)
  {
    kept, listed := pending, [];
    for i := 0 to |ids|
      invariant kept == Dropped(pending, ids[..i], nowMs) && listed == InTime(pending, ids[..i], nowMs)
    {
      assert ids[..i + 1][..i] == ids[..i];
      if nowMs > pending[ids[i]].expiresAt {
        kept := kept - {ids[i]};
      } else {
        listed := listed + [pending[ids[i]]];
      }
    }
    assert ids[..|ids|] == ids;
  }

  // ----- Runs --------------------------------------------------------------------------------

  datatype Call = CheckCall(req: Request, tampered: bool) | ApproveCall(id: string, signer: string)
                | DenyCall(id: string) | ListCall

  datatype Event = Event(nowMs: int, call: Call)

  function EventTime(e: Event): int {
    e.nowMs
  }

  function Apply(s: State, e: Event, c: Config): (State, Outcome) {
    match e.call
    case CheckCall(req, tampered) => var (s', d) := Check(s, e.nowMs, req, tampered, c); (s', d.outcome)
    case ApproveCall(id, signer) => var (s', d) := Approve(s, e.nowMs, id, signer); (s', d.outcome)
    case DenyCall(id) => var (s', d) := DenyPending(s, id); (s', d.outcome)
    case ListCall => (ListPending(s, e.nowMs), Pending)
  }

  function StateAt(run: seq<Event>, c: Config, n: nat): State
    requires n <= |run|
  {
    if n == 0 then State([], map[]) else Apply(StateAt(run, c, n - 1), run[n - 1], c).0
  }

  function OutcomeAt(run: seq<Event>, c: Config, n: nat): Outcome
    requires n < |run|
  {
    Apply(StateAt(run, c, n), run[n], c).1
  }

  // ----- Approvals ---------------------------------------------------------------------------

  /** Between the check at m and step n of the run, the signer approved the transfer with that id in time. */
  ghost predicate SignedIn(run: seq<Event>, m: nat, n: nat, id: string, signer: string, expiresAt: int) {
    exists k :: m < k < n && k < |run| && run[k].call == ApproveCall(id, signer) && run[k].nowMs <= expiresAt
  }

  /** The pending transfer was asked for at m, and has been signed since by others, each once, but by too few. */
  ghost predicate PendingSince(run: seq<Event>, c: Config, n: nat, id: string, pt: PendingTransfer, m: nat) {
    && m < n <= |run|
    && run[m].call.CheckCall? && run[m].call.req == pt.request && pt.request.id == id
    && Screen(run[m].nowMs, pt.request, run[m].call.tampered, c).Approved?
    && pt.needed == ApprovalsFor(pt.request.amountUSD, c)
    && pt.expiresAt == run[m].nowMs + ExpiryMs(c)
    && |pt.approvals| < pt.needed
    && (forall i, j :: 0 <= i < j < |pt.approvals| ==> pt.approvals[i].approvedBy != pt.approvals[j].approvedBy)
    && (forall i :: 0 <= i < |pt.approvals| ==> pt.approvals[i].approvedBy != pt.request.requestedBy)
    && (forall i :: 0 <= i < |pt.approvals| ==> SignedIn(run, m, n, id, pt.approvals[i].approvedBy, pt.expiresAt))
  }

  ghost predicate PendingSound(run: seq<Event>, c: Config, n: nat, id: string, pt: PendingTransfer) {
    exists m :: PendingSince(run, c, n, id, pt, m)
  }

  ghost predicate AllPendingSound(run: seq<Event>, c: Config, n: nat)
    requires n <= |run|
  {
    var s := StateAt(run, c, n);
    forall id :: id in s.pending ==> PendingSound(run, c, n, id, s.pending[id])
  }

  lemma PendingLater(run: seq<Event>, c: Config, n: nat, id: string, pt: PendingTransfer, m: nat)
    requires n < |run| && PendingSince(run, c, n, id, pt, m)
    ensures PendingSince(run, c, n + 1, id, pt, m)
  {
    forall i | 0 <= i < |pt.approvals| ensures SignedIn(run, m, n + 1, id, pt.approvals[i].approvedBy, pt.expiresAt) {
      var k :| m < k < n && k < |run| && run[k].call == ApproveCall(id, pt.approvals[i].approvedBy) &&
          run[k].nowMs <= pt.expiresAt;
    }
  }

  lemma OneMoreSigner(run: seq<Event>, c: Config, n: nat, id: string, signer: string, pt: PendingTransfer, m: nat)
    requires n < |run| && PendingSince(run, c, n, id, pt, m)
    requires run[n].call == ApproveCall(id, signer) && run[n].nowMs <= pt.expiresAt
    requires !HasSigned(pt.approvals, signer) && pt.request.requestedBy != signer && |pt.approvals| + 1 < pt.needed
    ensures PendingSince(run, c, n + 1, id, pt.(approvals := pt.approvals + [Approval(signer, run[n].nowMs)]), m)
  {
    PendingLater(run, c, n, id, pt, m);
    assert SignedIn(run, m, n + 1, id, signer, pt.expiresAt);
  }

  lemma PendingStaysSound(run: seq<Event>, c: Config, n: nat)
    requires n < |run| && AllPendingSound(run, c, n)
    ensures AllPendingSound(run, c, n + 1)
  {
    var s, s' := StateAt(run, c, n), StateAt(run, c, n + 1);
    forall id | id in s'.pending ensures PendingSound(run, c, n + 1, id, s'.pending[id]) {
      if id in s.pending && s'.pending[id] == s.pending[id] {
        var m :| PendingSince(run, c, n, id, s.pending[id], m);
        PendingLater(run, c, n, id, s.pending[id], m);
      } else if run[n].call.CheckCall? {
        assert PendingSince(run, c, n + 1, id, s'.pending[id], n);
      } else {
        var m :| PendingSince(run, c, n, id, s.pending[id], m);
        OneMoreSigner(run, c, n, id, run[n].call.signer, s.pending[id], m);
      }
    }
  }

  lemma {:induction false} PendingAlwaysSound(run: seq<Event>, c: Config, n: nat)
    requires n <= |run|
    ensures AllPendingSound(run, c, n)
  {
    if n > 0 {
      PendingAlwaysSound(run, c, n - 1);
      PendingStaysSound(run, c, n - 1);
    }
  }

  /**
   Every transfer that Approve approves was asked for by a check, and has been signed after it by as
   many operators as it needs, no two the same, none of them the requester, and all in time.
   */
  lemma ApprovedBySigners(run: seq<Event>, c: Config, n: nat) returns (m: nat, signers: seq<string>)
    requires n < |run| && run[n].call.ApproveCall? && OutcomeAt(run, c, n) == Approved
    ensures m < n && run[m].call.CheckCall? && run[m].call.req.id == run[n].call.id
    ensures Screen(run[m].nowMs, run[m].call.req, run[m].call.tampered, c).Approved?
    ensures Booked(StateAt(run, c, n), run[n], c) ==
              [Record(run[m].call.req.toAddress, run[m].call.req.amountUSD, run[n].nowMs)]
    ensures |signers| == ApprovalsFor(run[m].call.req.amountUSD, c) > 0
    ensures forall i, j :: 0 <= i < j < |signers| ==> signers[i] != signers[j]
    ensures forall i :: 0 <= i < |signers| ==>
              && signers[i] != run[m].call.req.requestedBy
              && SignedIn(run, m, n + 1, run[n].call.id, signers[i], run[m].nowMs + ExpiryMs(c))
  {
    PendingAlwaysSound(run, c, n);
    var id, by_ := run[n].call.id, run[n].call.signer;
    var pt := StateAt(run, c, n).pending[id];
    m :| PendingSince(run, c, n, id, pt, m);
    PendingLater(run, c, n, id, pt, m);
    assert SignedIn(run, m, n + 1, id, by_, pt.expiresAt);
    signers := seq(|pt.approvals|, i requires 0 <= i < |pt.approvals| => pt.approvals[i].approvedBy) + [by_];
  }

  // ----- The history -------------------------------------------------------------------------

  /** What the event adds to the history: the transfer it approves, if it approves one. */
  function Booked(s: State, e: Event, c: Config): seq<Record> {
    if !Apply(s, e, c).1.Approved? then []
    else if e.call.CheckCall? then [Record(e.call.req.toAddress, e.call.req.amountUSD, e.nowMs)]
    else
      var req := s.pending[e.call.id].request;
      [Record(req.toAddress, req.amountUSD, e.nowMs)]
  }

  /**
   Every transfer approved, at once or after signatures, is for the address and the amount of a check
   that found the configuration untouched, and at which the configuration blocked no region of the
   transfer, listed its address and asset, and had the amount within the cap and the address past the
   cooloff of the first entry that lists them.
   */
  lemma EveryTransferScreened(run: seq<Event>, c: Config, n: nat) returns (m: nat, k: nat)
    requires n < |run| && OutcomeAt(run, c, n).Approved?
    ensures m <= n && run[m].call.CheckCall?
    ensures var (e, req) := (run[m], run[m].call.req);
            && Booked(StateAt(run, c, n), run[n], c) == [Record(req.toAddress, req.amountUSD, run[n].nowMs)]
            && !e.call.tampered && !RegionBlocked(req, c) && ListsFirst(c.allowlist, k, req, c)
            && !OverCap(req.amountUSD, c.allowlist[k].entry, c)
            && !InCooloff(c.allowlist[k].entry, e.nowMs, c)
  {
    if run[n].call.CheckCall? {
      m := n;
    } else {
      var signers;
      m, signers := ApprovedBySigners(run, c, n);
    }
    k := FoundIsFirst(c.allowlist, run[m].call.req, c);
    FirstIsFound(c.allowlist, k, run[m].call.req, c);
  }

  /** Every transfer approved in the first n events. */
  function ApprovedRecords(run: seq<Event>, c: Config, n: nat): seq<Record>
    requires n <= |run|
  {
    if n == 0 then [] else ApprovedRecords(run, c, n - 1) + Booked(StateAt(run, c, n - 1), run[n - 1], c)
  }

  /** Does the event prune the history? */
  predicate Prunes(e: Event, c: Config) {
    e.call.CheckCall? && Screen(e.nowMs, e.call.req, e.call.tampered, c).Approved?
  }

  /** The cutoff of the last pruning. */
  function NextCut(cut: int, e: Event, c: Config): int {
    if Prunes(e, c) then e.nowMs - DAY_MS else cut
  }

  function CutAt(run: seq<Event>, c: Config, n: nat): int
    requires n <= |run| && run != []
  {
    if n == 0 then run[0].nowMs - DAY_MS else NextCut(CutAt(run, c, n - 1), run[n - 1], c)
  }

  function Kept(history: seq<Record>, e: Event, c: Config): seq<Record> {
    if Prunes(e, c) then Prune(Time, history, e.nowMs - DAY_MS) else history
  }

  lemma HistoryMoves(s: State, e: Event, c: Config)
    ensures Apply(s, e, c).0.history == Kept(s.history, e, c) + Booked(s, e, c)
    ensures |Booked(s, e, c)| <= 1
    ensures Booked(s, e, c) != [] ==> Booked(s, e, c)[0].ts == e.nowMs
  {
    assert s.history + [] == s.history;
  }

  function LastTime(run: seq<Event>, n: nat): int
    requires n <= |run| && run != []
  {
    if n == 0 then run[0].nowMs else run[n - 1].nowMs
  }

  lemma LastTimeFirst(run: seq<Event>, n: nat)
    requires n < |run| && InOrder(EventTime, run)
    ensures LastTime(run, n) <= run[n].nowMs
  {
    assert n > 0 ==> EventTime(run[n - 1]) <= EventTime(run[n]);
  }

  /** The history is what all approvals ever given hold since the last pruning. */
  ghost predicate HistoryTrue(history: seq<Record>, full: seq<Record>, cut: int, lastMs: int) {
    && InOrder(Time, full) && Follows(Time, full, lastMs) && cut <= lastMs - DAY_MS
    && history == Recent(Time, full, cut)
  }

  lemma HistoryPruned(history: seq<Record>, full: seq<Record>, cut: int, lastMs: int, nowMs: int)
    requires HistoryTrue(history, full, cut, lastMs) && lastMs <= nowMs
    ensures Prune(Time, history, nowMs - DAY_MS) == Recent(Time, full, nowMs - DAY_MS)
    ensures HistoryTrue(Prune(Time, history, nowMs - DAY_MS), full, nowMs - DAY_MS, nowMs)
    ensures HistoryTrue(history, full, cut, nowMs)
  {
    PrunedHistory(Time, full, history, cut, nowMs - DAY_MS);
    FollowsLater(Time, full, lastMs, nowMs);
  }

  lemma HistoryExtended(history: seq<Record>, full: seq<Record>, cut: int, more: seq<Record>, nowMs: int)
    requires HistoryTrue(history, full, cut, nowMs)
    requires |more| <= 1 && (more != [] ==> more[0].ts == nowMs)
    ensures HistoryTrue(history + more, full + more, cut, nowMs)
  {
    if more == [] {
      assert history + more == history && full + more == full;
    } else {
      var r := more[0];
      assert more == [r];
      AppendInOrder(Time, full, r);
      KeepMore(NotBefore(Time, cut), full, r);
    }
  }

  lemma HistoryStep(s: State, e: Event, c: Config, full: seq<Record>, cut: int, lastMs: int)
    requires HistoryTrue(s.history, full, cut, lastMs) && lastMs <= e.nowMs
    ensures HistoryTrue(Apply(s, e, c).0.history, full + Booked(s, e, c), NextCut(cut, e, c), e.nowMs)
  {
    var kept, more, cut' := Kept(s.history, e, c), Booked(s, e, c), NextCut(cut, e, c);
    HistoryMoves(s, e, c);
    HistoryPruned(s.history, full, cut, lastMs, e.nowMs);
    HistoryExtended(kept, full, cut', more, e.nowMs);
  }

  lemma HistoryStarts(nowMs: int)
    ensures HistoryTrue([], [], nowMs - DAY_MS, nowMs)
  {
  }

  ghost predicate HistoryTrueAt(run: seq<Event>, c: Config, n: nat)
    requires n <= |run| && run != []
  {
    HistoryTrue(StateAt(run, c, n).history, ApprovedRecords(run, c, n), CutAt(run, c, n), LastTime(run, n))
  }

  lemma HistoryNext(run: seq<Event>, c: Config, n: nat)
    requires n < |run| && InOrder(EventTime, run) && HistoryTrueAt(run, c, n)
    ensures HistoryTrueAt(run, c, n + 1)
  {
    LastTimeFirst(run, n);
    HistoryStep(StateAt(run, c, n), run[n], c, ApprovedRecords(run, c, n), CutAt(run, c, n), LastTime(run, n));
  }

  lemma {:induction false} HistoryAlwaysTrue(run: seq<Event>, c: Config, n: nat)
    requires n <= |run| && run != [] && InOrder(EventTime, run)
    ensures HistoryTrueAt(run, c, n)
  {
    if n == 0 {
      HistoryStarts(run[0].nowMs);
    } else {
      HistoryAlwaysTrue(run, c, n - 1);
      HistoryNext(run, c, n - 1);
    }
  }
}
