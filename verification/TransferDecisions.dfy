/**
 What the transfer policy answers, said of a whole run: exactly which checks approve and which hold,
 how many operators must sign and until when, that enough signatures release a transfer, and that a
 denied one stays denied.
 */
module TransferDecisions {
  import opened SlidingWindow
  import opened Sums
  import opened TransferPolicy
  import opened TransferScreen

  // ----- The screening, condition by condition -----------------------------------------------

  /** Entry i is the last one for the venue. */
  predicate LastFor(regions: seq<VenueRegion>, i: int, venue: string, c: Config) {
    && 0 <= i < |regions| && SameText(regions[i].venue, venue, c)
    && forall j :: i < j < |regions| ==> !SameText(regions[j].venue, venue, c)
  }

  lemma {:induction false} RegionOfIsLast(regions: seq<VenueRegion>, venue: string, c: Config)
    ensures var r := RegionOf(regions, venue, c);
            && (r.NoRegion? ==> forall i :: !LastFor(regions, i, venue, c))
            && (r.InRegion? ==> exists i :: LastFor(regions, i, venue, c))
            && (forall i :: LastFor(regions, i, venue, c) ==> r == InRegion(regions[i]))
  {
    if regions != [] {
      var n := |regions| - 1;
      RegionOfIsLast(regions[..n], venue, c);
      if SameText(regions[n].venue, venue, c) {
        assert LastFor(regions, n, venue, c);
      } else {
        forall i ensures LastFor(regions, i, venue, c) <==> LastFor(regions[..n], i, venue, c) {
        }
      }
    }
  }

  predicate BlocksAt(regions: seq<VenueRegion>, i: int, region: string, c: Config) {
    0 <= i < |regions| && exists k :: 0 <= k < |regions[i].blocked| && SameText(regions[i].blocked[k], region, c)
  }

  /**
   The region rules: the last entry of either venue blocks the requester's region, or that of the
   destination blocks the region of that of the source.
   */
  lemma RegionBlockedExactly(req: Request, c: Config)
    ensures var rs := c.venueRegions;
            RegionBlocked(req, c) <==>
              || (req.region != "" && exists i :: LastFor(rs, i, req.fromVenue, c) && BlocksAt(rs, i, req.region, c))
              || (req.region != "" && exists i :: LastFor(rs, i, req.toVenue, c) && BlocksAt(rs, i, req.region, c))
              || (exists i, j :: LastFor(rs, i, req.fromVenue, c) && LastFor(rs, j, req.toVenue, c) &&
                    BlocksAt(rs, j, rs[i].region, c))
  {
    RegionOfIsLast(c.venueRegions, req.fromVenue, c);
    RegionOfIsLast(c.venueRegions, req.toVenue, c);
  }

  function Folded(s: string, c: Config): (r: string)
    ensures |r| == |s|
  {
    seq(|s|, i requires 0 <= i < |s| => c.fold(s[i]))
  }

  lemma SameTextIs(a: string, b: string, c: Config)
    ensures SameText(a, b, c) <==> Folded(a, c) == Folded(b, c)
  {
    if Folded(a, c) == Folded(b, c) {
      forall i | 0 <= i < |a| ensures c.fold(a[i]) == c.fold(b[i]) {
        assert Folded(a, c)[i] == Folded(b, c)[i];
      }
    }
  }

  lemma SameTextAgrees(s: string, a: string, b: string, c: Config)
    requires Folded(a, c) == Folded(b, c)
    ensures SameText(s, a, c) <==> SameText(s, b, c)
  {
    SameTextIs(s, a, c);
    SameTextIs(s, b, c);
  }

  lemma {:induction false} RegionOfAgrees(regions: seq<VenueRegion>, a: string, b: string, c: Config)
    requires Folded(a, c) == Folded(b, c)
    ensures RegionOf(regions, a, c) == RegionOf(regions, b, c)
  {
    if regions != [] {
      SameTextAgrees(regions[|regions| - 1].venue, a, b, c);
      RegionOfAgrees(regions[..|regions| - 1], a, b, c);
    }
  }

  lemma BlocksAgrees(v: VenueRegion, a: string, b: string, c: Config)
    requires Folded(a, c) == Folded(b, c)
    ensures Blocks(v, a, c) <==> Blocks(v, b, c)
  {
    forall k | 0 <= k < |v.blocked| ensures SameText(v.blocked[k], a, c) <==> SameText(v.blocked[k], b, c) {
      SameTextAgrees(v.blocked[k], a, b, c);
    }
  }

  /** Two requests that differ in case only, or in what is not screened. */
  predicate SameButForCase(a: Request, b: Request, c: Config) {
    && a.amountUSD == b.amountUSD
    && Folded(a.toAddress, c) == Folded(b.toAddress, c) && Folded(a.asset, c) == Folded(b.asset, c)
    && Folded(a.fromVenue, c) == Folded(b.fromVenue, c) && Folded(a.toVenue, c) == Folded(b.toVenue, c)
    && Folded(a.region, c) == Folded(b.region, c)
  }

  lemma {:induction false} LookUpAgrees(allowlist: seq<Listing>, a: Request, b: Request, c: Config)
    requires SameButForCase(a, b, c)
    ensures LookUp(allowlist, a, c) == LookUp(allowlist, b, c)
  {
    if allowlist != [] {
      SameTextAgrees(allowlist[0].address, a.toAddress, b.toAddress, c);
      SameTextAgrees(allowlist[0].asset, a.asset, b.asset, c);
      LookUpAgrees(allowlist[1..], a, b, c);
    }
  }

  lemma RegionBlockedAgrees(a: Request, b: Request, c: Config)
    requires SameButForCase(a, b, c)
    ensures RegionBlocked(a, c) <==> RegionBlocked(b, c)
  {
    RegionOfAgrees(c.venueRegions, a.fromVenue, b.fromVenue, c);
    RegionOfAgrees(c.venueRegions, a.toVenue, b.toVenue, c);
    var from, to := RegionOf(c.venueRegions, a.fromVenue, c), RegionOf(c.venueRegions, a.toVenue, c);
    assert a.region == "" <==> |Folded(a.region, c)| == 0;
    assert b.region == "" <==> |Folded(b.region, c)| == 0;
    if from.InRegion? {
      BlocksAgrees(from.at, a.region, b.region, c);
    }
    if to.InRegion? {
      BlocksAgrees(to.at, a.region, b.region, c);
    }
  }

  /** They are screened alike. */
  lemma CaseDoesNotMatter(nowMs: int, a: Request, b: Request, tampered: bool, c: Config)
    requires SameButForCase(a, b, c)
    ensures Screen(nowMs, a, tampered, c) == Screen(nowMs, b, tampered, c)
  {
    RegionBlockedAgrees(a, b, c);
    LookUpAgrees(c.allowlist, a, b, c);
  }

  /** Entry k is the first to list the request, its cap and the global one allow the amount, and its cooloff is over. */
  ghost predicate ClearedBy(k: int, req: Request, nowMs: int, c: Config) {
    && ListsFirst(c.allowlist, k, req, c)
    && var entry := c.allowlist[k].entry;
       && (c.maxPerTransferUSD > 0.0 ==> req.amountUSD <= c.maxPerTransferUSD)
       && (0.0 < entry.maxPerTxUSD < c.maxPerTransferUSD ==> req.amountUSD <= entry.maxPerTxUSD)
       && (c.newAddressCooloffH > 0 && entry.addedAt.At? ==>
             nowMs >= entry.addedAt.ms + c.newAddressCooloffH * 3_600_000)
  }

  ghost predicate Cleared(req: Request, nowMs: int, tampered: bool, c: Config) {
    !tampered && !RegionBlocked(req, c) && exists k :: ClearedBy(k, req, nowMs, c)
  }

  lemma ScreenExactly(nowMs: int, req: Request, tampered: bool, c: Config)
    ensures Screen(nowMs, req, tampered, c).Approved? <==> Cleared(req, nowMs, tampered, c)
  {
    if LookUp(c.allowlist, req, c).Listed? {
      var k := FoundIsFirst(c.allowlist, req, c);
      FirstIsFound(c.allowlist, k, req, c);
      if Screen(nowMs, req, tampered, c).Approved? {
        assert ClearedBy(k, req, nowMs, c);
      }
    }
    if k :| ClearedBy(k, req, nowMs, c) {
      FirstIsFound(c.allowlist, k, req, c);
    }
  }

  /** A refusal names the first gate that fails. */
  lemma RefusalExplained(nowMs: int, req: Request, tampered: bool, c: Config)
    ensures var screened := Screen(nowMs, req, tampered, c);
            && (screened == Denied(ConfigTampered) <==> tampered)
            && (screened == Denied(BlockedRegion) <==> !tampered && RegionBlocked(req, c))
            && (screened == Denied(AddressNotAllowlisted) <==>
                && !tampered && !RegionBlocked(req, c)
                && forall k :: 0 <= k < |c.allowlist| ==> !Lists(c.allowlist[k], req, c))
            && (screened.Denied? ==> screened.code in {ConfigTampered, BlockedRegion, AddressNotAllowlisted,
                                                       ExceedsPerTxCap, NewAddressCooloff})
            && (screened == Denied(NewAddressCooloff) ==>
                exists k :: ListsFirst(c.allowlist, k, req, c) && InCooloff(c.allowlist[k].entry, nowMs, c))
            && (screened == Denied(ExceedsPerTxCap) <==>
                && !tampered && !RegionBlocked(req, c)
                && exists k :: ListsFirst(c.allowlist, k, req, c) && OverCap(req.amountUSD, c.allowlist[k].entry, c))
  {
    if LookUp(c.allowlist, req, c).Listed? {
      var k := FoundIsFirst(c.allowlist, req, c);
      FirstIsFound(c.allowlist, k, req, c);
    } else {
      NotListedIsNone(c.allowlist, req, c);
    }
    if k :| ListsFirst(c.allowlist, k, req, c) && OverCap(req.amountUSD, c.allowlist[k].entry, c) {
      FirstIsFound(c.allowlist, k, req, c);
    }
  }

  lemma {:induction false} NotListedIsNone(allowlist: seq<Listing>, req: Request, c: Config)
    requires LookUp(allowlist, req, c).NotListed?
    ensures forall k :: 0 <= k < |allowlist| ==> !Lists(allowlist[k], req, c)
  {
    if allowlist != [] {
      NotListedIsNone(allowlist[1..], req, c);
      forall k | 0 <= k < |allowlist| ensures !Lists(allowlist[k], req, c) {
        assert k > 0 ==> allowlist[1..][k - 1] == allowlist[k];
      }
    }
  }

  // ----- What a check answers ----------------------------------------------------------------

  /** The daily limits leave room for the amount, given all that was approved in the 24 hours up to now. */
  predicate LimitsAllow(approved: seq<Record>, nowMs: int, amount: real, c: Config) {
    var recent := Keep(Within(Time, nowMs - 86_400_000, nowMs), approved);
    && (c.maxTransfersPerDay > 0 ==> |recent| < c.maxTransfersPerDay)
    && (c.maxDailyUSD > 0.0 ==> SumBy(AmountOf, recent) + amount <= c.maxDailyUSD)
  }

  /** The amount waits for two operators. */
  predicate NeedsTwo(amount: real, c: Config) {
    0.0 < c.dualApprovalThresholdUSD <= amount
  }

  lemma TrueHistoryPruned(history: seq<Record>, full: seq<Record>, cut: int, lastMs: int, nowMs: int)
    requires HistoryTrue(history, full, cut, lastMs) && lastMs <= nowMs
    ensures Prune(Time, history, nowMs - DAY_MS) == Keep(Within(Time, nowMs - 86_400_000, nowMs), full)
  {
    HistoryPruned(history, full, cut, lastMs, nowMs);
    RecentIsWithin(Time, full, nowMs - DAY_MS, nowMs);
  }

  lemma CheckIs(s: State, nowMs: int, req: Request, tampered: bool, c: Config)
    ensures var (outcome, kept) :=
              (Check(s, nowMs, req, tampered, c).1.outcome, Prune(Time, s.history, nowMs - DAY_MS));
            var clear := && Screen(nowMs, req, tampered, c).Approved?
                         && (c.maxTransfersPerDay > 0 ==> |kept| < c.maxTransfersPerDay)
                         && (c.maxDailyUSD > 0.0 ==> SumBy(AmountOf, kept) + req.amountUSD <= c.maxDailyUSD);
            && (outcome == Approved <==> clear && !NeedsTwo(req.amountUSD, c) && !c.manualApprovalRequired)
            && (outcome == Pending <==> clear && (NeedsTwo(req.amountUSD, c) || c.manualApprovalRequired))
            && (outcome == Denied(DailyCountExceeded) <==>
                Screen(nowMs, req, tampered, c).Approved? && 0 < c.maxTransfersPerDay <= |kept|)
  {
  }

  /** The same of a check against a history that has been pruned before. */
  lemma CheckOnHistory(s: State, e: Event, c: Config, approved: seq<Record>, cut: int, lastMs: int)
    requires HistoryTrue(s.history, approved, cut, lastMs) && lastMs <= e.nowMs && e.call.CheckCall?
    ensures var (req, outcome) := (e.call.req, Apply(s, e, c).1);
            var clear := && Cleared(req, e.nowMs, e.call.tampered, c)
                         && LimitsAllow(approved, e.nowMs, req.amountUSD, c);
            && (outcome == Approved <==> clear && !NeedsTwo(req.amountUSD, c) && !c.manualApprovalRequired)
            && (outcome == Pending <==> clear && (NeedsTwo(req.amountUSD, c) || c.manualApprovalRequired))
  {
    ScreenExactly(e.nowMs, e.call.req, e.call.tampered, c);
    TrueHistoryPruned(s.history, approved, cut, lastMs, e.nowMs);
    CheckIs(s, e.nowMs, e.call.req, e.call.tampered, c);
  }

  /**
   A check approves by itself exactly when the request is cleared, the daily limits leave room and
   neither gate holds the amount; it holds the request exactly when one of them does.
   */
  lemma CheckDecidesExactly(run: seq<Event>, c: Config, n: nat)
    requires n < |run| && run[n].call.CheckCall? && InOrder(EventTime, run)
    ensures var (req, outcome) := (run[n].call.req, OutcomeAt(run, c, n));
            var clear := && Cleared(req, run[n].nowMs, run[n].call.tampered, c)
                         && LimitsAllow(ApprovedRecords(run, c, n), run[n].nowMs, req.amountUSD, c);
            && (outcome == Approved <==> clear && !NeedsTwo(req.amountUSD, c) && !c.manualApprovalRequired)
            && (outcome == Pending <==> clear && (NeedsTwo(req.amountUSD, c) || c.manualApprovalRequired))
  {
    HistoryAlwaysTrue(run, c, n);
    LastTimeFirst(run, n);
    CheckOnHistory(StateAt(run, c, n), run[n], c, ApprovedRecords(run, c, n), CutAt(run, c, n), LastTime(run, n));
  }

  // ----- Who must sign -----------------------------------------------------------------------

  /** Until when a transfer asked for at that time can be approved. */
  function Deadline(nowMs: int, c: Config): int {
    nowMs + (if c.approvalExpiryH == 0 then 24 else c.approvalExpiryH) * 3_600_000
  }

  /**
   Every transfer approved after it was held carries the signatures of two operators if its amount
   reaches the threshold, whatever the manual flag, and else of one, under that flag; no two of them
   the same, none the requester, and all before the deadline.
   */
  lemma SignersNeeded(run: seq<Event>, c: Config, n: nat) returns (m: nat, signers: seq<string>)
    requires n < |run| && run[n].call.ApproveCall? && OutcomeAt(run, c, n) == Approved
    ensures m < n && run[m].call.CheckCall? && run[m].call.req.id == run[n].call.id
    ensures |signers| == if NeedsTwo(run[m].call.req.amountUSD, c) then 2 else 1
    ensures NeedsTwo(run[m].call.req.amountUSD, c) || c.manualApprovalRequired
    ensures forall i, j :: 0 <= i < j < |signers| ==> signers[i] != signers[j]
    ensures forall i :: 0 <= i < |signers| ==>
              && signers[i] != run[m].call.req.requestedBy
              && SignedIn(run, m, n + 1, run[n].call.id, signers[i], Deadline(run[m].nowMs, c))
  {
    m, signers := ApprovedBySigners(run, c, n);
  }

  // ----- What an approval answers ------------------------------------------------------------

  /** The pending transfer is in time, and the operator neither has signed it nor asked for it. */
  predicate MaySign(s: State, nowMs: int, id: string, signer: string) {
    && id in s.pending && nowMs <= s.pending[id].expiresAt
    && s.pending[id].request.requestedBy != signer
    && forall k :: 0 <= k < |s.pending[id].approvals| ==> s.pending[id].approvals[k].approvedBy != signer
  }

  /**
   A signature releases a pending transfer exactly when the operator may sign it and it is the last
   one needed; before that it is counted.  What it is refused for is true of the transfer.
   */
  lemma SignatureDecidesExactly(s: State, nowMs: int, id: string, signer: string)
    ensures var d := Approve(s, nowMs, id, signer).1;
            && d.requestID == id
            && (d.outcome == Approved <==>
                MaySign(s, nowMs, id, signer) && |s.pending[id].approvals| + 1 >= s.pending[id].needed)
            && (d.outcome == Pending <==>
                MaySign(s, nowMs, id, signer) && |s.pending[id].approvals| + 1 < s.pending[id].needed)
            && (MaySign(s, nowMs, id, signer) ==>
                  d.approvalsHave == |s.pending[id].approvals| + 1 && d.approvalsNeeded == s.pending[id].needed)
            && (d.outcome == Denied(NotFound) <==> id !in s.pending)
            && (d.outcome == Denied(Expired) <==> id in s.pending && s.pending[id].expiresAt < nowMs)
            && (d.outcome == StillPending(SelfApproval) ==> s.pending[id].request.requestedBy == signer)
            && (d.outcome == StillPending(DuplicateApprover) ==>
                exists k :: 0 <= k < |s.pending[id].approvals| && s.pending[id].approvals[k].approvedBy == signer)
  {
  }

  /** What a check or a denial reports besides its outcome. */
  lemma ReportsMatch(s: State, nowMs: int, req: Request, tampered: bool, c: Config, id: string)
    ensures var d := Check(s, nowMs, req, tampered, c).1;
            && d.requestID == req.id && d.approvalsHave == 0
            && d.approvalsNeeded == if d.outcome != Pending then 0 else if NeedsTwo(req.amountUSD, c) then 2 else 1
    ensures DenyPending(s, id).1 ==
            Decision(id, Denied(if id in s.pending then OperatorDenied else NotFound), 0, 0)
  {
  }

  // ----- Held transfers ----------------------------------------------------------------------

  /** An event that leaves the pending transfer with that id and deadline alone. */
  predicate LeavesAlone(e: Event, id: string, deadline: int) {
    match e.call
    case CheckCall(req, _) => req.id != id
    case ApproveCall(other, _) => other != id
    case DenyCall(other) => other != id
    case ListCall => e.nowMs <= deadline
  }

  lemma StaysPendingNext(s: State, e: Event, c: Config, id: string)
    requires id in s.pending && LeavesAlone(e, id, s.pending[id].expiresAt)
    ensures var s' := Apply(s, e, c).0; id in s'.pending && s'.pending[id] == s.pending[id]
  {
  }

  lemma {:induction false} StaysPending(run: seq<Event>, c: Config, m: nat, n: nat, id: string)
    requires m <= n <= |run| && id in StateAt(run, c, m).pending
    requires forall k :: m <= k < n ==> LeavesAlone(run[k], id, StateAt(run, c, m).pending[id].expiresAt)
    ensures id in StateAt(run, c, n).pending && StateAt(run, c, n).pending[id] == StateAt(run, c, m).pending[id]
  {
    if m < n {
      StaysPending(run, c, m, n - 1, id);
      StaysPendingNext(StateAt(run, c, n - 1), run[n - 1], c, id);
    }
  }

  /** A held transfer waits, unsigned, until its deadline. */
  lemma HeldWaits(run: seq<Event>, c: Config, m: nat)
    requires m < |run| && run[m].call.CheckCall? && OutcomeAt(run, c, m) == Pending
    ensures var (req, s) := (run[m].call.req, StateAt(run, c, m + 1));
            && req.id in s.pending
            && s.pending[req.id] ==
               PendingTransfer(req, if NeedsTwo(req.amountUSD, c) then 2 else 1, [], run[m].nowMs,
                               Deadline(run[m].nowMs, c))
  {
  }

  /** Between the check at m and the call at n only other transfers are dealt with. */
  predicate Undisturbed(run: seq<Event>, c: Config, m: nat, n: nat, id: string, deadline: int) {
    m < n < |run| && forall k :: m < k < n ==> LeavesAlone(run[k], id, deadline)
  }

  /** The operator signs at n, in time, and did not ask for the transfer. */
  predicate SignsAt(run: seq<Event>, n: nat, req: Request, signer: string, deadline: int)
    requires n < |run|
  {
    run[n].call == ApproveCall(req.id, signer) && run[n].nowMs <= deadline && signer != req.requestedBy
  }

  /** A held transfer that needs one signature is released by the first one in time. */
  lemma OneSignatureReleases(run: seq<Event>, c: Config, m: nat, n: nat, signer: string)
    requires m < |run| && run[m].call.CheckCall? && OutcomeAt(run, c, m) == Pending
    requires !NeedsTwo(run[m].call.req.amountUSD, c)
    requires Undisturbed(run, c, m, n, run[m].call.req.id, Deadline(run[m].nowMs, c))
    requires SignsAt(run, n, run[m].call.req, signer, Deadline(run[m].nowMs, c))
    ensures OutcomeAt(run, c, n) == Approved
  {
    var id := run[m].call.req.id;
    HeldWaits(run, c, m);
    StaysPending(run, c, m + 1, n, id);
    SignatureDecidesExactly(StateAt(run, c, n), run[n].nowMs, id, signer);
  }

  lemma FirstSignatureCounts(run: seq<Event>, c: Config, m: nat, n: nat, signer: string)
    requires m < |run| && run[m].call.CheckCall? && OutcomeAt(run, c, m) == Pending
    requires NeedsTwo(run[m].call.req.amountUSD, c)
    requires Undisturbed(run, c, m, n, run[m].call.req.id, Deadline(run[m].nowMs, c))
    requires SignsAt(run, n, run[m].call.req, signer, Deadline(run[m].nowMs, c))
    ensures OutcomeAt(run, c, n) == Pending
    ensures var (req, s) := (run[m].call.req, StateAt(run, c, n + 1));
            && req.id in s.pending
            && s.pending[req.id] ==
               PendingTransfer(req, 2, [Approval(signer, run[n].nowMs)], run[m].nowMs, Deadline(run[m].nowMs, c))
  {
    var id := run[m].call.req.id;
    HeldWaits(run, c, m);
    StaysPending(run, c, m + 1, n, id);
    SignatureDecidesExactly(StateAt(run, c, n), run[n].nowMs, id, signer);
    assert [] + [Approval(signer, run[n].nowMs)] == [Approval(signer, run[n].nowMs)];
  }

  /** One that needs two stays pending after the first, and is released by another operator's in time. */
  lemma TwoSignaturesRelease(run: seq<Event>, c: Config, m: nat, k: nat, n: nat, first: string, second: string)
    requires m < |run| && run[m].call.CheckCall? && OutcomeAt(run, c, m) == Pending
    requires NeedsTwo(run[m].call.req.amountUSD, c) && first != second
    requires Undisturbed(run, c, m, k, run[m].call.req.id, Deadline(run[m].nowMs, c))
    requires Undisturbed(run, c, k, n, run[m].call.req.id, Deadline(run[m].nowMs, c))
    requires SignsAt(run, k, run[m].call.req, first, Deadline(run[m].nowMs, c))
    requires SignsAt(run, n, run[m].call.req, second, Deadline(run[m].nowMs, c))
    ensures OutcomeAt(run, c, k) == Pending && OutcomeAt(run, c, n) == Approved
  {
    var id := run[m].call.req.id;
    FirstSignatureCounts(run, c, m, k, first);
    StaysPending(run, c, k + 1, n, id);
    SignatureDecidesExactly(StateAt(run, c, n), run[n].nowMs, id, second);
  }

  // ----- Transfers that are gone -------------------------------------------------------------

  lemma StaysGoneNext(s: State, e: Event, c: Config, id: string)
    requires id !in s.pending && (e.call.CheckCall? ==> e.call.req.id != id)
    ensures id !in Apply(s, e, c).0.pending
  {
  }

  lemma {:induction false} StaysGone(run: seq<Event>, c: Config, m: nat, n: nat, id: string)
    requires m <= n <= |run| && id !in StateAt(run, c, m).pending
    requires forall k :: m <= k < n && run[k].call.CheckCall? ==> run[k].call.req.id != id
    ensures id !in StateAt(run, c, n).pending
  {
    if m < n {
      StaysGone(run, c, m, n - 1, id);
      StaysGoneNext(StateAt(run, c, n - 1), run[n - 1], c, id);
    }
  }

  /** What ends the wait of a transfer: a denial, its release, or a call that finds it expired. */
  predicate Ends(run: seq<Event>, c: Config, m: nat, id: string)
    requires m < |run|
  {
    || run[m].call == DenyCall(id)
    || (run[m].call.ApproveCall? && run[m].call.id == id &&
        OutcomeAt(run, c, m) in {Approved, Denied(NotFound), Denied(Expired)})
    || (run[m].call.ListCall? && id in StateAt(run, c, m).pending &&
        StateAt(run, c, m).pending[id].expiresAt < run[m].nowMs)
  }

  /** After that no signature finds it, until it is asked for again. */
  lemma NeverAgain(run: seq<Event>, c: Config, m: nat, n: nat, id: string)
    requires m < n < |run| && Ends(run, c, m, id) && run[n].call.ApproveCall? && run[n].call.id == id
    requires forall k :: m < k < n && run[k].call.CheckCall? ==> run[k].call.req.id != id
    ensures OutcomeAt(run, c, n) == Denied(NotFound)
  {
    StaysGone(run, c, m + 1, n, id);
  }
}
