/** The paper executor's order rate limit: a sliding window of one minute over the orders granted. */
module RateLimiter {
  import opened SlidingWindow

  const WINDOW_MS := 60_000

  function Self(t: int): int {
    t
  }

  /** One call: prune, then refuse or record. */
  function TryAcquire(orderTs: seq<int>, nowMs: int, limit: int): (seq<int>, bool) {
    var kept := Prune(Self, orderTs, nowMs - WINDOW_MS);
    if |kept| >= limit then (kept, false) else (kept + [nowMs], true)
  }

  class OrderLimiter {
    const maxOrdersPerMinute: int
    var orderTs: seq<int>

    constructor (maxOrdersPerMinute: int)
      ensures this.maxOrdersPerMinute == maxOrdersPerMinute && orderTs == []
    {
      this.maxOrdersPerMinute := maxOrdersPerMinute;
      orderTs := [];
    }

    method TryAcquireOrderSlot(nowMs: int) returns (ok: bool)
      modifies this
      ensures (orderTs, ok) == TryAcquire(old(orderTs), nowMs, maxOrdersPerMinute)
    {
      orderTs := PruneOlderThan(Self, orderTs, nowMs - WINDOW_MS);
      if |orderTs| >= maxOrdersPerMinute {
        return false;
      }
      orderTs := orderTs + [nowMs];
      return true;
    }
  }

  // ----- Runs --------------------------------------------------------------------------------

  /** What the limiter holds, and the full history of grants. */
  datatype State = State(orderTs: seq<int>, grants: seq<int>)

  function Next(s: State, nowMs: int, limit: int): State {
    var (orderTs, ok) := TryAcquire(s.orderTs, nowMs, limit);
    State(orderTs, if ok then s.grants + [nowMs] else s.grants)
  }

  /** The state after the first n calls, made at the times given. */
  function After(calls: seq<int>, limit: int, n: nat): State
    requires n <= |calls|
  {
    if n == 0 then State([], []) else Next(After(calls, limit, n - 1), calls[n - 1], limit)
  }

  predicate Granted(calls: seq<int>, limit: int, n: nat)
    requires n < |calls|
  {
    TryAcquire(After(calls, limit, n).orderTs, calls[n], limit).1
  }

  /** What the limiter holds is what the full history holds of the minute up to the last call. */
  ghost predicate Holds(s: State, lastMs: int) {
    && InOrder(Self, s.grants)
    && Follows(Self, s.grants, lastMs)
    && s.orderTs == Recent(Self, s.grants, lastMs - WINDOW_MS)
  }

  lemma NextHolds(s: State, lastMs: int, nowMs: int, limit: int)
    requires Holds(s, lastMs) && lastMs <= nowMs
    ensures Prune(Self, s.orderTs, nowMs - WINDOW_MS) == Recent(Self, s.grants, nowMs - WINDOW_MS)
    ensures Holds(Next(s, nowMs, limit), nowMs)
  {
    PrunedHistory(Self, s.grants, s.orderTs, lastMs - WINDOW_MS, nowMs - WINDOW_MS);
    FollowsLater(Self, s.grants, lastMs, nowMs);
    AppendInOrder(Self, s.grants, nowMs);
    KeepMore(NotBefore(Self, nowMs - WINDOW_MS), s.grants, nowMs);
  }

  /** The time of the call before the next one, or of the first call if there is none before. */
  function LastCall(calls: seq<int>, n: nat): int
    requires n <= |calls| && calls != []
  {
    if n == 0 then calls[0] else calls[n - 1]
  }

  lemma LastCallFirst(calls: seq<int>, n: nat)
    requires n < |calls| && InOrder(Self, calls)
    ensures LastCall(calls, n) <= calls[n]
  {
    assert n > 0 ==> Self(calls[n - 1]) <= Self(calls[n]);
  }

  lemma {:induction false} RunHolds(calls: seq<int>, limit: int, n: nat)
    requires n <= |calls| && calls != [] && InOrder(Self, calls)
    ensures Holds(After(calls, limit, n), LastCall(calls, n))
  {
    if n > 0 {
      RunHolds(calls, limit, n - 1);
      LastCallFirst(calls, n - 1);
      NextHolds(After(calls, limit, n - 1), LastCall(calls, n - 1), calls[n - 1], limit);
    }
  }

  lemma RefusedWhenFull(s: State, lastMs: int, nowMs: int, limit: int)
    requires Holds(s, lastMs) && lastMs <= nowMs
    ensures !TryAcquire(s.orderTs, nowMs, limit).1 <==>
              |Keep(Within(Self, nowMs - WINDOW_MS, nowMs), s.grants)| >= limit
  {
    NextHolds(s, lastMs, nowMs, limit);
    FollowsLater(Self, s.grants, lastMs, nowMs);
    RecentIsWithin(Self, s.grants, nowMs - WINDOW_MS, nowMs);
  }

  /** A call is refused exactly when the full history of grants already has the limit in [now - 60000, now]. */
  lemma RefusedExactly(calls: seq<int>, limit: int, n: nat)
    requires n < |calls| && InOrder(Self, calls)
    ensures !Granted(calls, limit, n) <==>
              |Keep(Within(Self, calls[n] - 60_000, calls[n]), After(calls, limit, n).grants)| >= limit
  {
    RunHolds(calls, limit, n);
    LastCallFirst(calls, n);
    RefusedWhenFull(After(calls, limit, n), LastCall(calls, n), calls[n], limit);
  }

  function AsReal(t: int): real {
    t as real
  }

  lemma NextWithin(s: State, lastMs: int, nowMs: int, limit: int, from: int)
    requires Holds(s, lastMs) && lastMs <= nowMs
    requires |Keep(Within(Self, from, from + WINDOW_MS), s.grants)| <= limit
    ensures |Keep(Within(Self, from, from + WINDOW_MS), Next(s, nowMs, limit).grants)| <= limit
  {
    var window := Within(Self, from, from + WINDOW_MS);
    NextHolds(s, lastMs, nowMs, limit);
    KeepMore(window, s.grants, nowMs);
    assert window(nowMs) <==> from <= Self(nowMs) <= from + WINDOW_MS;
    if window(nowMs) {
      WindowIsRecent(Self, AsReal, s.grants, from, WINDOW_MS, nowMs);
    }
  }

  /** No closed window of a minute, wherever it starts, holds more grants than the limit. */
  lemma {:induction false} WindowBound(calls: seq<int>, limit: int, n: nat, from: int)
    requires n <= |calls| && InOrder(Self, calls) && limit >= 0
    ensures |Keep(Within(Self, from, from + 60_000), After(calls, limit, n).grants)| <= limit
  {
    if n > 0 {
      WindowBound(calls, limit, n - 1, from);
      RunHolds(calls, limit, n - 1);
      LastCallFirst(calls, n - 1);
      NextWithin(After(calls, limit, n - 1), LastCall(calls, n - 1), calls[n - 1], limit, from);
    }
  }
}
