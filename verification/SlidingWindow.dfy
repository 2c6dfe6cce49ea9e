/**
 Event lists that are pruned from the front, as the rate limiter, the risk daemon and the transfer
 policy keep them.
 */
module SlidingWindow {
  import opened Sums

  predicate InOrder<T>(time: T -> int, s: seq<T>) {
    forall i, j :: 0 <= i < j < |s| ==> time(s[i]) <= time(s[j])
  }

  /** Drop the events before the cutoff from the front, up to the first that is not. */
  function Prune<T>(time: T -> int, s: seq<T>, cutoff: int): seq<T> {
    if s != [] && time(s[0]) < cutoff then Prune(time, s[1..], cutoff) else s
  }

  method PruneOlderThan<T>(time: T -> int, s: seq<T>, cutoff: int) returns (r: seq<T>)
    ensures r == Prune(time, s, cutoff)
  {
    var i := 0;
    while i < |s| && time(s[i]) < cutoff
      invariant i <= |s|
      invariant Prune(time, s, cutoff) == Prune(time, s[i..], cutoff)
    {
      i := i + 1;
    }
    return s[i..];
  }

  /** The events that satisfy p. */
  function Keep<T>(p: T -> bool, s: seq<T>): (r: seq<T>)
    ensures |r| <= |s|
  {
    if s == [] then []
    else
      var before := Keep(p, s[..|s| - 1]);
      if p(s[|s| - 1]) then before + [s[|s| - 1]] else before
  }

  function NotBefore<T>(time: T -> int, cutoff: int): T -> bool {
    (t: T) => time(t) >= cutoff
  }

  function Within<T>(time: T -> int, from: int, to: int): T -> bool {
    (t: T) => from <= time(t) <= to
  }

  /** The events of a full history that a list pruned at the cutoff should still hold. */
  function Recent<T>(time: T -> int, s: seq<T>, cutoff: int): (r: seq<T>)
    ensures |r| <= |s|
  {
    Keep(NotBefore(time, cutoff), s)
  }

  lemma {:induction false} KeepAll<T>(p: T -> bool, s: seq<T>)
    requires forall k :: 0 <= k < |s| ==> p(s[k])
    ensures Keep(p, s) == s
  {
    if s != [] {
      KeepAll(p, s[..|s| - 1]);
    }
  }

  lemma {:induction false} KeepFront<T>(p: T -> bool, s: seq<T>)
    requires s != [] && !p(s[0])
    ensures Keep(p, s) == Keep(p, s[1..])
  {
    if |s| > 1 {
      KeepFront(p, s[..|s| - 1]);
      assert s[..|s| - 1][1..] == s[1..][..|s[1..]| - 1];
    }
  }

  /** Pruning the front of an ordered list is filtering the whole of it. */
  lemma {:induction false} PruneFilters<T>(time: T -> int, s: seq<T>, cutoff: int)
    requires InOrder(time, s)
    ensures Prune(time, s, cutoff) == Recent(time, s, cutoff)
  {
    if s != [] && time(s[0]) < cutoff {
      PruneFilters(time, s[1..], cutoff);
      KeepFront(NotBefore(time, cutoff), s);
    } else {
      KeepAll(NotBefore(time, cutoff), s);
    }
  }

  lemma {:induction false} KeepTwice<T>(p: T -> bool, q: T -> bool, s: seq<T>)
    requires forall t :: q(t) ==> p(t)
    ensures Keep(q, Keep(p, s)) == Keep(q, s)
  {
    if s != [] {
      var before := Keep(p, s[..|s| - 1]);
      KeepTwice(p, q, s[..|s| - 1]);
      assert (before + [s[|s| - 1]])[..|before|] == before;
    }
  }

  /** A list pruned earlier prunes to the same as the full history. */
  lemma RecentTwice<T>(time: T -> int, s: seq<T>, early: int, late: int)
    requires early <= late
    ensures Recent(time, Recent(time, s, early), late) == Recent(time, s, late)
  {
    KeepTwice(NotBefore(time, early), NotBefore(time, late), s);
  }

  lemma KeepMore<T>(p: T -> bool, s: seq<T>, t: T)
    ensures Keep(p, s + [t]) == Keep(p, s) + if p(t) then [t] else []
  {
    assert (s + [t])[..|s|] == s;
  }

  lemma {:induction false} KeepInOrder<T>(time: T -> int, p: T -> bool, s: seq<T>)
    requires InOrder(time, s)
    ensures InOrder(time, Keep(p, s))
    ensures s != [] ==> forall k :: 0 <= k < |Keep(p, s)| ==> time(Keep(p, s)[k]) <= time(s[|s| - 1])
  {
    if s != [] {
      KeepInOrder(time, p, s[..|s| - 1]);
    }
  }

  lemma {:induction false} KeepNone<T>(p: T -> bool, s: seq<T>)
    requires forall k :: 0 <= k < |s| ==> !p(s[k])
    ensures Keep(p, s) == []
  {
    if s != [] {
      KeepNone(p, s[..|s| - 1]);
    }
  }

  /** Keeping fewer events keeps a smaller number and, of non-negative amounts, a smaller total. */
  lemma {:induction false} KeepFewer<T>(p: T -> bool, q: T -> bool, f: T -> real, s: seq<T>)
    requires forall t :: p(t) ==> q(t)
    ensures |Keep(p, s)| <= |Keep(q, s)|
    ensures (forall k :: 0 <= k < |s| ==> f(s[k]) >= 0.0) ==> SumBy(f, Keep(p, s)) <= SumBy(f, Keep(q, s))
  {
    if s != [] {
      KeepFewer(p, q, f, s[..|s| - 1]);
    }
  }

  /** Nothing in the history is later than `now`. */
  predicate Follows<T>(time: T -> int, s: seq<T>, now: int) {
    forall k :: 0 <= k < |s| ==> time(s[k]) <= now
  }

  /** What keeps no fewer events than what keeps more keeps the same ones. */
  lemma {:induction false} KeepSame<T>(p: T -> bool, q: T -> bool, f: T -> real, s: seq<T>)
    requires (forall t :: p(t) ==> q(t)) && |Keep(p, s)| == |Keep(q, s)|
    ensures Keep(p, s) == Keep(q, s)
  {
    if s != [] {
      KeepFewer(p, q, f, s[..|s| - 1]);
      KeepSame(p, q, f, s[..|s| - 1]);
    }
  }

  lemma {:induction false} KeepAppend<T>(p: T -> bool, a: seq<T>, b: seq<T>)
    ensures Keep(p, a + b) == Keep(p, a) + Keep(p, b)
  {
    if b == [] {
      assert a + b == a;
    } else {
      assert (a + b)[..|a + b| - 1] == a + b[..|b| - 1];
      KeepAppend(p, a, b[..|b| - 1]);
    }
  }

  /**
   What has been kept of an ordered history since some cutoff not later than the next one is pruned
   to exactly what the whole history holds since the next cutoff.
   */
  lemma PrunedHistory<T>(time: T -> int, history: seq<T>, kept: seq<T>, early: int, late: int)
    requires InOrder(time, history) && kept == Recent(time, history, early) && early <= late
    ensures Prune(time, kept, late) == Recent(time, history, late)
  {
    KeepInOrder(time, NotBefore(time, early), history);
    PruneFilters(time, kept, late);
    RecentTwice(time, history, early, late);
  }

  /** The same when one more event, not earlier than the others, is appended before pruning. */
  lemma PrunedWithOneMore<T>(time: T -> int, history: seq<T>, kept: seq<T>, t: T, early: int, late: int)
    requires InOrder(time, history) && Follows(time, history, time(t)) && kept == Recent(time, history, early)
    requires early <= late
    ensures Prune(time, kept + [t], late) == Recent(time, history + [t], late)
  {
    KeepInOrder(time, NotBefore(time, early), history);
    PruneFilters(time, kept + [t], late);
    KeepMore(NotBefore(time, late), kept, t);
    RecentTwice(time, history, early, late);
    KeepMore(NotBefore(time, late), history, t);
  }

  lemma AppendInOrder<T>(time: T -> int, s: seq<T>, t: T)
    requires InOrder(time, s) && Follows(time, s, time(t))
    ensures InOrder(time, s + [t]) && Follows(time, s + [t], time(t))
  {
  }

  lemma FollowsLater<T>(time: T -> int, s: seq<T>, early: int, late: int)
    requires Follows(time, s, early) && early <= late
    ensures Follows(time, s, late)
  {
  }

  /** With nothing later than `to`, what is recent since `from` is what lies between the two. */
  lemma {:induction false} RecentIsWithin<T>(time: T -> int, s: seq<T>, from: int, to: int)
    requires Follows(time, s, to)
    ensures Recent(time, s, from) == Keep(Within(time, from, to), s)
  {
    if s != [] {
      RecentIsWithin(time, s[..|s| - 1], from, to);
    }
  }

  /** A window that ends no earlier than `now` starts no earlier than one of the same length ending at `now`. */
  lemma WindowIsRecent<T>(time: T -> int, f: T -> real, s: seq<T>, from: int, length: int, now: int)
    requires from <= now <= from + length
    ensures |Keep(Within(time, from, from + length), s)| <= |Recent(time, s, now - length)|
    ensures (forall k :: 0 <= k < |s| ==> f(s[k]) >= 0.0) ==>
              SumBy(f, Keep(Within(time, from, from + length), s)) <= SumBy(f, Recent(time, s, now - length))
  {
    KeepFewer(Within(time, from, from + length), NotBefore(time, now - length), f, s);
  }
}
