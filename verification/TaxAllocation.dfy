/**
 Who is matched with whom, said without any loop: what a rule gives a disposal of an acquisition is
 the lesser of what earlier acquisitions leave of the disposal and what earlier disposals leave of
 the acquisition.  The in-place passes are proved to make exactly these matches.
 */
module TaxAllocation {
  import opened Sums
  import opened TaxMatching
  import opened TaxPriority

  /** What the rule gives disposal i of acquisition j, when `left` is left of each trade. */
  function Due(ts: seq<Trade>, rule: Rule, left: seq<real>, i: nat, j: nat): (q: real)
    requires |left| == |ts| && i < |ts| && j < |ts|
    ensures q >= 0.0 && (q > 0.0 ==> Pairs(ts, rule, i, j))
    decreases i + j, 1
  {
    if Pairs(ts, rule, i, j) then
      Max(0.0, Min(left[i] - GivenTo(ts, rule, left, i, j), left[j] - TakenFrom(ts, rule, left, j, i)))
    else 0.0
  }

  /** What the first n trades give disposal i. */
  function GivenTo(ts: seq<Trade>, rule: Rule, left: seq<real>, i: nat, n: nat): (q: real)
    requires |left| == |ts| && i < |ts| && n <= |ts|
    ensures q >= 0.0
    decreases i + n, 0
  {
    if n == 0 then 0.0 else GivenTo(ts, rule, left, i, n - 1) + Due(ts, rule, left, i, n - 1)
  }

  /** What the first n trades take of acquisition j. */
  function TakenFrom(ts: seq<Trade>, rule: Rule, left: seq<real>, j: nat, n: nat): (q: real)
    requires |left| == |ts| && j < |ts| && n <= |ts|
    ensures q >= 0.0
    decreases j + n, 0
  {
    if n == 0 then 0.0 else TakenFrom(ts, rule, left, j, n - 1) + Due(ts, rule, left, n - 1, j)
  }

  /** The matches of disposal i with the first n trades. */
  function DueMatches(ts: seq<Trade>, rule: Rule, left: seq<real>, i: nat, n: nat): seq<MatchResult>
    requires |left| == |ts| && i < |ts| && n <= |ts|
  {
    if n == 0 then []
    else
      var q := Due(ts, rule, left, i, n - 1);
      DueMatches(ts, rule, left, i, n - 1) + if q > 0.0 then [Purchased(rule, ts[n - 1], q, n - 1)] else []
  }

  /** What is left of trade k once disposals 0 to i - 1 are done, and disposal i with the first n trades. */
  function LeftAt(ts: seq<Trade>, rule: Rule, left: seq<real>, i: nat, n: nat, k: nat): real
    requires |left| == |ts| && i <= |ts| && n <= |ts| && k < |ts| && (i == |ts| ==> n == 0)
  {
    match ts[k].action
    case SELL =>
      var seen := if k < i then |ts| else if k == i then n else 0;
      left[k] - GivenTo(ts, rule, left, k, seen)
    case BUY => left[k] - TakenFrom(ts, rule, left, k, if k < n then i + 1 else i)
    case OTHER => left[k]
  }

  /** What disposal k has been given by then. */
  function MatchesAt(ts: seq<Trade>, rule: Rule, left: seq<real>, i: nat, n: nat, k: nat): seq<MatchResult>
    requires |left| == |ts| && i <= |ts| && n <= |ts| && k < |ts|
  {
    if ts[k].action != SELL then []
    else if k < i then DueMatches(ts, rule, left, k, |ts|)
    else if k == i then DueMatches(ts, rule, left, k, n)
    else []
  }

  function BookDue(ts: seq<Trade>, rule: Rule, b: Book, i: nat, n: nat): (r: Book)
    requires Fits(ts, b) && i <= |ts| && n <= |ts| && (i == |ts| ==> n == 0)
    ensures Fits(ts, r)
  {
    Book(seq(|ts|, k requires 0 <= k < |ts| => LeftAt(ts, rule, b.remaining, i, n, k)),
         seq(|ts|, k requires 0 <= k < |ts| => b.matches[k] + MatchesAt(ts, rule, b.remaining, i, n, k)))
  }

  lemma MatchesWhenDue(ts: seq<Trade>, rule: Rule, b: Book, i: nat, n: nat)
    requires Fits(ts, b) && i < |ts| && n < |ts| && ts[i].action == SELL
    ensures var (now, q) := (BookDue(ts, rule, b, i, n), Due(ts, rule, b.remaining, i, n));
            && (Matches(ts, rule, now, i, n) <==> q > 0.0)
            && (q > 0.0 ==> q == Min(now.remaining[i], now.remaining[n]))
  {
  }

  lemma LeftAtNext(ts: seq<Trade>, rule: Rule, left: seq<real>, i: nat, n: nat, k: nat)
    requires |left| == |ts| && i < |ts| && n < |ts| && k < |ts| && ts[i].action == SELL
    ensures var q := Due(ts, rule, left, i, n);
            LeftAt(ts, rule, left, i, n + 1, k) ==
            LeftAt(ts, rule, left, i, n, k) - if k == i || (k == n && q > 0.0) then q else 0.0
  {
  }

  lemma MatchesAtNext(ts: seq<Trade>, rule: Rule, left: seq<real>, i: nat, n: nat, base: seq<MatchResult>)
    requires |left| == |ts| && i < |ts| && n < |ts| && ts[i].action == SELL
    ensures var q := Due(ts, rule, left, i, n);
            base + MatchesAt(ts, rule, left, i, n + 1, i) ==
            base + MatchesAt(ts, rule, left, i, n, i) + if q > 0.0 then [Purchased(rule, ts[n], q, n)] else []
  {
  }

  /** One iteration of the inner loop gives what is due. */
  lemma AttemptGivesDue(ts: seq<Trade>, rule: Rule, b: Book, i: nat, n: nat)
    requires Fits(ts, b) && i < |ts| && n < |ts| && ts[i].action == SELL
    ensures Attempt(ts, rule, BookDue(ts, rule, b, i, n), i, n) == BookDue(ts, rule, b, i, n + 1)
  {
    var q := Due(ts, rule, b.remaining, i, n);
    var now, next := BookDue(ts, rule, b, i, n), BookDue(ts, rule, b, i, n + 1);
    MatchesWhenDue(ts, rule, b, i, n);
    forall k | 0 <= k < |ts|
      ensures next.remaining[k] == now.remaining[k] - if k == i || (k == n && q > 0.0) then q else 0.0
    {
      LeftAtNext(ts, rule, b.remaining, i, n, k);
    }
    MatchesAtNext(ts, rule, b.remaining, i, n, b.matches[i]);
    AttemptIs(ts, rule, now, next, i, n, q);
  }

  lemma AttemptIs(ts: seq<Trade>, rule: Rule, now: Book, next: Book, i: nat, n: nat, q: real)
    requires Fits(ts, now) && Fits(ts, next) && i < |ts| && n < |ts| && ts[i].action == SELL && q >= 0.0
    requires Matches(ts, rule, now, i, n) <==> q > 0.0
    requires q > 0.0 ==> q == Min(now.remaining[i], now.remaining[n])
    requires forall k :: 0 <= k < |ts| ==>
               next.remaining[k] == now.remaining[k] - if k == i || (k == n && q > 0.0) then q else 0.0
    requires forall k :: 0 <= k < |ts| && k != i ==> next.matches[k] == now.matches[k]
    requires next.matches[i] == now.matches[i] + if q > 0.0 then [Purchased(rule, ts[n], q, n)] else []
    ensures Attempt(ts, rule, now, i, n) == next
  {
    var r := Attempt(ts, rule, now, i, n);
    assert r.remaining == next.remaining;
    forall k | 0 <= k < |ts| ensures r.matches[k] == next.matches[k] {
      assert now.matches[i] + [] == now.matches[i];
    }
    assert r.matches == next.matches;
  }

  lemma {:induction false} ScanGivesDue(ts: seq<Trade>, rule: Rule, b: Book, i: nat, n: nat)
    requires Fits(ts, b) && i < |ts| && n <= |ts| && ts[i].action == SELL
    ensures Scan(ts, rule, BookDue(ts, rule, b, i, 0), i, n) == BookDue(ts, rule, b, i, n)
  {
    if n > 0 {
      ScanGivesDue(ts, rule, b, i, n - 1);
      AttemptGivesDue(ts, rule, b, i, n - 1);
    }
  }

  lemma ScanEnds(ts: seq<Trade>, rule: Rule, b: Book, i: nat)
    requires Fits(ts, b) && i < |ts|
    ensures BookDue(ts, rule, b, i + 1, 0) == BookDue(ts, rule, b, i, if ts[i].action == SELL then |ts| else 0)
  {
    var n := if ts[i].action == SELL then |ts| else 0;
    var now, next := BookDue(ts, rule, b, i, n), BookDue(ts, rule, b, i + 1, 0);
    forall k | 0 <= k < |ts| ensures next.remaining[k] == now.remaining[k] && next.matches[k] == now.matches[k] {
      if ts[k].action == BUY && n == 0 {
        assert !Pairs(ts, rule, i, k);
        assert TakenFrom(ts, rule, b.remaining, k, i + 1) == TakenFrom(ts, rule, b.remaining, k, i);
      }
    }
    assert next.remaining == now.remaining && next.matches == now.matches;
  }

  lemma BookDueAtStart(ts: seq<Trade>, rule: Rule, b: Book)
    requires Fits(ts, b)
    ensures BookDue(ts, rule, b, 0, 0) == b
  {
    var r := BookDue(ts, rule, b, 0, 0);
    forall k | 0 <= k < |ts| ensures r.remaining[k] == b.remaining[k] && r.matches[k] == b.matches[k] {
      assert b.matches[k] + [] == b.matches[k];
    }
    assert r.remaining == b.remaining && r.matches == b.matches;
  }

  /**
   A pass gives every disposal exactly the matches that are its due, in order of acquisition, and
   leaves of every trade exactly what is not given or taken.
   */
  lemma {:induction false} PassGivesDue(ts: seq<Trade>, rule: Rule, b: Book, n: nat)
    requires Fits(ts, b) && n <= |ts|
    ensures Pass(ts, rule, b, n) == BookDue(ts, rule, b, n, 0)
  {
    if n == 0 {
      BookDueAtStart(ts, rule, b);
    } else {
      PassGivesDue(ts, rule, b, n - 1);
      if ts[n - 1].action == SELL {
        ScanGivesDue(ts, rule, b, n - 1, |ts|);
      }
      ScanEnds(ts, rule, b, n - 1);
    }
  }

  /** What is left of each trade once the rule has given all that is due. */
  function LeftAfter(ts: seq<Trade>, rule: Rule, left: seq<real>): (r: seq<real>)
    requires |left| == |ts|
    ensures |r| == |ts|
  {
    seq(|ts|, k requires 0 <= k < |ts| => LeftAt(ts, rule, left, |ts|, 0, k))
  }

  /**
   Both rules together: before the pool is looked at, a disposal has what the same-day rule gives it
   of all there was, then what the 30-day rule gives it of what the same-day rule left.
   */
  lemma RulesGiveDue(ts: seq<Trade>, i: nat)
    requires i < |ts| && ts[i].action == SELL
    ensures var all := Opening(ts).remaining;
            var rest := LeftAfter(ts, SameDay, all);
            && AfterThirtyDay(ts).matches[i] ==
               DueMatches(ts, SameDay, all, i, |ts|) + DueMatches(ts, ThirtyDay, rest, i, |ts|)
            && AfterThirtyDay(ts).remaining == LeftAfter(ts, ThirtyDay, rest)
  {
    PassGivesDue(ts, SameDay, Opening(ts), |ts|);
    PassGivesDue(ts, ThirtyDay, AfterSameDay(ts), |ts|);
    assert AfterSameDay(ts).remaining == LeftAfter(ts, SameDay, Opening(ts).remaining);
    var due := DueMatches(ts, SameDay, Opening(ts).remaining, i, |ts|);
    assert Opening(ts).matches[i] + due == due;
  }
}
