/**
 Splitting across tax periods: when the later trades are out of reach of the earlier disposals,
 matching everything at once is matching the earlier period and then the later one from the pool
 the earlier one leaves.
 */
module TaxPeriods {
  import opened Sorting
  import opened Sums
  import opened TaxMatching
  import opened TaxConservation

  // ----- Two books side by side --------------------------------------------------------------

  function Moved(m: MatchResult, shift: nat): MatchResult {
    if m.acquisition < 0 then m else m.(acquisition := m.acquisition + shift)
  }

  function MovedAll(ms: seq<MatchResult>, shift: nat): (r: seq<MatchResult>)
    ensures |r| == |ms|
  {
    seq(|ms|, k requires 0 <= k < |ms| => Moved(ms[k], shift))
  }

  /** The book of earlier trades followed by that of later ones, whose positions move up. */
  function Joined(a: Book, b: Book): Book {
    Book(a.remaining + b.remaining,
         a.matches + seq(|b.matches|, k requires 0 <= k < |b.matches| => MovedAll(b.matches[k], |a.remaining|)))
  }

  lemma MovedAllOne(ms: seq<MatchResult>, m: MatchResult, shift: nat)
    ensures MovedAll(ms + [m], shift) == MovedAll(ms, shift) + [Moved(m, shift)]
  {
  }

  /** The rule matches no trade of one part with a trade of the other. */
  ghost predicate Apart(rule: Rule, A: seq<Trade>, B: seq<Trade>) {
    forall s, t :: s in A && t in B ==> !Eligible(rule, s, t) || s.action != SELL || t.action != BUY
  }

  lemma AttemptLeft(A: seq<Trade>, B: seq<Trade>, rule: Rule, a: Book, b: Book, i: nat, j: nat)
    requires Fits(A, a) && Fits(B, b) && i < |A| && j < |A| && A[i].action == SELL
    ensures Attempt(A + B, rule, Joined(a, b), i, j) == Joined(Attempt(A, rule, a, i, j), b)
  {
    var whole, part := Attempt(A + B, rule, Joined(a, b), i, j), Joined(Attempt(A, rule, a, i, j), b);
    assert whole.remaining == part.remaining;
    assert whole.matches == part.matches;
  }

  lemma AttemptRight(A: seq<Trade>, B: seq<Trade>, rule: Rule, a: Book, b: Book, i: nat, j: nat)
    requires Fits(A, a) && Fits(B, b) && i < |B| && j < |B| && B[i].action == SELL
    ensures Attempt(A + B, rule, Joined(a, b), |A| + i, |A| + j) == Joined(a, Attempt(B, rule, b, i, j))
  {
    var whole := Attempt(A + B, rule, Joined(a, b), |A| + i, |A| + j);
    var part := Joined(a, Attempt(B, rule, b, i, j));
    if Matches(B, rule, b, i, j) {
      MovedAllOne(b.matches[i], Purchased(rule, B[j], Min(b.remaining[i], b.remaining[j]), j), |A|);
      assert Moved(Purchased(rule, B[j], Min(b.remaining[i], b.remaining[j]), j), |A|)
          == Purchased(rule, B[j], Min(b.remaining[i], b.remaining[j]), |A| + j);
    }
    assert whole.remaining == part.remaining;
    assert whole.matches == part.matches;
  }

  lemma AttemptAcross(A: seq<Trade>, B: seq<Trade>, rule: Rule, b: Book, i: nat, j: nat)
    requires Fits(A + B, b) && i < |A + B| && j < |A + B| && (A + B)[i].action == SELL
    requires (i < |A| <= j && Apart(rule, A, B)) || (j < |A| <= i && Apart(rule, B, A))
    ensures Attempt(A + B, rule, b, i, j) == b
  {
    assert i < |A| <= j ==> (A + B)[i] in A && (A + B)[j] in B;
    assert j < |A| <= i ==> (A + B)[i] in B && (A + B)[j] in A;
  }

  lemma {:induction false} ScanLeft(A: seq<Trade>, B: seq<Trade>, rule: Rule, a: Book, b: Book, i: nat, n: nat)
    requires Fits(A, a) && Fits(B, b) && i < |A| && A[i].action == SELL && n <= |A|
    ensures Scan(A + B, rule, Joined(a, b), i, n) == Joined(Scan(A, rule, a, i, n), b)
  {
    if n > 0 {
      ScanLeft(A, B, rule, a, b, i, n - 1);
      AttemptLeft(A, B, rule, Scan(A, rule, a, i, n - 1), b, i, n - 1);
    }
  }

  lemma ScanMore(ts: seq<Trade>, rule: Rule, b: Book, i: nat, n: nat)
    requires Fits(ts, b) && i < |ts| && n < |ts| && ts[i].action == SELL
    ensures Scan(ts, rule, b, i, n + 1) == Attempt(ts, rule, Scan(ts, rule, b, i, n), i, n)
  {
  }

  lemma ScanRightNext(A: seq<Trade>, B: seq<Trade>, rule: Rule, a: Book, b: Book, i: nat, n: nat)
    requires Fits(A, a) && Fits(B, b) && i < |B| && B[i].action == SELL && n < |B|
    requires Scan(A + B, rule, Joined(a, b), |A| + i, |A| + n) == Joined(a, Scan(B, rule, b, i, n))
    ensures Scan(A + B, rule, Joined(a, b), |A| + i, |A| + n + 1) == Joined(a, Scan(B, rule, b, i, n + 1))
  {
    ScanMore(A + B, rule, Joined(a, b), |A| + i, |A| + n);
    ScanMore(B, rule, b, i, n);
    AttemptRight(A, B, rule, a, Scan(B, rule, b, i, n), i, n);
  }

  lemma {:induction false} ScanRight(A: seq<Trade>, B: seq<Trade>, rule: Rule, a: Book, b: Book, i: nat, n: nat)
    requires Fits(A, a) && Fits(B, b) && i < |B| && B[i].action == SELL && n <= |B| && Apart(rule, B, A)
    ensures Scan(A + B, rule, Joined(a, b), |A| + i, |A| + n) == Joined(a, Scan(B, rule, b, i, n))
  {
    if n == 0 {
      ScanAcross(A, B, rule, Joined(a, b), |A| + i, 0, |A|);
    } else {
      ScanRight(A, B, rule, a, b, i, n - 1);
      ScanRightNext(A, B, rule, a, b, i, n - 1);
    }
  }

  /** The part of the inner loop that runs over the other period's trades does nothing. */
  lemma {:induction false} ScanAcross(A: seq<Trade>, B: seq<Trade>, rule: Rule, b: Book, i: nat, m: nat, n: nat)
    requires Fits(A + B, b) && i < |A + B| && (A + B)[i].action == SELL && m <= n <= |A + B|
    requires (i < |A| <= m && Apart(rule, A, B)) || (n <= |A| <= i && Apart(rule, B, A))
    ensures Scan(A + B, rule, b, i, n) == Scan(A + B, rule, b, i, m)
  {
    if m < n {
      ScanAcross(A, B, rule, b, i, m, n - 1);
      AttemptAcross(A, B, rule, Scan(A + B, rule, b, i, n - 1), i, n - 1);
    }
  }

  // ----- Reaching across ---------------------------------------------------------------------

  /**
   Sale i of A, given `needed`, and purchase j of B, with `offered`, both have quantity and the rule
   would match them.
   */
  predicate Reaches(A: seq<Trade>, B: seq<Trade>, rule: Rule, needed: seq<real>, offered: seq<real>, i: int, j: int)
    requires |needed| == |A| && |offered| == |B|
  {
    && 0 <= i < |A| && 0 <= j < |B|
    && A[i].action == SELL && B[j].action == BUY && Eligible(rule, A[i], B[j])
    && needed[i] > 0.0 && offered[j] > 0.0
  }

  /** None of the first n sales of A reaches a purchase of B. */
  ghost predicate NoneReaches(A: seq<Trade>, B: seq<Trade>, rule: Rule, needed: seq<real>, offered: seq<real>, n: nat)
    requires |needed| == |A| && |offered| == |B|
  {
    forall i, j :: i < n ==> !Reaches(A, B, rule, needed, offered, i, j)
  }

  /** One of the matches is with the other part. */
  ghost predicate HasFar(ms: seq<MatchResult>, n: nat) {
    exists m :: m in ms && m.acquisition >= n
  }

  lemma {:induction false} ScanKeepsMatches(ts: seq<Trade>, rule: Rule, b: Book, i: nat, n: nat)
    requires Fits(ts, b) && i < |ts| && n <= |ts| && ts[i].action == SELL
    ensures forall k, m :: 0 <= k < |ts| && m in b.matches[k] ==> m in Scan(ts, rule, b, i, n).matches[k]
  {
    if n > 0 {
      ScanKeepsMatches(ts, rule, b, i, n - 1);
    }
  }

  lemma {:induction false} PassKeepsMatches(ts: seq<Trade>, rule: Rule, b: Book, l: nat, n: nat)
    requires Fits(ts, b) && l <= n <= |ts|
    ensures forall k, m :: 0 <= k < |ts| && m in Pass(ts, rule, b, l).matches[k] ==>
              m in Pass(ts, rule, b, n).matches[k]
  {
    if l < n {
      PassKeepsMatches(ts, rule, b, l, n - 1);
      if ts[n - 1].action == SELL {
        ScanKeepsMatches(ts, rule, Pass(ts, rule, b, n - 1), n - 1, |ts|);
      }
    }
  }

  lemma {:induction false} ScanLeavesSales(ts: seq<Trade>, rule: Rule, b: Book, d: nat, n: nat, i: nat)
    requires Fits(ts, b) && d < |ts| && n <= |ts| && i < |ts| && i != d && ts[d].action == ts[i].action == SELL
    ensures Scan(ts, rule, b, d, n).remaining[i] == b.remaining[i]
  {
    if n > 0 {
      ScanLeavesSales(ts, rule, b, d, n - 1, i);
    }
  }

  /** Once a sale has had its turn, no other changes what it needs. */
  lemma {:induction false} SaleIsSettled(ts: seq<Trade>, rule: Rule, b: Book, i: nat, n: nat)
    requires Fits(ts, b) && i < n <= |ts| && ts[i].action == SELL
    ensures Pass(ts, rule, b, n).remaining[i] == Pass(ts, rule, b, i + 1).remaining[i]
  {
    if i + 1 < n {
      SaleIsSettled(ts, rule, b, i, n - 1);
      if ts[n - 1].action == SELL {
        ScanLeavesSales(ts, rule, Pass(ts, rule, b, n - 1), n - 1, |ts|, i);
      }
    }
  }

  lemma AttemptReach(A: seq<Trade>, B: seq<Trade>, rule: Rule, a: Book, b: Book, i: nat, j: nat)
    requires Fits(A, a) && Fits(B, b) && i < |A| && j < |B| && A[i].action == SELL
    ensures var r := Attempt(A + B, rule, Joined(a, b), i, |A| + j);
            if Reaches(A, B, rule, a.remaining, b.remaining, i, j) then HasFar(r.matches[i], |A|) else r == Joined(a, b)
  {
    var whole := Joined(a, b);
    assert (A + B)[i] == A[i] && (A + B)[|A| + j] == B[j];
    if Reaches(A, B, rule, a.remaining, b.remaining, i, j) {
      var m := Purchased(rule, B[j], Min(a.remaining[i], b.remaining[j]), |A| + j);
      assert Attempt(A + B, rule, whole, i, |A| + j).matches[i] == whole.matches[i] + [m];
      assert m in whole.matches[i] + [m];
    }
  }

  /** What scanning on into B does to sale i of A, once it is done with A. */
  lemma {:induction false} ScanReach(A: seq<Trade>, B: seq<Trade>, rule: Rule, a: Book, b: Book, a': Book, i: nat,
                                     n: nat)
    requires Fits(A, a) && Fits(B, b) && i < |A| && A[i].action == SELL && n <= |B|
    requires a' == Scan(A, rule, a, i, |A|)
    ensures var r := Scan(A + B, rule, Joined(a, b), i, |A| + n);
            && ((forall j :: 0 <= j < n ==> !Reaches(A, B, rule, a'.remaining, b.remaining, i, j)) ==>
                r == Joined(a', b))
            && ((exists j :: 0 <= j < n && Reaches(A, B, rule, a'.remaining, b.remaining, i, j)) ==>
                HasFar(r.matches[i], |A|))
  {
    if n == 0 {
      ScanLeft(A, B, rule, a, b, i, |A|);
    } else {
      ScanReach(A, B, rule, a, b, a', i, n - 1);
      var before := Scan(A + B, rule, Joined(a, b), i, |A| + n - 1);
      if forall j :: 0 <= j < n - 1 ==> !Reaches(A, B, rule, a'.remaining, b.remaining, i, j) {
        AttemptReach(A, B, rule, a', b, i, n - 1);
      } else {
        var m :| m in before.matches[i] && m.acquisition >= |A|;
        assert m in Attempt(A + B, rule, before, i, |A| + n - 1).matches[i];
      }
    }
  }

  /** The pass over A's sales stays out of B exactly if none of them reaches a purchase there. */
  lemma {:induction false} PassReach(A: seq<Trade>, B: seq<Trade>, rule: Rule, a: Book, b: Book, n: nat)
    requires Fits(A, a) && Fits(B, b) && n <= |A|
    ensures var (needed, r) := (Pass(A, rule, a, |A|).remaining, Pass(A + B, rule, Joined(a, b), n));
            if NoneReaches(A, B, rule, needed, b.remaining, n) then r == Joined(Pass(A, rule, a, n), b)
            else exists k :: 0 <= k < n && HasFar(r.matches[k], |A|)
  {
    if n > 0 {
      PassReach(A, B, rule, a, b, n - 1);
      PassReachNext(A, B, rule, a, b, n - 1);
    }
  }

  lemma SaleReach(A: seq<Trade>, B: seq<Trade>, rule: Rule, a: Book, b: Book, i: nat)
    requires Fits(A, a) && Fits(B, b) && i < |A| && A[i].action == SELL
    requires Pass(A + B, rule, Joined(a, b), i) == Joined(Pass(A, rule, a, i), b)
    ensures var (needed, r) := (Pass(A, rule, a, |A|).remaining, Pass(A + B, rule, Joined(a, b), i + 1));
            && ((forall j :: !Reaches(A, B, rule, needed, b.remaining, i, j)) ==>
                r == Joined(Pass(A, rule, a, i + 1), b))
            && ((exists j :: Reaches(A, B, rule, needed, b.remaining, i, j)) ==> HasFar(r.matches[i], |A|))
  {
    var needed, a' := Pass(A, rule, a, |A|).remaining, Scan(A, rule, Pass(A, rule, a, i), i, |A|);
    SaleIsSettled(A, rule, a, i, |A|);
    assert a'.remaining[i] == needed[i];
    ScanReach(A, B, rule, Pass(A, rule, a, i), b, a', i, |B|);
    assert forall j :: Reaches(A, B, rule, a'.remaining, b.remaining, i, j) <==>
        Reaches(A, B, rule, needed, b.remaining, i, j);
  }

  lemma PassReachNext(A: seq<Trade>, B: seq<Trade>, rule: Rule, a: Book, b: Book, i: nat)
    requires Fits(A, a) && Fits(B, b) && i < |A|
    requires var (needed, r) := (Pass(A, rule, a, |A|).remaining, Pass(A + B, rule, Joined(a, b), i));
             if NoneReaches(A, B, rule, needed, b.remaining, i) then r == Joined(Pass(A, rule, a, i), b)
             else exists k :: 0 <= k < i && HasFar(r.matches[k], |A|)
    ensures var (needed, r) := (Pass(A, rule, a, |A|).remaining, Pass(A + B, rule, Joined(a, b), i + 1));
            if NoneReaches(A, B, rule, needed, b.remaining, i + 1) then r == Joined(Pass(A, rule, a, i + 1), b)
            else exists k :: 0 <= k < i + 1 && HasFar(r.matches[k], |A|)
  {
    var needed := Pass(A, rule, a, |A|).remaining;
    var r, r' := Pass(A + B, rule, Joined(a, b), i), Pass(A + B, rule, Joined(a, b), i + 1);
    if !NoneReaches(A, B, rule, needed, b.remaining, i) {
      var k :| 0 <= k < i && HasFar(r.matches[k], |A|);
      var m :| m in r.matches[k] && m.acquisition >= |A|;
      PassKeepsMatches(A + B, rule, Joined(a, b), i, i + 1);
      assert m in r'.matches[k] && HasFar(r'.matches[k], |A|);
    } else if A[i].action == SELL {
      SaleReach(A, B, rule, a, b, i);
    }
  }

  lemma PassRightNext(A: seq<Trade>, B: seq<Trade>, rule: Rule, a: Book, a': Book, b: Book, n: nat)
    requires Fits(A, a) && Fits(A, a') && Fits(B, b) && n < |B| && Apart(rule, B, A)
    requires Pass(A + B, rule, Joined(a, b), |A| + n) == Joined(a', Pass(B, rule, b, n))
    ensures Pass(A + B, rule, Joined(a, b), |A| + n + 1) == Joined(a', Pass(B, rule, b, n + 1))
  {
    assert (A + B)[|A| + n] == B[n];
    if B[n].action == SELL {
      ScanRight(A, B, rule, a', Pass(B, rule, b, n), n, |B|);
    }
  }

  lemma {:induction false} PassRight(A: seq<Trade>, B: seq<Trade>, rule: Rule, a: Book, b: Book, n: nat)
    requires Fits(A, a) && Fits(B, b) && n <= |B| && Apart(rule, B, A)
    requires NoneReaches(A, B, rule, Pass(A, rule, a, |A|).remaining, b.remaining, |A|)
    ensures Pass(A + B, rule, Joined(a, b), |A| + n) == Joined(Pass(A, rule, a, |A|), Pass(B, rule, b, n))
  {
    if n == 0 {
      PassReach(A, B, rule, a, b, |A|);
    } else {
      PassRight(A, B, rule, a, b, n - 1);
      PassRightNext(A, B, rule, a, Pass(A, rule, a, |A|), b, n - 1);
    }
  }

  // ----- The pool phase ----------------------------------------------------------------------

  lemma PoolStepLeft(A: seq<Trade>, B: seq<Trade>, a: Book, b: Book, p: Pool, i: nat)
    requires Fits(A, a) && Fits(B, b) && i < |A|
    ensures var r := PoolStep(A, a, p, i);
            PoolStep(A + B, Joined(a, b), p, i) == (Joined(r.0, b), r.1)
  {
    var whole, part := PoolStep(A + B, Joined(a, b), p, i), PoolStep(A, a, p, i);
    assert (A + B)[i] == A[i] && Joined(a, b).remaining[i] == a.remaining[i];
    assert whole.0.remaining == Joined(part.0, b).remaining;
    assert whole.0.matches == Joined(part.0, b).matches;
  }

  lemma {:induction false} PoolPassLeft(A: seq<Trade>, B: seq<Trade>, a: Book, b: Book, p: Pool, n: nat)
    requires Fits(A, a) && Fits(B, b) && n <= |A|
    ensures var r := PoolPass(A, a, p, n);
            PoolPass(A + B, Joined(a, b), p, n) == (Joined(r.0, b), r.1)
  {
    if n > 0 {
      PoolPassLeft(A, B, a, b, p, n - 1);
      var left := PoolPass(A, a, p, n - 1);
      PoolStepLeft(A, B, left.0, b, left.1, n - 1);
    }
  }

  lemma PoolStepRight(A: seq<Trade>, B: seq<Trade>, a: Book, b: Book, p: Pool, i: nat)
    requires Fits(A, a) && Fits(B, b) && i < |B|
    ensures var r := PoolStep(B, b, p, i);
            PoolStep(A + B, Joined(a, b), p, |A| + i) == (Joined(a, r.0), r.1)
  {
    var whole, part := PoolStep(A + B, Joined(a, b), p, |A| + i), PoolStep(B, b, p, i);
    assert (A + B)[|A| + i] == B[i] && Joined(a, b).remaining[|A| + i] == b.remaining[i];
    MovedAllOne(b.matches[i], Drawn(p, Min(b.remaining[i], p.quantity)), |A|);
    assert whole.0.remaining == Joined(a, part.0).remaining;
    assert whole.0.matches == Joined(a, part.0).matches;
  }

  lemma {:induction false} PoolPassRight(A: seq<Trade>, B: seq<Trade>, a: Book, b: Book, p: Pool, n: nat)
    requires Fits(A, a) && Fits(B, b) && n <= |B|
    ensures var left := PoolPass(A, a, p, |A|);
            var right := PoolPass(B, b, left.1, n);
            PoolPass(A + B, Joined(a, b), p, |A| + n) == (Joined(left.0, right.0), right.1)
  {
    if n == 0 {
      PoolPassLeft(A, B, a, b, p, |A|);
    } else {
      PoolPassRight(A, B, a, b, p, n - 1);
      var left := PoolPass(A, a, p, |A|);
      var right := PoolPass(B, b, left.1, n - 1);
      PoolStepRight(A, B, left.0, right.0, right.1, n - 1);
    }
  }

  // ----- Results -----------------------------------------------------------------------------

  /** Every match names a trade or the pool. */
  ghost predicate Named(ts: seq<Trade>, matches: seq<seq<MatchResult>>) {
    forall k, m :: 0 <= k < |matches| && m in matches[k] ==> NO_TRADE <= m.acquisition < |ts|
  }

  lemma {:induction false} ScanNamed(ts: seq<Trade>, rule: Rule, b: Book, i: nat, n: nat)
    requires Fits(ts, b) && i < |ts| && n <= |ts| && ts[i].action == SELL && Named(ts, b.matches)
    ensures Named(ts, Scan(ts, rule, b, i, n).matches)
  {
    if n > 0 {
      ScanNamed(ts, rule, b, i, n - 1);
    }
  }

  lemma {:induction false} PassNamed(ts: seq<Trade>, rule: Rule, b: Book, n: nat)
    requires Fits(ts, b) && n <= |ts| && Named(ts, b.matches)
    ensures Named(ts, Pass(ts, rule, b, n).matches)
  {
    if n > 0 {
      PassNamed(ts, rule, b, n - 1);
      if ts[n - 1].action == SELL {
        ScanNamed(ts, rule, Pass(ts, rule, b, n - 1), n - 1, |ts|);
      }
    }
  }

  lemma {:induction false} PoolPassNamed(ts: seq<Trade>, b: Book, p: Pool, n: nat)
    requires Fits(ts, b) && n <= |ts| && Named(ts, b.matches)
    ensures Named(ts, PoolPass(ts, b, p, n).0.matches)
  {
    if n > 0 {
      PoolPassNamed(ts, b, p, n - 1);
    }
  }

  lemma MatchedNamed(ts: seq<Trade>, p: Pool)
    ensures Named(ts, Matched(ts, p).0.matches)
  {
    PassNamed(ts, SameDay, Opening(ts), |ts|);
    PassNamed(ts, ThirtyDay, AfterSameDay(ts), |ts|);
    PoolPassNamed(ts, AfterThirtyDay(ts), p, |ts|);
  }

  lemma {:induction false} MatchedIDsLeft(A: seq<Trade>, B: seq<Trade>, ms: seq<MatchResult>)
    requires forall m :: m in ms ==> m.acquisition < |A|
    ensures MatchedIDs(A + B, ms) == MatchedIDs(A, ms)
  {
    if ms != [] {
      MatchedIDsLeft(A, B, ms[..|ms| - 1]);
    }
  }

  lemma {:induction false} MatchedIDsRight(A: seq<Trade>, B: seq<Trade>, ms: seq<MatchResult>)
    ensures MatchedIDs(A + B, MovedAll(ms, |A|)) == MatchedIDs(B, ms)
  {
    if ms != [] {
      var n := |ms| - 1;
      MatchedIDsRight(A, B, ms[..n]);
      assert MovedAll(ms, |A|)[..n] == MovedAll(ms[..n], |A|);
    }
  }

  lemma {:induction false} SumByMoved(f: MatchResult -> real, ms: seq<MatchResult>, shift: nat)
    requires forall m: MatchResult, k: nat :: f(Moved(m, k)) == f(m)
    ensures SumBy(f, MovedAll(ms, shift)) == SumBy(f, ms)
  {
    if ms != [] {
      var n := |ms| - 1;
      SumByMoved(f, ms[..n], shift);
      assert MovedAll(ms, shift)[..n] == MovedAll(ms[..n], shift);
    }
  }

  lemma BuildDisposalRight(A: seq<Trade>, B: seq<Trade>, d: Trade, ms: seq<MatchResult>)
    ensures BuildDisposal(A + B, d, MovedAll(ms, |A|)) == BuildDisposal(B, d, ms)
  {
    MatchedIDsRight(A, B, ms);
    SumByMoved(ResultCost, ms, |A|);
    SumByMoved(ResultQuantity, ms, |A|);
  }

  lemma BuildDisposalLeft(A: seq<Trade>, B: seq<Trade>, d: Trade, ms: seq<MatchResult>)
    requires forall m :: m in ms ==> m.acquisition < |A|
    ensures BuildDisposal(A + B, d, ms) == BuildDisposal(A, d, ms)
  {
    MatchedIDsLeft(A, B, ms);
  }

  lemma {:induction false} ResultsLeft(A: seq<Trade>, B: seq<Trade>, a: Book, b: Book, n: nat)
    requires Fits(A, a) && Fits(B, b) && n <= |A| && Named(A, a.matches)
    ensures Results(A + B, Joined(a, b).matches, n) == Results(A, a.matches, n)
  {
    if n > 0 {
      ResultsLeft(A, B, a, b, n - 1);
      BuildDisposalLeft(A, B, A[n - 1], a.matches[n - 1]);
      assert Joined(a, b).matches[n - 1] == a.matches[n - 1] && (A + B)[n - 1] == A[n - 1];
    }
  }

  lemma {:induction false} ResultsRight(A: seq<Trade>, B: seq<Trade>, a: Book, b: Book, n: nat)
    requires Fits(A, a) && Fits(B, b) && n <= |B| && Named(A, a.matches)
    ensures Results(A + B, Joined(a, b).matches, |A| + n)
         == Results(A, a.matches, |A|) + Results(B, b.matches, n)
  {
    if n == 0 {
      ResultsLeft(A, B, a, b, |A|);
    } else {
      ResultsRight(A, B, a, b, n - 1);
      BuildDisposalRight(A, B, B[n - 1], b.matches[n - 1]);
    }
  }

  // ----- The theorem -------------------------------------------------------------------------

  /** B comes on later days than A. */
  ghost predicate Later(A: seq<Trade>, B: seq<Trade>) {
    forall s, t :: s in A && t in B ==> TruncateDay(s.timestamp) < TruncateDay(t.timestamp)
  }

  /** No sale that A leaves unmatched could be matched under the 30-day rule with what B has left after its own days. */
  ghost predicate OutOfReach(A: seq<Trade>, B: seq<Trade>) {
    NoneReaches(A, B, ThirtyDay, AfterThirtyDay(A).remaining, AfterSameDay(B).remaining, |A|)
  }

  lemma OpeningJoined(A: seq<Trade>, B: seq<Trade>)
    ensures Opening(A + B) == Joined(Opening(A), Opening(B))
  {
    assert Opening(A + B).remaining == Joined(Opening(A), Opening(B)).remaining;
    assert Opening(A + B).matches == Joined(Opening(A), Opening(B)).matches;
  }

  lemma LaterIsApart(A: seq<Trade>, B: seq<Trade>)
    requires Later(A, B)
    ensures Apart(SameDay, A, B) && Apart(SameDay, B, A) && Apart(ThirtyDay, B, A)
  {
  }

  lemma SameDayJoined(A: seq<Trade>, B: seq<Trade>)
    requires Later(A, B)
    ensures AfterSameDay(A + B) == Joined(AfterSameDay(A), AfterSameDay(B))
  {
    assert |A + B| == |A| + |B|;
    LaterIsApart(A, B);
    OpeningJoined(A, B);
    forall i, j ensures !Reaches(A, B, SameDay, AfterSameDay(A).remaining, Opening(B).remaining, i, j) {
      if 0 <= i < |A| && 0 <= j < |B| {
        assert A[i] in A && B[j] in B;
      }
    }
    PassRight(A, B, SameDay, Opening(A), Opening(B), |B|);
  }

  lemma PassesJoined(A: seq<Trade>, B: seq<Trade>)
    requires Later(A, B) && OutOfReach(A, B)
    ensures AfterThirtyDay(A + B) == Joined(AfterThirtyDay(A), AfterThirtyDay(B))
  {
    assert |A + B| == |A| + |B|;
    LaterIsApart(A, B);
    SameDayJoined(A, B);
    PassRight(A, B, ThirtyDay, AfterSameDay(A), AfterSameDay(B), |B|);
  }

  /** Before the pool, a sale of A has no match in B in the joined books. */
  lemma JoinedHasNoFar(A: seq<Trade>, B: seq<Trade>, k: nat)
    requires k < |A|
    ensures !HasFar(Joined(AfterThirtyDay(A), AfterThirtyDay(B)).matches[k], |A|)
  {
    PassNamed(A, SameDay, Opening(A), |A|);
    PassNamed(A, ThirtyDay, AfterSameDay(A), |A|);
    assert Joined(AfterThirtyDay(A), AfterThirtyDay(B)).matches[k] == AfterThirtyDay(A).matches[k];
  }

  /**
   For a period of later days, both rules match the two periods together as they match each by itself
   exactly when no sale left over from the one reaches a purchase left over in the other.
   */
  lemma RulesSplitExactly(A: seq<Trade>, B: seq<Trade>)
    requires Later(A, B)
    ensures AfterThirtyDay(A + B) == Joined(AfterThirtyDay(A), AfterThirtyDay(B)) <==> OutOfReach(A, B)
  {
    if OutOfReach(A, B) {
      PassesJoined(A, B);
    } else {
      assert |A + B| == |A| + |B|;
      SameDayJoined(A, B);
      PassReach(A, B, ThirtyDay, AfterSameDay(A), AfterSameDay(B), |A|);
      var r := Pass(A + B, ThirtyDay, AfterSameDay(A + B), |A|);
      var k :| 0 <= k < |A| && HasFar(r.matches[k], |A|);
      var m :| m in r.matches[k] && m.acquisition >= |A|;
      PassKeepsMatches(A + B, ThirtyDay, AfterSameDay(A + B), |A|, |A + B|);
      assert m in AfterThirtyDay(A + B).matches[k];
      JoinedHasNoFar(A, B, k);
    }
  }

  lemma MatchedJoined(A: seq<Trade>, B: seq<Trade>, p: Pool)
    requires Later(A, B) && OutOfReach(A, B)
    ensures var left := Matched(A, p);
            var right := Matched(B, left.1);
            Matched(A + B, p) == (Joined(left.0, right.0), right.1)
  {
    assert |A + B| == |A| + |B|;
    PassesJoined(A, B);
    PoolPassRight(A, B, AfterThirtyDay(A), AfterThirtyDay(B), p, |B|);
  }

  /** Then matching A and B together is matching A, then matching B from the pool that A leaves. */
  lemma PeriodSplitting(A: seq<Trade>, B: seq<Trade>, p: Pool)
    requires Later(A, B) && OutOfReach(A, B)
    ensures Disposals(A + B, p) == Disposals(A, p) + Disposals(B, ClosingPool(A, p))
    ensures ClosingPool(A + B, p) == ClosingPool(B, ClosingPool(A, p))
  {
    assert |A + B| == |A| + |B|;
    MatchedJoined(A, B, p);
    MatchedNamed(A, p);
    ResultsRight(A, B, Matched(A, p).0, Matched(B, ClosingPool(A, p)).0, |B|);
  }

  // ----- Exactly when periods split ----------------------------------------------------------

  lemma {:induction false} PoolKeepsMatches(ts: seq<Trade>, b: Book, p: Pool, n: nat)
    requires Fits(ts, b) && n <= |ts|
    ensures forall k, m :: 0 <= k < |ts| && m in b.matches[k] ==> m in PoolPass(ts, b, p, n).0.matches[k]
  {
    if n > 0 {
      PoolKeepsMatches(ts, b, p, n - 1);
    }
  }

  /** The acquisitions named by a disposal are among the trades. */
  lemma {:induction false} IDsAmong(ts: seq<Trade>, ms: seq<MatchResult>)
    ensures forall id :: id in MatchedIDs(ts, ms) ==> exists t :: t in ts && t.id == id
  {
    if ms != [] {
      IDsAmong(ts, ms[..|ms| - 1]);
    }
  }

  lemma {:induction false} IDIsNamed(ts: seq<Trade>, ms: seq<MatchResult>, m: MatchResult)
    requires m in ms && 0 <= m.acquisition < |ts| && ts[m.acquisition].id != ""
    ensures ts[m.acquisition].id in MatchedIDs(ts, ms)
  {
    if m != ms[|ms| - 1] {
      IDIsNamed(ts, ms[..|ms| - 1], m);
    }
  }

  /** The result of sale k comes after those of the sales before it. */
  lemma {:induction false} ResultAt(ts: seq<Trade>, matches: seq<seq<MatchResult>>, k: nat, n: nat)
    requires |matches| == |ts| && k < n <= |ts| && ts[k].action == SELL
    ensures |Results(ts, matches, k)| < |Results(ts, matches, n)|
    ensures Results(ts, matches, n)[|Results(ts, matches, k)|] == BuildDisposal(ts, ts[k], matches[k])
  {
    if k + 1 < n {
      ResultAt(ts, matches, k, n - 1);
    }
  }

  lemma {:induction false} SameCount(A: seq<Trade>, B: seq<Trade>, whole: seq<seq<MatchResult>>,
                                     part: seq<seq<MatchResult>>, n: nat)
    requires |whole| == |A + B| && |part| == |A| && n <= |A|
    ensures |Results(A + B, whole, n)| == |Results(A, part, n)|
  {
    if n > 0 {
      SameCount(A, B, whole, part, n - 1);
    }
  }

  /** Where the periods reach across, some sale of A is matched with a trade of B. */
  lemma FarMatch(A: seq<Trade>, B: seq<Trade>, p: Pool) returns (k: nat, m: MatchResult)
    requires Later(A, B) && !OutOfReach(A, B)
    ensures k < |A| && A[k].action == SELL
    ensures m in Matched(A + B, p).0.matches[k] && |A| <= m.acquisition < |A + B|
  {
    var ts := A + B;
    SameDayJoined(A, B);
    PassReach(A, B, ThirtyDay, AfterSameDay(A), AfterSameDay(B), |A|);
    var r := Pass(ts, ThirtyDay, AfterSameDay(ts), |A|);
    k :| 0 <= k < |A| && HasFar(r.matches[k], |A|);
    m :| m in r.matches[k] && m.acquisition >= |A|;
    OpeningSound(ts);
    PassSound(ts, SameDay, Opening(ts), |ts|);
    PassSound(ts, ThirtyDay, AfterSameDay(ts), |A|);
    assert SoundAt(ts, r, k);
    PassKeepsMatches(ts, ThirtyDay, AfterSameDay(ts), |A|, |ts|);
    PoolKeepsMatches(ts, AfterThirtyDay(ts), p, |ts|);
    MatchedNamed(ts, p);
  }

  /** Every trade of B has an id, and none of A has the same. */
  ghost predicate OwnIDs(A: seq<Trade>, B: seq<Trade>) {
    forall t :: t in B ==> t.id != "" && forall s :: s in A ==> s.id != t.id
  }

  lemma FarMatchShows(A: seq<Trade>, B: seq<Trade>, p: Pool)
    requires Later(A, B) && !OutOfReach(A, B) && OwnIDs(A, B)
    ensures Disposals(A + B, p) != Disposals(A, p) + Disposals(B, ClosingPool(A, p))
  {
    var k, m := FarMatch(A, B, p);
    var whole, part := Matched(A + B, p).0.matches, Matched(A, p).0.matches;
    ResultAt(A + B, whole, k, |A + B|);
    ResultAt(A, part, k, |A|);
    SameCount(A, B, whole, part, k);
    var i := |Results(A, part, k)|;
    var t := B[m.acquisition - |A|];
    assert t in B && (A + B)[m.acquisition] == t;
    IDIsNamed(A + B, whole[k], m);
    IDsAmong(A, part[k]);
    assert t.id in Disposals(A + B, p)[i].matchedWith && t.id !in Disposals(A, p)[i].matchedWith;
  }

  /**
   For a period of later days whose trades have ids of their own, matching A and B together gives the
   disposals of A and then those of B exactly when no sale left over from A reaches a purchase left
   over in B.
   */
  lemma PeriodsSplitExactly(A: seq<Trade>, B: seq<Trade>, p: Pool)
    requires Later(A, B) && OwnIDs(A, B)
    ensures Disposals(A + B, p) == Disposals(A, p) + Disposals(B, ClosingPool(A, p)) <==> OutOfReach(A, B)
  {
    if OutOfReach(A, B) {
      PeriodSplitting(A, B, p);
    } else {
      FarMatchShows(A, B, p);
    }
  }

  // ----- In any order the sort may leave ------------------------------------------------------

  lemma LessMultiset<T>(a: multiset<T>, b: multiset<T>)
    requires a <= b
    ensures |a| <= |b|
  {
    assert b == a + (b - a);
  }

  /** A trade among the first |X| of a time order is one of the earlier trades X. */
  lemma EarlierFirst(S: seq<Trade>, X: seq<Trade>, Y: seq<Trade>, k: nat)
    requires Chronological(S, X + Y) && k < |X| && k < |S|
    requires forall s, t :: s in X && t in Y ==> s.timestamp < t.timestamp
    ensures S[k] !in Y
  {
    if S[k] in Y {
      assert S == S[..k] + S[k..];
      forall t ensures multiset(X)[t] <= multiset(S[..k])[t] {
        assert multiset(X + Y)[t] == multiset(X)[t] + multiset(Y)[t];
        assert multiset(S)[t] == multiset(S[..k])[t] + multiset(S[k..])[t];
        if t in X {
          assert t !in S[k..];
        }
      }
      LessMultiset(multiset(X), multiset(S[..k]));
    }
  }

  lemma LaterLast(S: seq<Trade>, X: seq<Trade>, Y: seq<Trade>, k: nat)
    requires Chronological(S, X + Y) && |X| <= k < |S|
    requires forall s, t :: s in X && t in Y ==> s.timestamp < t.timestamp
    ensures S[k] !in X
  {
    if S[k] in X {
      assert S == S[..k + 1] + S[k + 1..];
      forall t ensures multiset(S[..k + 1])[t] <= multiset(X)[t] {
        assert multiset(X + Y)[t] == multiset(X)[t] + multiset(Y)[t];
        assert multiset(S)[t] == multiset(S[..k + 1])[t] + multiset(S[k + 1..])[t];
        if t in S[..k + 1] {
          assert t !in Y;
        }
      }
      LessMultiset(multiset(S[..k + 1]), multiset(X));
    }
  }

  lemma SplitCounts(S: seq<Trade>, X: seq<Trade>, Y: seq<Trade>, n: nat)
    requires n <= |S| && multiset(S) == multiset(X + Y)
    requires forall k :: 0 <= k < n ==> S[k] !in Y
    requires forall k :: n <= k < |S| ==> S[k] !in X
    requires forall s, t :: s in X && t in Y ==> s.timestamp < t.timestamp
    ensures multiset(S[..n]) == multiset(X) && multiset(S[n..]) == multiset(Y)
  {
    assert S == S[..n] + S[n..];
    assert multiset(X + Y) == multiset(X) + multiset(Y);
    forall t ensures multiset(S[..n])[t] == multiset(X)[t] && multiset(S[n..])[t] == multiset(Y)[t] {
      assert multiset(S)[t] == multiset(S[..n])[t] + multiset(S[n..])[t];
      assert multiset(S)[t] == multiset(X)[t] + multiset(Y)[t];
      assert t in S[..n] ==> t !in Y;
      assert t in S[n..] ==> t !in X;
      assert t in X ==> t !in Y;
    }
  }

  lemma SplitOrder(S: seq<Trade>, X: seq<Trade>, Y: seq<Trade>)
    requires Chronological(S, X + Y)
    requires forall s, t :: s in X && t in Y ==> s.timestamp < t.timestamp
    ensures |X| <= |S| && Chronological(S[..|X|], X) && Chronological(S[|X|..], Y)
  {
    var n := |X|;
    assert |S| == |multiset(S)| == |multiset(X + Y)| == |X| + |Y|;
    forall k | 0 <= k < |S| ensures (k < n ==> S[k] !in Y) && (k >= n ==> S[k] !in X) {
      if k < n {
        EarlierFirst(S, X, Y, k);
      } else {
        LaterLast(S, X, Y, k);
      }
    }
    SplitCounts(S, X, Y, n);
  }

  /** B comes on later days than A, and buys nothing within 30 days of A's disposals. */
  ghost predicate Separate(A: seq<Trade>, B: seq<Trade>) {
    forall s, t :: s in A && t in B ==>
      && TruncateDay(s.timestamp) < TruncateDay(t.timestamp)
      && (s.action == SELL && t.action == BUY ==> TruncateDay(s.timestamp) + 30 < TruncateDay(t.timestamp))
  }

  lemma SeparateIsOutOfReach(A: seq<Trade>, B: seq<Trade>)
    requires Separate(A, B)
    ensures Later(A, B) && OutOfReach(A, B)
  {
    forall i, j ensures !Reaches(A, B, ThirtyDay, AfterThirtyDay(A).remaining, AfterSameDay(B).remaining, i, j) {
      if 0 <= i < |A| && 0 <= j < |B| {
        assert A[i] in A && B[j] in B;
      }
    }
  }

  lemma SeparateOrders(A: seq<Trade>, B: seq<Trade>, X: seq<Trade>, Y: seq<Trade>)
    requires multiset(A) == multiset(X) && multiset(B) == multiset(Y) && Separate(X, Y)
    ensures Separate(A, B)
  {
    forall s, t | s in A && t in B ensures s in X && t in Y {
      assert s in multiset(A) && t in multiset(B);
    }
  }

  /**
   Whatever order the unstable sort leaves the trades of two separate periods in, the result is
   that of the two periods one after the other, each in the order it has there.
   */
  lemma PeriodsInAnyOrder(S: seq<Trade>, X: seq<Trade>, Y: seq<Trade>, p: Pool)
    requires Chronological(S, X + Y) && Separate(X, Y)
    ensures |X| <= |S| && Chronological(S[..|X|], X) && Chronological(S[|X|..], Y)
    ensures Disposals(S, p) == Disposals(S[..|X|], p) + Disposals(S[|X|..], ClosingPool(S[..|X|], p))
    ensures ClosingPool(S, p) == ClosingPool(S[|X|..], ClosingPool(S[..|X|], p))
  {
    SplitOrder(S, X, Y);
    var A, B := S[..|X|], S[|X|..];
    assert S == A + B;
    SeparateOrders(A, B, X, Y);
    SeparateIsOutOfReach(A, B);
    PeriodSplitting(A, B, p);
  }

  // ----- Thirty days is not enough ------------------------------------------------------------

  const SALE := Trade("s", 0, "BTC", SPOT, SELL, 1.0, 9.0, 0.0)
  const REBUY := Trade("b", 30 * MS_PER_DAY, "BTC", SPOT, BUY, 1.0, 7.0, 0.0)

  lemma SaleAlone()
    ensures ClosingPool([SALE], Pool(1.0, 5.0)) == Pool(0.0, 0.0)
  {
    var ts := [SALE];
    var b := Opening(ts);
    assert Scan(ts, SameDay, b, 0, 1) == b;
    assert Pass(ts, SameDay, b, 0) == b;
    assert Pass(ts, SameDay, b, 1) == b;
    assert Scan(ts, ThirtyDay, b, 0, 1) == b;
    assert Pass(ts, ThirtyDay, b, 0) == b;
    assert Pass(ts, ThirtyDay, b, 1) == b;
    assert PoolPass(ts, b, Pool(1.0, 5.0), 1) == Draw(ts, b, Pool(1.0, 5.0), 0);
  }

  lemma RebuyAlone()
    ensures ClosingPool([REBUY], Pool(0.0, 0.0)) == Pool(1.0, 7.0)
  {
    var ts := [REBUY];
    var b := Opening(ts);
    assert Pass(ts, SameDay, b, 1) == Pass(ts, SameDay, b, 0) == b;
    assert Pass(ts, ThirtyDay, b, 1) == Pass(ts, ThirtyDay, b, 0) == b;
    assert PoolPass(ts, b, Pool(0.0, 0.0), 1) == PoolStep(ts, b, Pool(0.0, 0.0), 0);
    assert PoolStep(ts, b, Pool(0.0, 0.0), 0).1 == Topped(Pool(0.0, 0.0), REBUY, 1.0);
  }

  lemma SaleThenRebuy()
    ensures ClosingPool([SALE] + [REBUY], Pool(1.0, 5.0)) == Pool(1.0, 5.0)
  {
    var ts := [SALE] + [REBUY];
    var p := Pool(1.0, 5.0);
    var b := Opening(ts);
    assert Scan(ts, SameDay, b, 0, 1) == b;
    assert Scan(ts, SameDay, b, 0, 2) == b;
    assert Pass(ts, SameDay, b, 1) == b;
    assert AfterSameDay(ts) == b;
    assert Scan(ts, ThirtyDay, b, 0, 1) == b;
    var b' := Scan(ts, ThirtyDay, b, 0, 2);
    assert b' == Transfer(ts, ThirtyDay, b, 0, 1, 1.0);
    assert Pass(ts, ThirtyDay, b, 1) == b';
    assert AfterThirtyDay(ts) == b';
    assert PoolPass(ts, b', p, 1) == (b', p);
    assert PoolPass(ts, b', p, 2) == (b', p);
  }

  /** A purchase 30 days after a disposal still reaches back, so a split between the two changes the pool. */
  lemma ThirtyDaysReachBack()
    ensures ClosingPool([SALE] + [REBUY], Pool(1.0, 5.0))
         != ClosingPool([REBUY], ClosingPool([SALE], Pool(1.0, 5.0)))
  {
    SaleAlone();
    RebuyAlone();
    SaleThenRebuy();
  }
}
