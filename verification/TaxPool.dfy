/**
 What the Section 104 pool gives, said without any loop: a sale takes the lesser of what the rules
 before have left of it and what the pool then holds, at the average cost of what it holds.  Over all
 trades the pool falls short by exactly the worst excess of needs over holdings.
 */
module TaxPool {
  import opened Sums
  import opened TaxMatching
  import opened TaxConservation
  import opened TaxPriority
  import opened TaxAllocation
  import opened TaxReport

  // ----- What goes in and what is due --------------------------------------------------------

  /** What the purchases among the first n trades put into the pool, when `left` is left of each trade. */
  function Added(ts: seq<Trade>, left: seq<real>, n: nat): (q: real)
    requires |left| == |ts| && n <= |ts|
    ensures q >= 0.0
  {
    if n == 0 then 0.0 else Added(ts, left, n - 1) + if ts[n - 1].action == BUY then Max(0.0, left[n - 1]) else 0.0
  }

  function AddedCost(ts: seq<Trade>, left: seq<real>, n: nat): real
    requires |left| == |ts| && n <= |ts|
  {
    if n == 0 then 0.0
    else
      AddedCost(ts, left, n - 1)
      + if ts[n - 1].action == BUY then Max(0.0, left[n - 1]) * AcqCostPerUnit(ts[n - 1]) else 0.0
  }

  /** What the pool owes trade k. */
  function PoolDue(ts: seq<Trade>, left: seq<real>, p: Pool, k: nat): (q: real)
    requires |left| == |ts| && k < |ts|
    ensures q >= 0.0
    decreases k, 2
  {
    if ts[k].action == SELL then Max(0.0, Min(left[k], Holding(ts, left, p, k))) else 0.0
  }

  /** What the pool holds after the first n trades: all that went in, less all that it owed. */
  function Holding(ts: seq<Trade>, left: seq<real>, p: Pool, n: nat): real
    requires |left| == |ts| && n <= |ts|
    decreases n, 1
  {
    p.quantity + Added(ts, left, n) - Owed(ts, left, p, n)
  }

  function Owed(ts: seq<Trade>, left: seq<real>, p: Pool, n: nat): (q: real)
    requires |left| == |ts| && n <= |ts|
    ensures q >= 0.0
    decreases n, 0
  {
    if n == 0 then 0.0 else Owed(ts, left, p, n - 1) + PoolDue(ts, left, p, n - 1)
  }

  /** The cost of what it owes trade k: that share of the cost of all that it holds. */
  function CostDue(ts: seq<Trade>, left: seq<real>, p: Pool, k: nat): real
    requires |left| == |ts| && k < |ts|
    decreases k, 2
  {
    var q := PoolDue(ts, left, p, k);
    if q > 0.0 then q * (HoldingCost(ts, left, p, k) / Holding(ts, left, p, k)) else 0.0
  }

  function HoldingCost(ts: seq<Trade>, left: seq<real>, p: Pool, n: nat): real
    requires |left| == |ts| && n <= |ts|
    decreases n, 1
  {
    p.cost + AddedCost(ts, left, n) - OwedCost(ts, left, p, n)
  }

  function OwedCost(ts: seq<Trade>, left: seq<real>, p: Pool, n: nat): real
    requires |left| == |ts| && n <= |ts|
    decreases n, 0
  {
    if n == 0 then 0.0 else OwedCost(ts, left, p, n - 1) + CostDue(ts, left, p, n - 1)
  }

  /** The match of trade k with the pool, if anything is due. */
  function PoolMatch(ts: seq<Trade>, left: seq<real>, p: Pool, k: nat): seq<MatchResult>
    requires |left| == |ts| && k < |ts|
  {
    var q := PoolDue(ts, left, p, k);
    if q > 0.0 then [MatchResult(q, CostDue(ts, left, p, k), Section104, NO_TRADE)] else []
  }

  /** What is left of trade k once the pool has dealt with it. */
  function LeftOver(ts: seq<Trade>, left: seq<real>, p: Pool, k: nat): real
    requires |left| == |ts| && k < |ts|
  {
    match ts[k].action
    case BUY => Min(0.0, left[k])
    case SELL => left[k] - PoolDue(ts, left, p, k)
    case OTHER => left[k]
  }

  // ----- The pool gives what is due ----------------------------------------------------------

  /** The first n trades have been given their due, and the others nothing yet. */
  ghost predicate GivenDue(ts: seq<Trade>, b: Book, p: Pool, b': Book, p': Pool, n: nat)
    requires Fits(ts, b) && Fits(ts, b') && n <= |ts|
  {
    && p' == Pool(Holding(ts, b.remaining, p, n), HoldingCost(ts, b.remaining, p, n))
    && (forall k :: 0 <= k < n ==>
          && b'.remaining[k] == LeftOver(ts, b.remaining, p, k)
          && b'.matches[k] == b.matches[k] + PoolMatch(ts, b.remaining, p, k))
    && (forall k :: n <= k < |ts| ==> b'.remaining[k] == b.remaining[k] && b'.matches[k] == b.matches[k])
  }

  lemma HoldingNext(ts: seq<Trade>, left: seq<real>, p: Pool, n: nat)
    requires |left| == |ts| && n < |ts|
    ensures var (q, pooled) := (PoolDue(ts, left, p, n), if ts[n].action == BUY then Max(0.0, left[n]) else 0.0);
            && Holding(ts, left, p, n + 1) == Holding(ts, left, p, n) + pooled - q
            && HoldingCost(ts, left, p, n + 1) ==
               HoldingCost(ts, left, p, n) + pooled * AcqCostPerUnit(ts[n]) - CostDue(ts, left, p, n)
  {
    assert 0.0 * AcqCostPerUnit(ts[n]) == 0.0;
  }

  lemma OtherGivesDue(ts: seq<Trade>, b: Book, p: Pool, b': Book, p': Pool, n: nat)
    requires Fits(ts, b) && Fits(ts, b') && n < |ts| && GivenDue(ts, b, p, b', p', n) && ts[n].action != SELL
    ensures var r := PoolStep(ts, b', p', n); GivenDue(ts, b, p, r.0, r.1, n + 1)
  {
    HoldingNext(ts, b.remaining, p, n);
    assert 0.0 * AcqCostPerUnit(ts[n]) == 0.0;
    assert PoolMatch(ts, b.remaining, p, n) == [];
    assert b.matches[n] + [] == b.matches[n];
  }

  lemma DrawIsDue(ts: seq<Trade>, b: Book, p: Pool, b': Book, p': Pool, n: nat)
    requires Fits(ts, b) && Fits(ts, b') && n < |ts| && GivenDue(ts, b, p, b', p', n) && ts[n].action == SELL
    ensures var (r, q) := (PoolStep(ts, b', p', n), PoolDue(ts, b.remaining, p, n));
            && r.0.remaining[n] == b'.remaining[n] - q
            && r.0.matches[n] == b'.matches[n] + PoolMatch(ts, b.remaining, p, n)
            && r.1 == Pool(p'.quantity - q, p'.cost - CostDue(ts, b.remaining, p, n))
            && (forall k :: 0 <= k < |ts| && k != n ==>
                  r.0.remaining[k] == b'.remaining[k] && r.0.matches[k] == b'.matches[k])
  {
    var q := PoolDue(ts, b.remaining, p, n);
    assert b'.matches[n] + [] == b'.matches[n];
    if q > 0.0 {
      assert q == Min(b'.remaining[n], p'.quantity);
      assert Drawn(p', q) == MatchResult(q, CostDue(ts, b.remaining, p, n), Section104, NO_TRADE);
    }
  }

  lemma SaleGivesDue(ts: seq<Trade>, b: Book, p: Pool, b': Book, p': Pool, n: nat)
    requires Fits(ts, b) && Fits(ts, b') && n < |ts| && GivenDue(ts, b, p, b', p', n) && ts[n].action == SELL
    ensures var r := PoolStep(ts, b', p', n); GivenDue(ts, b, p, r.0, r.1, n + 1)
  {
    HoldingNext(ts, b.remaining, p, n);
    assert 0.0 * AcqCostPerUnit(ts[n]) == 0.0;
    DrawIsDue(ts, b, p, b', p', n);
  }

  /**
   The pool phase gives every sale exactly its due, at the average cost of what the pool holds, takes
   in all that is left of every purchase, and holds what that comes to.
   */
  lemma {:induction false} PoolGivesDue(ts: seq<Trade>, b: Book, p: Pool, n: nat)
    requires Fits(ts, b) && n <= |ts|
    ensures var r := PoolPass(ts, b, p, n); GivenDue(ts, b, p, r.0, r.1, n)
  {
    if n > 0 {
      PoolGivesDue(ts, b, p, n - 1);
      var (b', p') := PoolPass(ts, b, p, n - 1);
      if ts[n - 1].action == SELL {
        SaleGivesDue(ts, b, p, b', p', n - 1);
      } else {
        OtherGivesDue(ts, b, p, b', p', n - 1);
      }
    }
  }

  /** What the two rules leave of each trade. */
  function AfterRules(ts: seq<Trade>): (left: seq<real>)
    ensures |left| == |ts|
  {
    LeftAfter(ts, ThirtyDay, LeftAfter(ts, SameDay, Opening(ts).remaining))
  }

  /**
   The matches of a sale, all three rules in sequence, and the pool that is left: no loop, and nothing
   of the passes that make them.
   */
  lemma AllRulesGiveDue(ts: seq<Trade>, p: Pool, i: nat)
    requires i < |ts| && ts[i].action == SELL
    ensures var (all, left) := (Opening(ts).remaining, AfterRules(ts));
            && Matched(ts, p).0.matches[i] ==
               DueMatches(ts, SameDay, all, i, |ts|) + DueMatches(ts, ThirtyDay, LeftAfter(ts, SameDay, all), i, |ts|)
               + PoolMatch(ts, left, p, i)
            && ClosingPool(ts, p) == Pool(Holding(ts, left, p, |ts|), HoldingCost(ts, left, p, |ts|))
  {
    RulesGiveDue(ts, i);
    PoolGivesDue(ts, AfterThirtyDay(ts), p, |ts|);
  }

  // ----- How far the pool falls short --------------------------------------------------------

  /** What the rules have left of the sales among the first n trades. */
  function Needed(ts: seq<Trade>, left: seq<real>, n: nat): (q: real)
    requires |left| == |ts| && n <= |ts|
    ensures q >= 0.0
  {
    if n == 0 then 0.0 else Needed(ts, left, n - 1) + if ts[n - 1].action == SELL then Max(0.0, left[n - 1]) else 0.0
  }

  /** What the pool would hold, or be overdrawn by, if it always gave all that is needed. */
  function Level(ts: seq<Trade>, left: seq<real>, p: Pool, n: nat): real
    requires |left| == |ts| && n <= |ts|
  {
    p.quantity + Added(ts, left, n) - Needed(ts, left, n)
  }

  /** What the first n sales are left short of. */
  function Short(ts: seq<Trade>, left: seq<real>, p: Pool, n: nat): real
    requires |left| == |ts| && n <= |ts|
  {
    Needed(ts, left, n) - Owed(ts, left, p, n)
  }

  /** s is the deepest overdraft that the level reaches, or zero. */
  ghost predicate IsWorst(ts: seq<Trade>, left: seq<real>, p: Pool, n: nat, s: real)
    requires |left| == |ts| && n <= |ts|
  {
    && s >= 0.0
    && (forall j :: 0 <= j <= n ==> -Level(ts, left, p, j) <= s)
    && (s == 0.0 || exists j :: 0 <= j <= n && -Level(ts, left, p, j) == s)
  }

  lemma ShortNext(ts: seq<Trade>, left: seq<real>, p: Pool, n: nat)
    requires |left| == |ts| && n < |ts|
    ensures var need := if ts[n].action == SELL then Max(0.0, left[n]) else 0.0;
            && Short(ts, left, p, n + 1) == Short(ts, left, p, n) + need - PoolDue(ts, left, p, n)
            && Level(ts, left, p, n + 1) >= Level(ts, left, p, n) - need
            && (ts[n].action == SELL ==> Level(ts, left, p, n + 1) == Level(ts, left, p, n) - need)
            && Holding(ts, left, p, n) == Level(ts, left, p, n) + Short(ts, left, p, n)
  {
  }

  lemma WorstNext(ts: seq<Trade>, left: seq<real>, p: Pool, n: nat)
    requires |left| == |ts| && n < |ts|
    requires Holding(ts, left, p, n) >= 0.0 && IsWorst(ts, left, p, n, Short(ts, left, p, n))
    ensures Holding(ts, left, p, n + 1) >= 0.0 && IsWorst(ts, left, p, n + 1, Short(ts, left, p, n + 1))
  {
    var s, s' := Short(ts, left, p, n), Short(ts, left, p, n + 1);
    ShortNext(ts, left, p, n);
    HoldingNext(ts, left, p, n);
    if s' == s {
      if s > 0.0 {
        var j :| 0 <= j <= n && -Level(ts, left, p, j) == s;
        assert -Level(ts, left, p, j) == s';
      }
    } else {
      assert -Level(ts, left, p, n + 1) == s';
    }
  }

  /**
   Together the sales are left short of exactly the deepest overdraft that there would be if the pool
   gave without limit.
   */
  lemma {:induction false} WorstShortfall(ts: seq<Trade>, left: seq<real>, p: Pool, n: nat)
    requires |left| == |ts| && n <= |ts| && p.quantity >= 0.0
    ensures Holding(ts, left, p, n) >= 0.0 && IsWorst(ts, left, p, n, Short(ts, left, p, n))
  {
    if n == 0 {
      assert Level(ts, left, p, 0) == p.quantity;
    } else {
      WorstShortfall(ts, left, p, n - 1);
      WorstNext(ts, left, p, n - 1);
    }
  }

  lemma {:induction false} NothingShort(ts: seq<Trade>, left: seq<real>, p: Pool, n: nat)
    requires |left| == |ts| && n <= |ts|
    ensures Short(ts, left, p, n) >= 0.0
    ensures Short(ts, left, p, n) == 0.0 <==>
              forall k :: 0 <= k < n && ts[k].action == SELL ==> PoolDue(ts, left, p, k) == Max(0.0, left[k])
  {
    if n > 0 {
      NothingShort(ts, left, p, n - 1);
      ShortNext(ts, left, p, n - 1);
    }
  }

  /** A sale is matched in full exactly when the pool has given all that the rules left of it. */
  lemma MatchedInFull(ts: seq<Trade>, p: Pool, k: nat)
    requires k < |ts| && ts[k].action == SELL
    ensures ts[k].quantity > 0.0 ==>
              (SumBy(ResultQuantity, Matched(ts, p).0.matches[k]) == ts[k].quantity <==>
               PoolDue(ts, AfterThirtyDay(ts).remaining, p, k) == Max(0.0, AfterThirtyDay(ts).remaining[k]))
    ensures ts[k].quantity <= 0.0 ==>
              PoolDue(ts, AfterThirtyDay(ts).remaining, p, k) == Max(0.0, AfterThirtyDay(ts).remaining[k])
  {
    AfterThirtyDaySound(ts);
    assert SoundAt(ts, AfterThirtyDay(ts), k);
    PoolPassKeeps(ts, AfterThirtyDay(ts), p, |ts|);
    assert SoundAt(ts, Matched(ts, p).0, k);
    PoolGivesDue(ts, AfterThirtyDay(ts), p, |ts|);
  }

  /**
   Every disposal is matched in full exactly when the opening pool and what the rules leave of the
   purchases cover, at every point in time order, what they leave of the sales.
   */
  lemma FullyMatchedExactly(ts: seq<Trade>, p: Pool)
    requires p.quantity >= 0.0
    ensures FullyMatched(ts, p) <==> forall j :: 0 <= j <= |ts| ==> Level(ts, AfterRules(ts), p, j) >= 0.0
  {
    var left := AfterRules(ts);
    LeftIsAfterRules(ts);
    WorstShortfall(ts, left, p, |ts|);
    NothingShort(ts, left, p, |ts|);
    forall k | 0 <= k < |ts| && ts[k].action == SELL
      ensures ts[k].quantity > 0.0 ==>
                (SumBy(ResultQuantity, Matched(ts, p).0.matches[k]) == ts[k].quantity <==>
                 PoolDue(ts, left, p, k) == Max(0.0, left[k]))
      ensures ts[k].quantity <= 0.0 ==> PoolDue(ts, left, p, k) == Max(0.0, left[k])
    {
      MatchedInFull(ts, p, k);
    }
  }

  lemma LeftIsAfterRules(ts: seq<Trade>)
    ensures AfterThirtyDay(ts).remaining == AfterRules(ts)
  {
    PassGivesDue(ts, SameDay, Opening(ts), |ts|);
    PassGivesDue(ts, ThirtyDay, AfterSameDay(ts), |ts|);
    assert AfterSameDay(ts).remaining == LeftAfter(ts, SameDay, Opening(ts).remaining);
    assert AfterThirtyDay(ts).remaining == LeftAfter(ts, ThirtyDay, AfterSameDay(ts).remaining);
  }

  // ----- The disposals -----------------------------------------------------------------------

  /** The cost of what the rule gives disposal i of the first n trades: each at its own unit cost. */
  function CostGiven(ts: seq<Trade>, rule: Rule, left: seq<real>, i: nat, n: nat): real
    requires |left| == |ts| && i < |ts| && n <= |ts|
  {
    if n == 0 then 0.0
    else CostGiven(ts, rule, left, i, n - 1) + Due(ts, rule, left, i, n - 1) * AcqCostPerUnit(ts[n - 1])
  }

  /** The identifiers of those acquisitions, where they have one. */
  function IDsGiven(ts: seq<Trade>, rule: Rule, left: seq<real>, i: nat, n: nat): seq<string>
    requires |left| == |ts| && i < |ts| && n <= |ts|
  {
    if n == 0 then []
    else
      IDsGiven(ts, rule, left, i, n - 1)
      + if Due(ts, rule, left, i, n - 1) > 0.0 && ts[n - 1].id != "" then [ts[n - 1].id] else []
  }

  lemma OneMoreDue(ts: seq<Trade>, rule: Rule, before: seq<MatchResult>, q: real, k: nat)
    requires k < |ts| && q >= 0.0
    ensures var ms := before + if q > 0.0 then [Purchased(rule, ts[k], q, k)] else [];
            && SumBy(ResultQuantity, ms) == SumBy(ResultQuantity, before) + q
            && SumBy(ResultCost, ms) == SumBy(ResultCost, before) + q * AcqCostPerUnit(ts[k])
  {
    if q > 0.0 {
      SumByOne(ResultQuantity, before, Purchased(rule, ts[k], q, k));
      SumByOne(ResultCost, before, Purchased(rule, ts[k], q, k));
    } else {
      assert before + [] == before && 0.0 * AcqCostPerUnit(ts[k]) == 0.0;
    }
  }

  /** One more trade: all that what the rule gives is made of grows by its share. */
  lemma DueNext(ts: seq<Trade>, rule: Rule, left: seq<real>, i: nat, n: nat) returns (q: real)
    requires |left| == |ts| && i < |ts| && n < |ts|
    ensures q == Due(ts, rule, left, i, n) >= 0.0
    ensures GivenTo(ts, rule, left, i, n + 1) == GivenTo(ts, rule, left, i, n) + q
    ensures CostGiven(ts, rule, left, i, n + 1) == CostGiven(ts, rule, left, i, n) + q * AcqCostPerUnit(ts[n])
    ensures DueMatches(ts, rule, left, i, n + 1) ==
            DueMatches(ts, rule, left, i, n) + if q > 0.0 then [Purchased(rule, ts[n], q, n)] else []
  {
    q := Due(ts, rule, left, i, n);
  }

  ghost predicate SumsDue(ts: seq<Trade>, rule: Rule, left: seq<real>, i: nat, n: nat)
    requires |left| == |ts| && i < |ts| && n <= |ts|
  {
    && SumBy(ResultQuantity, DueMatches(ts, rule, left, i, n)) == GivenTo(ts, rule, left, i, n)
    && SumBy(ResultCost, DueMatches(ts, rule, left, i, n)) == CostGiven(ts, rule, left, i, n)
  }

  lemma DueSumsNext(ts: seq<Trade>, rule: Rule, left: seq<real>, i: nat, n: nat)
    requires |left| == |ts| && i < |ts| && n < |ts| && SumsDue(ts, rule, left, i, n)
    ensures SumsDue(ts, rule, left, i, n + 1)
  {
    var q := DueNext(ts, rule, left, i, n);
    OneMoreDue(ts, rule, DueMatches(ts, rule, left, i, n), q, n);
  }

  lemma {:induction false} DueSums(ts: seq<Trade>, rule: Rule, left: seq<real>, i: nat, n: nat)
    requires |left| == |ts| && i < |ts| && n <= |ts|
    ensures SumsDue(ts, rule, left, i, n)
  {
    if n > 0 {
      DueSums(ts, rule, left, i, n - 1);
      DueSumsNext(ts, rule, left, i, n - 1);
    }
  }

  lemma {:induction false} DueIDs(ts: seq<Trade>, rule: Rule, left: seq<real>, i: nat, n: nat)
    requires |left| == |ts| && i < |ts| && n <= |ts|
    ensures MatchedIDs(ts, DueMatches(ts, rule, left, i, n)) == IDsGiven(ts, rule, left, i, n)
  {
    if n > 0 {
      DueIDs(ts, rule, left, i, n - 1);
      var before, q := DueMatches(ts, rule, left, i, n - 1), Due(ts, rule, left, i, n - 1);
      if q > 0.0 {
        assert (before + [Purchased(rule, ts[n - 1], q, n - 1)])[..|before|] == before;
      } else {
        assert before + [] == before;
      }
    }
  }

  lemma {:induction false} DueFirst(ts: seq<Trade>, rule: Rule, left: seq<real>, i: nat, n: nat)
    requires |left| == |ts| && i < |ts| && n <= |ts|
    ensures var ms := DueMatches(ts, rule, left, i, n);
            (ms == [] <==> GivenTo(ts, rule, left, i, n) == 0.0) && (ms != [] ==> ms[0].rule == rule)
  {
    if n > 0 {
      DueFirst(ts, rule, left, i, n - 1);
    }
  }

  lemma {:induction false} MatchedIDsAppend(ts: seq<Trade>, a: seq<MatchResult>, b: seq<MatchResult>)
    ensures MatchedIDs(ts, a + b) == MatchedIDs(ts, a) + MatchedIDs(ts, b)
  {
    if b == [] {
      assert a + b == a && MatchedIDs(ts, a) + [] == MatchedIDs(ts, a);
    } else {
      MatchedIDsAppend(ts, a, b[..|b| - 1]);
      assert (a + b)[..|a + b| - 1] == a + b[..|b| - 1];
    }
  }

  lemma PoolMatchIs(ts: seq<Trade>, left: seq<real>, p: Pool, i: nat)
    requires |left| == |ts| && i < |ts|
    ensures var ms := PoolMatch(ts, left, p, i);
            && SumBy(ResultQuantity, ms) == PoolDue(ts, left, p, i)
            && SumBy(ResultCost, ms) == CostDue(ts, left, p, i)
            && MatchedIDs(ts, ms) == []
  {
    var ms := PoolMatch(ts, left, p, i);
    if ms != [] {
      assert ms[..0] == [];
    }
  }

  /** What all three rules give a sale, and at what cost. */
  function Quantity(ts: seq<Trade>, p: Pool, i: nat): real
    requires i < |ts|
  {
    var all := Opening(ts).remaining;
    GivenTo(ts, SameDay, all, i, |ts|) + GivenTo(ts, ThirtyDay, LeftAfter(ts, SameDay, all), i, |ts|)
    + PoolDue(ts, AfterRules(ts), p, i)
  }

  function Cost(ts: seq<Trade>, p: Pool, i: nat): real
    requires i < |ts|
  {
    var all := Opening(ts).remaining;
    CostGiven(ts, SameDay, all, i, |ts|) + CostGiven(ts, ThirtyDay, LeftAfter(ts, SameDay, all), i, |ts|)
    + CostDue(ts, AfterRules(ts), p, i)
  }

  lemma MatchesAddUp(ts: seq<Trade>, p: Pool, i: nat)
    requires i < |ts| && ts[i].action == SELL
    ensures var (all, ms) := (Opening(ts).remaining, Matched(ts, p).0.matches[i]);
            var rest := LeftAfter(ts, SameDay, all);
            && SumBy(ResultQuantity, ms) == Quantity(ts, p, i)
            && SumBy(ResultCost, ms) == Cost(ts, p, i)
            && MatchedIDs(ts, ms) == IDsGiven(ts, SameDay, all, i, |ts|) + IDsGiven(ts, ThirtyDay, rest, i, |ts|)
  {
    var all := Opening(ts).remaining;
    var rest := LeftAfter(ts, SameDay, all);
    var a, b := DueMatches(ts, SameDay, all, i, |ts|), DueMatches(ts, ThirtyDay, rest, i, |ts|);
    var c := PoolMatch(ts, AfterRules(ts), p, i);
    AllRulesGiveDue(ts, p, i);
    DueSums(ts, SameDay, all, i, |ts|);
    DueSums(ts, ThirtyDay, rest, i, |ts|);
    DueIDs(ts, SameDay, all, i, |ts|);
    DueIDs(ts, ThirtyDay, rest, i, |ts|);
    PoolMatchIs(ts, AfterRules(ts), p, i);
    SumByAppend(ResultQuantity, a, b);
    SumByAppend(ResultQuantity, a + b, c);
    SumByAppend(ResultCost, a, b);
    SumByAppend(ResultCost, a + b, c);
    MatchedIDsAppend(ts, a, b);
    MatchedIDsAppend(ts, a + b, c);
  }

  /** The first rule that gives anything. */
  lemma FirstRule(ts: seq<Trade>, p: Pool, i: nat)
    requires i < |ts| && ts[i].action == SELL
    ensures var (all, ms) := (Opening(ts).remaining, Matched(ts, p).0.matches[i]);
            if GivenTo(ts, SameDay, all, i, |ts|) > 0.0 then ms != [] && ms[0].rule == SameDay
            else if GivenTo(ts, ThirtyDay, LeftAfter(ts, SameDay, all), i, |ts|) > 0.0 then
              ms != [] && ms[0].rule == ThirtyDay
            else if PoolDue(ts, AfterRules(ts), p, i) > 0.0 then ms != [] && ms[0].rule == Section104
            else ms == []
  {
    var all := Opening(ts).remaining;
    AllRulesGiveDue(ts, p, i);
    DueFirst(ts, SameDay, all, i, |ts|);
    DueFirst(ts, ThirtyDay, LeftAfter(ts, SameDay, all), i, |ts|);
  }

  /** How many sales there are among the first n trades. */
  function Sales(ts: seq<Trade>, n: nat): nat
    requires n <= |ts|
  {
    if n == 0 then 0 else Sales(ts, n - 1) + if ts[n - 1].action == SELL then 1 else 0
  }

  lemma {:induction false} ResultsAt(ts: seq<Trade>, matches: seq<seq<MatchResult>>, n: nat)
    requires |matches| == |ts| && n <= |ts|
    ensures |Results(ts, matches, n)| == Sales(ts, n)
    ensures forall k :: 0 <= k < n && ts[k].action == SELL ==>
              && Sales(ts, k) < Sales(ts, n)
              && Results(ts, matches, n)[Sales(ts, k)] == BuildDisposal(ts, ts[k], matches[k])
  {
    if n > 0 {
      ResultsAt(ts, matches, n - 1);
    }
  }

  lemma Prorated(quantity: real, whole: real, net: real)
    requires whole > 0.0
    ensures Times(quantity / whole * net, whole) == Times(quantity, net)
  {
    assert quantity / whole * whole == quantity;
    assert quantity / whole * net * whole == quantity / whole * whole * net;
  }

  lemma BuiltIs(ts: seq<Trade>, t: Trade, ms: seq<MatchResult>, q: real)
    requires q == SumBy(ResultQuantity, ms) && q >= 0.0
    ensures var d := BuildDisposal(ts, t, ms);
            && d.date == t.timestamp && d.symbol == t.symbol && d.quantity == q && d.costGBP == SumBy(ResultCost, ms)
            && (t.quantity > 0.0 ==> Times(d.proceedsGBP, t.quantity) == Times(q, t.notionalGBP - t.feesGBP))
            && (t.quantity <= 0.0 ==> d.proceedsGBP == 0.0)
            && d.gainGBP == d.proceedsGBP - d.costGBP
            && d.matchType == (if ms == [] then Unmatched else By(ms[0].rule))
            && d.matchedWith == MatchedIDs(ts, ms)
  {
    if t.quantity > 0.0 {
      Prorated(q, t.quantity, t.notionalGBP - t.feesGBP);
      assert Times(0.0, t.notionalGBP - t.feesGBP) == 0.0 && Times(0.0, t.quantity) == 0.0;
    }
  }

  /**
   One disposal for each sale, in time order: the quantity and the cost that the three rules give it,
   the proceeds that belong to that quantity, the gain, the first rule that gives anything, and the
   identifiers of the acquisitions matched.
   */
  lemma DisposalIs(ts: seq<Trade>, p: Pool, i: nat)
    requires i < |ts| && ts[i].action == SELL
    ensures |Disposals(ts, p)| == Sales(ts, |ts|) && Sales(ts, i) < Sales(ts, |ts|)
    ensures var (t, d, all) := (ts[i], Disposals(ts, p)[Sales(ts, i)], Opening(ts).remaining);
            var rest := LeftAfter(ts, SameDay, all);
            && d.date == t.timestamp && d.symbol == t.symbol
            && d.quantity == Quantity(ts, p, i) && d.costGBP == Cost(ts, p, i)
            && (t.quantity > 0.0 ==> Times(d.proceedsGBP, t.quantity) == Times(d.quantity, t.notionalGBP - t.feesGBP))
            && (t.quantity <= 0.0 ==> d.proceedsGBP == 0.0)
            && d.gainGBP == d.proceedsGBP - d.costGBP
            && d.matchType == (if GivenTo(ts, SameDay, all, i, |ts|) > 0.0 then By(SameDay)
                               else if GivenTo(ts, ThirtyDay, rest, i, |ts|) > 0.0 then By(ThirtyDay)
                               else if PoolDue(ts, AfterRules(ts), p, i) > 0.0 then By(Section104)
                               else Unmatched)
            && d.matchedWith == IDsGiven(ts, SameDay, all, i, |ts|) + IDsGiven(ts, ThirtyDay, rest, i, |ts|)
  {
    ResultsAt(ts, Matched(ts, p).0.matches, |ts|);
    MatchesAddUp(ts, p, i);
    FirstRule(ts, p, i);
    BuiltIs(ts, ts[i], Matched(ts, p).0.matches[i], Quantity(ts, p, i));
  }

  // ----- Days --------------------------------------------------------------------------------

  /** When a day begins, in milliseconds. */
  function Midnight(day: int): int {
    day * 86_400_000
  }

  /** A purchase is eligible exactly when it is of the day of the sale, or of the 30 days after it. */
  lemma EligibleExactly(sell: Trade, buy: Trade)
    ensures Eligible(SameDay, sell, buy) <==>
              exists d ::
                Midnight(d) <= sell.timestamp < Midnight(d + 1) && Midnight(d) <= buy.timestamp < Midnight(d + 1)
    ensures Eligible(ThirtyDay, sell, buy) <==>
              exists d :: Midnight(d) <= sell.timestamp < Midnight(d + 1) <= buy.timestamp < Midnight(d + 31)
  {
    var d, e := TruncateDay(sell.timestamp), TruncateDay(buy.timestamp);
    DayIs(sell.timestamp);
    DayIs(buy.timestamp);
    if d == e {
      assert Midnight(d) <= sell.timestamp < Midnight(d + 1);
    }
    if d < e <= d + 30 {
      assert Midnight(d) <= sell.timestamp < Midnight(d + 1) <= buy.timestamp < Midnight(d + 31);
    }
  }

  lemma DayIs(t: int)
    ensures forall d :: Midnight(d) <= t <==> d <= TruncateDay(t)
  {
  }
}
