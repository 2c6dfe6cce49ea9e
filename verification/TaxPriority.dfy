/**
 The order of the rules: same-day matches first and in full, then acquisitions of the next 30 days,
 earliest first, and the pool only for what neither can match.
 */
module TaxPriority {
  import opened Sums
  import opened TaxMatching
  import opened TaxConservation

  // ----- Remaining quantities only fall ------------------------------------------------------

  ghost predicate Lower(b': Book, b: Book) {
    && |b'.remaining| == |b.remaining|
    && forall k :: 0 <= k < |b.remaining| ==> b'.remaining[k] <= b.remaining[k]
  }

  lemma {:induction false} ScanLowers(ts: seq<Trade>, rule: Rule, b: Book, i: nat, m: nat, n: nat)
    requires Fits(ts, b) && i < |ts| && m <= n <= |ts| && ts[i].action == SELL
    ensures Lower(Scan(ts, rule, b, i, n), Scan(ts, rule, b, i, m))
  {
    if m < n {
      ScanLowers(ts, rule, b, i, m, n - 1);
    }
  }

  lemma {:induction false} PassLowers(ts: seq<Trade>, rule: Rule, b: Book, m: nat, n: nat)
    requires Fits(ts, b) && m <= n <= |ts|
    ensures Lower(Pass(ts, rule, b, n), Pass(ts, rule, b, m))
  {
    if m < n {
      PassLowers(ts, rule, b, m, n - 1);
      if ts[n - 1].action == SELL {
        ScanLowers(ts, rule, Pass(ts, rule, b, n - 1), n - 1, 0, |ts|);
      }
    }
  }

  // ----- Nothing a rule can match is left ----------------------------------------------------

  /** Acquisition j could be matched with disposal i. */
  predicate Pairs(ts: seq<Trade>, rule: Rule, i: int, j: int) {
    && 0 <= i < |ts| && 0 <= j < |ts|
    && ts[i].action == SELL && ts[j].action == BUY && Eligible(rule, ts[i], ts[j])
  }

  predicate Spent(b: Book, k: int)
    requires 0 <= k < |b.remaining|
  {
    b.remaining[k] <= 0.0
  }

  /** Of the first m disposals and first n acquisitions, none that pair both have quantity left. */
  ghost predicate Exhausted(ts: seq<Trade>, rule: Rule, b: Book, m: nat, n: nat)
    requires Fits(ts, b)
  {
    forall i, j :: Pairs(ts, rule, i, j) && i < m && j < n ==> Spent(b, i) || Spent(b, j)
  }

  lemma {:induction false} ScanExhausts(ts: seq<Trade>, rule: Rule, b: Book, i: nat, n: nat, j: nat)
    requires Fits(ts, b) && i < |ts| && j < n <= |ts| && Pairs(ts, rule, i, j)
    ensures var b' := Scan(ts, rule, b, i, n); Spent(b', i) || Spent(b', j)
  {
    ScanLowers(ts, rule, b, i, j + 1, n);
  }

  lemma {:induction false} PassExhausts(ts: seq<Trade>, rule: Rule, b: Book, n: nat)
    requires Fits(ts, b) && n <= |ts|
    ensures Exhausted(ts, rule, Pass(ts, rule, b, n), n, |ts|)
  {
    if n > 0 {
      PassExhausts(ts, rule, b, n - 1);
      PassLowers(ts, rule, b, n - 1, n);
      forall j | Pairs(ts, rule, n - 1, j)
        ensures var b' := Pass(ts, rule, b, n); Spent(b', n - 1) || Spent(b', j)
      {
        ScanExhausts(ts, rule, Pass(ts, rule, b, n - 1), n - 1, |ts|, j);
      }
    }
  }

  /**
   After the 30-day pass no disposal and acquisition both have quantity left when the acquisition
   is of the same day or of the next 30 days.
   */
  lemma NothingLeftToMatch(ts: seq<Trade>)
    ensures Exhausted(ts, SameDay, AfterThirtyDay(ts), |ts|, |ts|)
    ensures Exhausted(ts, ThirtyDay, AfterThirtyDay(ts), |ts|, |ts|)
  {
    PassExhausts(ts, SameDay, Opening(ts), |ts|);
    PassExhausts(ts, ThirtyDay, AfterSameDay(ts), |ts|);
    PassLowers(ts, ThirtyDay, AfterSameDay(ts), 0, |ts|);
  }

  // ----- First come, first served ------------------------------------------------------------

  /** A match is as the rule allows, and no earlier acquisition or disposal still could have had it. */
  ghost predicate Fair(ts: seq<Trade>, rule: Rule, b: Book, i: nat, m: MatchResult)
    requires Fits(ts, b) && i < |ts|
  {
    && Pairs(ts, rule, i, m.acquisition)
    && m.quantity > 0.0
    && m.costGBP == m.quantity * AcqCostPerUnit(ts[m.acquisition])
    && (forall j :: Pairs(ts, rule, i, j) && j < m.acquisition ==> Spent(b, j))
    && (forall d :: Pairs(ts, rule, d, m.acquisition) && d < i ==> Spent(b, d))
  }

  ghost predicate AllFair(ts: seq<Trade>, rule: Rule, b: Book)
    requires Fits(ts, b)
  {
    forall i, m :: 0 <= i < |ts| && m in b.matches[i] && m.rule == rule ==> Fair(ts, rule, b, i, m)
  }

  lemma AttemptFair(ts: seq<Trade>, rule: Rule, b: Book, i: nat, j: nat)
    requires Fits(ts, b) && i < |ts| && j < |ts| && ts[i].action == SELL
    requires AllFair(ts, rule, b) && Exhausted(ts, rule, b, i, |ts|)
    requires forall k :: Pairs(ts, rule, i, k) && k < j ==> Spent(b, i) || Spent(b, k)
    ensures AllFair(ts, rule, Attempt(ts, rule, b, i, j))
  {
    var b' := Attempt(ts, rule, b, i, j);
    forall d, m | 0 <= d < |ts| && m in b'.matches[d] && m.rule == rule
      ensures Fair(ts, rule, b', d, m)
    {
      if m in b.matches[d] {
        assert Fair(ts, rule, b, d, m);
      } else {
        assert d == i && Matches(ts, rule, b, i, j);
        assert m == Purchased(rule, ts[j], Min(b.remaining[i], b.remaining[j]), j);
      }
    }
  }

  lemma {:induction false} ScanFair(ts: seq<Trade>, rule: Rule, b: Book, i: nat, n: nat)
    requires Fits(ts, b) && i < |ts| && n <= |ts| && ts[i].action == SELL
    requires AllFair(ts, rule, b) && Exhausted(ts, rule, b, i, |ts|)
    ensures AllFair(ts, rule, Scan(ts, rule, b, i, n))
  {
    if n > 0 {
      ScanFair(ts, rule, b, i, n - 1);
      ScanLowers(ts, rule, b, i, 0, n - 1);
      var before := Scan(ts, rule, b, i, n - 1);
      forall k | Pairs(ts, rule, i, k) && k < n - 1 ensures Spent(before, i) || Spent(before, k) {
        ScanExhausts(ts, rule, b, i, n - 1, k);
      }
      AttemptFair(ts, rule, before, i, n - 1);
    }
  }

  lemma {:induction false} PassFair(ts: seq<Trade>, rule: Rule, b: Book, n: nat)
    requires Fits(ts, b) && n <= |ts| && AllFair(ts, rule, b)
    ensures AllFair(ts, rule, Pass(ts, rule, b, n))
  {
    if n > 0 {
      PassFair(ts, rule, b, n - 1);
      PassExhausts(ts, rule, b, n - 1);
      if ts[n - 1].action == SELL {
        ScanFair(ts, rule, Pass(ts, rule, b, n - 1), n - 1, |ts|);
      }
    }
  }

  /** A pass under one rule makes no match under another. */
  lemma {:induction false} ScanOnly(ts: seq<Trade>, rule: Rule, b: Book, i: nat, n: nat)
    requires Fits(ts, b) && i < |ts| && n <= |ts| && ts[i].action == SELL
    ensures forall k, m :: 0 <= k < |ts| && m in Scan(ts, rule, b, i, n).matches[k] ==>
              m in b.matches[k] || m.rule == rule
  {
    if n > 0 {
      ScanOnly(ts, rule, b, i, n - 1);
    }
  }

  lemma {:induction false} PassOnly(ts: seq<Trade>, rule: Rule, b: Book, n: nat)
    requires Fits(ts, b) && n <= |ts|
    ensures forall k, m :: 0 <= k < |ts| && m in Pass(ts, rule, b, n).matches[k] ==>
              m in b.matches[k] || m.rule == rule
  {
    if n > 0 {
      PassOnly(ts, rule, b, n - 1);
      if ts[n - 1].action == SELL {
        ScanOnly(ts, rule, Pass(ts, rule, b, n - 1), n - 1, |ts|);
      }
    }
  }

  /**
   Every same-day and every 30-day match takes from the first acquisition the rule offers its
   disposal, and goes to the first disposal the rule offers its acquisition: any earlier one has
   nothing left.
   */
  lemma FirstComeFirstServed(ts: seq<Trade>)
    ensures AllFair(ts, SameDay, AfterThirtyDay(ts)) && AllFair(ts, ThirtyDay, AfterThirtyDay(ts))
  {
    PassFair(ts, SameDay, Opening(ts), |ts|);
    PassOnly(ts, SameDay, Opening(ts), |ts|);
    PassFair(ts, ThirtyDay, AfterSameDay(ts), |ts|);
    PassOnly(ts, ThirtyDay, AfterSameDay(ts), |ts|);
    PassLowers(ts, ThirtyDay, AfterSameDay(ts), 0, |ts|);
    forall i, m | 0 <= i < |ts| && m in AfterThirtyDay(ts).matches[i] && m.rule == SameDay
      ensures Fair(ts, SameDay, AfterThirtyDay(ts), i, m)
    {
      assert Fair(ts, SameDay, AfterSameDay(ts), i, m);
    }
  }

  // ----- The pool is the last resort ---------------------------------------------------------

  predicate UsesPool(ms: seq<MatchResult>) {
    exists m :: m in ms && m.rule == Section104
  }

  lemma {:induction false} PoolPassLocal(ts: seq<Trade>, b: Book, p: Pool, n: nat)
    requires Fits(ts, b) && n <= |ts|
    ensures var b' := PoolPass(ts, b, p, n).0;
            && (forall k :: n <= k < |ts| ==> b'.remaining[k] == b.remaining[k] && b'.matches[k] == b.matches[k])
            && (forall k :: 0 <= k < n && UsesPool(b'.matches[k]) ==>
                  UsesPool(b.matches[k]) || (ts[k].action == SELL && b.remaining[k] > 0.0))
  {
    if n > 0 {
      PoolPassLocal(ts, b, p, n - 1);
    }
  }

  /**
   A disposal draws on the pool only if every acquisition of its day and of the next 30 days has
   been matched in full, so that none of it is in the pool.
   */
  lemma PoolIsLastResort(ts: seq<Trade>, p: Pool, i: nat, j: nat)
    requires i < |ts| && UsesPool(Matched(ts, p).0.matches[i])
    requires Pairs(ts, SameDay, i, j) || Pairs(ts, ThirtyDay, i, j)
    ensures Spent(AfterThirtyDay(ts), j)
  {
    PassOnly(ts, SameDay, Opening(ts), |ts|);
    PassOnly(ts, ThirtyDay, AfterSameDay(ts), |ts|);
    PoolPassLocal(ts, AfterThirtyDay(ts), p, |ts|);
    NothingLeftToMatch(ts);
  }

  // ----- Each day in full --------------------------------------------------------------------

  predicate OnDay(day: int, t: Trade) {
    TruncateDay(t.timestamp) == day
  }

  predicate PurchasedOn(day: int, t: Trade) {
    IsPurchase(t) && OnDay(day, t)
  }

  predicate DisposedOn(day: int, t: Trade) {
    t.action == SELL && t.quantity > 0.0 && OnDay(day, t)
  }

  function BoughtOn(day: int): Trade -> real {
    (t: Trade) => if PurchasedOn(day, t) then t.quantity else 0.0
  }

  function SoldOn(day: int): Trade -> real {
    (t: Trade) => if DisposedOn(day, t) then t.quantity else 0.0
  }

  function PurchaseOn(day: int): Trade -> bool {
    (t: Trade) => PurchasedOn(day, t)
  }

  function SaleOn(day: int): Trade -> bool {
    (t: Trade) => DisposedOn(day, t)
  }

  predicate NoTrade(t: Trade) {
    false
  }

  function SameDayQuantity(m: MatchResult): real {
    if m.rule == SameDay then m.quantity else 0.0
  }

  /** What the day's disposals match under the same-day rule. */
  function SameDayMatched(ts: seq<Trade>, matches: seq<seq<MatchResult>>, day: int): real
    requires |ts| == |matches|
  {
    Total(SameDayQuantity, SaleOn(day), ts, matches)
  }

  lemma {:induction false} RemainingNonnegative(held: Trade -> bool, ts: seq<Trade>, r: seq<real>)
    requires |ts| == |r|
    requires forall k :: 0 <= k < |ts| && held(ts[k]) ==> r[k] >= 0.0
    ensures Remaining(Units, held, ts, r) >= 0.0
  {
    if ts != [] {
      RemainingNonnegative(held, ts[..|ts| - 1], r[..|r| - 1]);
    }
  }

  lemma DayBalances(day: int)
    ensures Balanced(SameDayQuantity, Units, PurchaseOn(day), SaleOn(day), SameDay)
    ensures Balanced(SameDayQuantity, Units, SaleOn(day), SaleOn(day), SameDay)
    ensures Balanced(SameDayQuantity, Units, NoTrade, SaleOn(day), ThirtyDay)
  {
    forall s: Trade, t: Trade, q: real, k: int
      | s.action == SELL && s.quantity > 0.0 && IsPurchase(t) && Eligible(SameDay, s, t)
      ensures BalancedAt(SameDayQuantity, Units, PurchaseOn(day), SaleOn(day), s, t, q, Purchased(SameDay, t, q, k))
      ensures BalancedAt(SameDayQuantity, Units, SaleOn(day), SaleOn(day), s, t, q, Purchased(SameDay, t, q, k))
    {
    }
    forall s: Trade, t: Trade, q: real, k: int
      ensures BalancedAt(SameDayQuantity, Units, NoTrade, SaleOn(day), s, t, q, Purchased(ThirtyDay, t, q, k))
    {
    }
  }

  /** The two sides of a day's books after the same-day pass. */
  lemma DayBalance(ts: seq<Trade>, day: int)
    ensures var b := AfterSameDay(ts);
            && SumBy(BoughtOn(day), ts) ==
               Remaining(Units, PurchaseOn(day), ts, b.remaining) + SameDayMatched(ts, b.matches, day)
            && SumBy(SoldOn(day), ts) ==
               Remaining(Units, SaleOn(day), ts, b.remaining) + SameDayMatched(ts, b.matches, day)
  {
    OpeningSound(ts);
    DayBalances(day);
    RemainingOpening(Units, PurchaseOn(day), BoughtOn(day), ts);
    RemainingOpening(Units, SaleOn(day), SoldOn(day), ts);
    NothingMatched(SameDayQuantity, SaleOn(day), ts, Opening(ts).matches);
    PassKeeps(SameDayQuantity, Units, PurchaseOn(day), SaleOn(day), ts, SameDay, Opening(ts), |ts|);
    PassKeeps(SameDayQuantity, Units, SaleOn(day), SaleOn(day), ts, SameDay, Opening(ts), |ts|);
  }

  lemma SameDayPassInFull(ts: seq<Trade>, day: int)
    ensures SameDayMatched(ts, AfterSameDay(ts).matches, day)
         == Min(SumBy(BoughtOn(day), ts), SumBy(SoldOn(day), ts))
  {
    var b := AfterSameDay(ts);
    DayBalance(ts, day);
    AfterThirtyDaySound(ts);
    forall k | 0 <= k < |ts| ensures ts[k].quantity > 0.0 ==> b.remaining[k] >= 0.0 {
      assert SoundAt(ts, b, k);
    }
    RemainingNonnegative(PurchaseOn(day), ts, b.remaining);
    RemainingNonnegative(SaleOn(day), ts, b.remaining);
    PassExhausts(ts, SameDay, Opening(ts), |ts|);
    if i :| 0 <= i < |ts| && DisposedOn(day, ts[i]) && b.remaining[i] > 0.0 {
      forall j | 0 <= j < |ts| ensures !PurchaseOn(day)(ts[j]) || b.remaining[j] == 0.0 {
        if PurchasedOn(day, ts[j]) {
          assert Pairs(ts, SameDay, i, j);
        }
      }
      NothingRemains(Units, PurchaseOn(day), ts, b.remaining);
    } else {
      NothingRemains(Units, SaleOn(day), ts, b.remaining);
    }
  }

  lemma {:induction false} PoolPassIgnores(f: MatchResult -> real, counts: Trade -> bool,
                                           ts: seq<Trade>, b: Book, p: Pool, n: nat)
    requires Fits(ts, b) && n <= |ts|
    requires forall p, q :: f(Drawn(p, q)) == 0.0
    ensures Total(f, counts, ts, PoolPass(ts, b, p, n).0.matches) == Total(f, counts, ts, b.matches)
  {
    if n > 0 {
      PoolPassIgnores(f, counts, ts, b, p, n - 1);
      var (b', p') := PoolPass(ts, b, p, n - 1);
      MatchedMore(f, counts, ts, b'.matches, n - 1, Drawn(p', Min(b'.remaining[n - 1], p'.quantity)));
    }
  }

  /** On every day exactly the lesser of what is bought and what is sold is matched under the same-day rule. */
  lemma SameDayInFull(ts: seq<Trade>, p: Pool, day: int)
    ensures SameDayMatched(ts, Matched(ts, p).0.matches, day)
         == Min(SumBy(BoughtOn(day), ts), SumBy(SoldOn(day), ts))
  {
    SameDayPassInFull(ts, day);
    AfterThirtyDaySound(ts);
    DayBalances(day);
    PassKeeps(SameDayQuantity, Units, NoTrade, SaleOn(day), ts, ThirtyDay, AfterSameDay(ts), |ts|);
    NothingRemains(Units, NoTrade, ts, AfterSameDay(ts).remaining);
    NothingRemains(Units, NoTrade, ts, AfterThirtyDay(ts).remaining);
    PoolPassIgnores(SameDayQuantity, SaleOn(day), ts, AfterThirtyDay(ts), p, |ts|);
  }
}
