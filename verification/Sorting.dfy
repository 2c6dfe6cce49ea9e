/** Stable sorting by a key, standing for the library sorts of the programs modelled here. */
module Sorting {

  predicate Ordered<T>(key: T -> real, s: seq<T>) {
    forall i, j :: 0 <= i < j < |s| ==> key(s[i]) <= key(s[j])
  }

  /** s rearranged into the order of key: all that an unstable sort promises. */
  predicate IsSorted<T(==)>(key: T -> real, sorted: seq<T>, s: seq<T>) {
    Ordered(key, sorted) && multiset(sorted) == multiset(s)
  }

  /** Insert after the last element whose key is not greater. */
  function Insert<T>(key: T -> real, s: seq<T>, x: T): (r: seq<T>)
    ensures |r| == |s| + 1
  {
    if s != [] && key(s[|s| - 1]) > key(x)
    then Insert(key, s[..|s| - 1], x) + [s[|s| - 1]]
    else s + [x]
  }

  function Sort<T>(key: T -> real, s: seq<T>): (r: seq<T>)
    ensures |r| == |s|
  {
    if s == [] then [] else Insert(key, Sort(key, s[..|s| - 1]), s[|s| - 1])
  }

  lemma {:induction false} InsertPermutes<T>(key: T -> real, s: seq<T>, x: T)
    ensures multiset(Insert(key, s, x)) == multiset(s) + multiset{x}
  {
    var n := |s| - 1;
    if s != [] && key(s[n]) > key(x) {
      InsertPermutes(key, s[..n], x);
      assert s == s[..n] + [s[n]];
    }
  }

  lemma {:induction false} InsertOrders<T>(key: T -> real, s: seq<T>, x: T)
    requires Ordered(key, s)
    ensures Ordered(key, Insert(key, s, x))
  {
    var n := |s| - 1;
    if s != [] && key(s[n]) > key(x) {
      InsertOrders(key, s[..n], x);
      var shorter := Insert(key, s[..n], x);
      forall k | 0 <= k < |shorter| ensures key(shorter[k]) <= key(s[n]) {
        InsertPermutes(key, s[..n], x);
        assert shorter[k] in multiset(shorter);
      }
    }
  }

  lemma {:induction false} SortSorts<T>(key: T -> real, s: seq<T>)
    ensures IsSorted(key, Sort(key, s), s)
  {
    if s != [] {
      var n := |s| - 1;
      SortSorts(key, s[..n]);
      InsertOrders(key, Sort(key, s[..n]), s[n]);
      InsertPermutes(key, Sort(key, s[..n]), s[n]);
      assert s == s[..n] + [s[n]];
    }
  }

  lemma {:induction false} InsertMiddle<T>(key: T -> real, a: seq<T>, b: seq<T>, x: T)
    requires forall k :: 0 <= k < |b| ==> key(b[k]) > key(x)
    ensures Insert(key, a + b, x) == Insert(key, a, x) + b
  {
    if b == [] {
      assert a + b == a;
    } else {
      var n := |b| - 1;
      assert (a + b)[..|a + b| - 1] == a + b[..n];
      InsertMiddle(key, a, b[..n], x);
      assert b == b[..n] + [b[n]];
    }
  }

  /** s with the elements from j up to i shifted up one place, over the element at i. */
  function Shifted<T>(s: seq<T>, j: nat, i: nat): (r: seq<T>)
    requires j <= i < |s|
    ensures |r| == |s|
    decreases i - j
  {
    if j == i then s else Shifted(s, j + 1, i)[j + 1 := s[j]]
  }

  lemma {:induction false} ShiftedIs<T>(s: seq<T>, j: nat, i: nat)
    requires j <= i < |s|
    ensures Shifted(s, j, i) == s[..j + 1] + s[j..i] + s[i + 1..]
    decreases i - j
  {
    if j < i {
      ShiftedIs(s, j + 1, i);
      assert s[..j + 2] + s[j + 1..i] + s[i + 1..] == s[..j + 1] + [s[j + 1]] + s[j + 1..i] + s[i + 1..];
      assert s[j..i] == [s[j]] + s[j + 1..i];
    }
  }

  /** Shift the elements below position i that are greater than the one there. */
  method ShiftGreater<T>(key: T -> real, a: array<T>, i: nat) returns (j: nat)
    requires i < a.Length
    modifies a
    ensures j <= i && a[..] == Shifted(old(a[..]), j, i)
    ensures j > 0 ==> key(old(a[j - 1])) <= key(old(a[i]))
    ensures forall k :: j <= k < i ==> key(old(a[k])) > key(old(a[i]))
  {
    ghost var was := a[..];
    var x := a[i];
    j := i;
    while j > 0 && key(a[j - 1]) > key(x)
      invariant 0 <= j <= i
      invariant a[..] == Shifted(was, j, i)
      invariant forall k :: 0 <= k <= j ==> a[k] == was[k]
      invariant forall k :: j <= k < i ==> key(was[k]) > key(x)
    {
      ghost var before := a[..];
      a[j] := a[j - 1];
      assert a[..] == before[j := was[j - 1]];
      j := j - 1;
    }
  }

  lemma PutAt<T>(a: seq<T>, y: T, x: T, b: seq<T>, c: seq<T>)
    ensures (a + [y] + b + c)[|a| := x] == a + [x] + b + c
  {
  }

  lemma InsertShifted<T>(key: T -> real, s: seq<T>, j: nat, i: nat)
    requires j <= i < |s| && (j > 0 ==> key(s[j - 1]) <= key(s[i]))
    requires forall k :: j <= k < i ==> key(s[k]) > key(s[i])
    ensures Shifted(s, j, i)[j := s[i]] == Insert(key, s[..i], s[i]) + s[i + 1..]
  {
    var x, below, above := s[i], s[..j], s[j..i];
    ShiftedIs(s, j, i);
    assert s[..j + 1] == below + [s[j]];
    PutAt(below, s[j], x, above, s[i + 1..]);
    InsertMiddle(key, below, above, x);
    assert below + above == s[..i];
  }

  /** Put a[i] where it belongs among the elements below it. */
  method ShiftIn<T>(key: T -> real, a: array<T>, i: nat)
    requires i < a.Length
    modifies a
    ensures a[..] == Insert(key, old(a[..i]), old(a[i])) + old(a[i + 1..])
  {
    ghost var was := a[..];
    var x := a[i];
    var j := ShiftGreater(key, a, i);
    a[j] := x;
    InsertShifted(key, was, j, i);
  }

  /** Insertion sort in place. */
  method InsertionSort<T>(key: T -> real, a: array<T>)
    modifies a
    ensures a[..] == Sort(key, old(a[..]))
  {
    ghost var was := a[..];
    var i := 0;
    while i < a.Length
      invariant i <= a.Length
      invariant a[..i] == Sort(key, was[..i])
      invariant a[i..] == was[i..]
    {
      assert a[i] == a[i..][0] && a[i + 1..] == was[i + 1..];
      ShiftIn(key, a, i);
      assert was[..i + 1][..i] == was[..i];
      assert a[..i + 1] == Insert(key, Sort(key, was[..i]), was[i]);
      i := i + 1;
    }
    assert a[..i] == a[..] && was[..i] == was;
  }
}
