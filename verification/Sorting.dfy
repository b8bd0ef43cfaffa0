/**
 Python's `sorted`: a stable insertion sort over an arbitrary total preorder, with the
 order-statistic facts that the benchmark and audit components rely on.
 */
module Sorting {

  /** `le` compares every two values, and does so transitively. */
  ghost predicate TotalPreorder<T(!new)>(le: (T, T) -> bool) {
    && (forall a, b :: le(a, b) || le(b, a))
    && (forall a, b, c :: le(a, b) && le(b, c) ==> le(a, c))
  }

  ghost predicate SortedBy<T>(s: seq<T>, le: (T, T) -> bool) {
    forall i, j :: 0 <= i < j < |s| ==> le(s[i], s[j])
  }

  /** Inserts `x` behind every element that is not greater than it. */
  function Insert<T>(x: T, s: seq<T>, le: (T, T) -> bool): (r: seq<T>)
    ensures |r| == |s| + 1
    ensures multiset(r) == multiset(s) + multiset{x}
  {
    if s == [] || le(s[|s| - 1], x) then s + [x]
    else
      assert s == s[..|s| - 1] + [s[|s| - 1]];
      Insert(x, s[..|s| - 1], le) + [s[|s| - 1]]
  }

  function Sort<T>(s: seq<T>, le: (T, T) -> bool): (r: seq<T>)
    ensures |r| == |s|
    ensures multiset(r) == multiset(s)
  {
    if s == [] then []
    else
      assert s == s[..|s| - 1] + [s[|s| - 1]];
      Insert(s[|s| - 1], Sort(s[..|s| - 1], le), le)
  }

  lemma {:induction false} InsertSorted<T(!new)>(x: T, s: seq<T>, le: (T, T) -> bool)
    requires TotalPreorder(le) && SortedBy(s, le)
    ensures SortedBy(Insert(x, s, le), le)
  {
    if s == [] || le(s[|s| - 1], x) {
    } else {
      var front := s[..|s| - 1];
      InsertSorted(x, front, le);
      var r := Insert(x, front, le);
      forall i | 0 <= i < |r| ensures le(r[i], s[|s| - 1]) {
        assert r[i] in multiset(r);
        assert r[i] in multiset(front) || r[i] == x;
        assert r[i] in front || r[i] == x;
      }
    }
  }

  /** Whatever is in front of an element not greater than `x` is not greater than `x` either. */
  ghost predicate CutAt<T>(x: T, s: seq<T>, le: (T, T) -> bool) {
    forall i, j :: 0 <= i < j < |s| && le(s[j], x) ==> le(s[i], x)
  }

  /** Where `Insert` puts `x`. */
  function CutPoint<T>(x: T, s: seq<T>, le: (T, T) -> bool): (k: nat)
    ensures k <= |s|
  {
    if s == [] || le(s[|s| - 1], x) then |s| else CutPoint(x, s[..|s| - 1], le)
  }

  lemma {:induction false} InsertAtCut<T>(x: T, s: seq<T>, le: (T, T) -> bool)
    ensures var k := CutPoint(x, s, le); Insert(x, s, le) == s[..k] + [x] + s[k..]
  {
    if s == [] || le(s[|s| - 1], x) {
      assert s[..|s|] == s && s[|s|..] == [] && s + [x] + [] == s + [x];
    } else {
      var front := s[..|s| - 1];
      InsertAtCut(x, front, le);
      CutBeforeLast(s, CutPoint(x, front, le), x);
    }
  }

  lemma CutBeforeLast<T>(s: seq<T>, k: nat, x: T)
    requires k < |s|
    ensures var front := s[..|s| - 1]; front[..k] + [x] + front[k..] + [s[|s| - 1]] == s[..k] + [x] + s[k..]
  {
  }

  lemma {:induction false} CutDivides<T>(x: T, s: seq<T>, le: (T, T) -> bool, i: nat)
    requires CutAt(x, s, le) && i < |s|
    ensures le(s[i], x) <==> i < CutPoint(x, s, le)
  {
    if !le(s[|s| - 1], x) && i < |s| - 1 {
      CutDivides(x, s[..|s| - 1], le, i);
    }
  }

  /** In an ordered sequence the new element goes behind exactly those not greater than it. */
  lemma InsertSplits<T(!new)>(x: T, s: seq<T>, le: (T, T) -> bool) returns (k: nat)
    requires TotalPreorder(le) && SortedBy(s, le)
    ensures k <= |s| && Insert(x, s, le) == s[..k] + [x] + s[k..]
    ensures forall i :: 0 <= i < |s| ==> (le(s[i], x) <==> i < k)
  {
    k := CutPoint(x, s, le);
    InsertAtCut(x, s, le);
    assert CutAt(x, s, le);
    forall i | 0 <= i < |s| ensures le(s[i], x) <==> i < k {
      CutDivides(x, s, le, i);
    }
  }

  lemma {:induction false} SortSorted<T(!new)>(s: seq<T>, le: (T, T) -> bool)
    requires TotalPreorder(le)
    ensures SortedBy(Sort(s, le), le)
  {
    if s != [] {
      SortSorted(s[..|s| - 1], le);
      InsertSorted(s[|s| - 1], Sort(s[..|s| - 1], le), le);
    }
  }

  lemma SamePermutationMembers<T>(s: seq<T>, t: seq<T>)
    requires multiset(s) == multiset(t)
    ensures forall x :: x in s <==> x in t
    ensures |s| == |t|
  {
    forall x ensures x in s <==> x in t {
      assert x in s <==> x in multiset(s);
      assert x in t <==> x in multiset(t);
    }
    assert |s| == |multiset(s)| && |t| == |multiset(t)|;
  }

  lemma FrontPermutation<T>(s: seq<T>, t: seq<T>)
    requires s != [] && t != [] && multiset(s) == multiset(t) && s[|s| - 1] == t[|t| - 1]
    ensures multiset(s[..|s| - 1]) == multiset(t[..|t| - 1])
  {
    assert s == s[..|s| - 1] + [s[|s| - 1]] && t == t[..|t| - 1] + [t[|t| - 1]];
    assert multiset(s[..|s| - 1]) == multiset(s) - multiset{s[|s| - 1]};
    assert multiset(t[..|t| - 1]) == multiset(t) - multiset{t[|t| - 1]};
  }

  lemma SortMembers<T>(s: seq<T>, le: (T, T) -> bool)
    ensures forall x :: x in Sort(s, le) <==> x in s
  {
    SamePermutationMembers(Sort(s, le), s);
  }

  lemma FrontSorted<T>(s: seq<T>, le: (T, T) -> bool)
    requires SortedBy(s, le) && s != []
    ensures SortedBy(s[..|s| - 1], le)
    ensures Insert(s[|s| - 1], s[..|s| - 1], le) == s[..|s| - 1] + [s[|s| - 1]]
  {
    var front, last := s[..|s| - 1], s[|s| - 1];
    assert front != [] ==> le(front[|front| - 1], last);
  }

  /** Sorting a sequence that is already in order changes nothing. */
  lemma {:induction false} SortOfSorted<T>(s: seq<T>, le: (T, T) -> bool)
    requires SortedBy(s, le)
    ensures Sort(s, le) == s
  {
    if s != [] {
      var front, last := s[..|s| - 1], s[|s| - 1];
      FrontSorted(s, le);
      SortOfSorted(front, le);
      assert s == front + [last];
    }
  }

  // ---- Sums that do not depend on order ----

  function SumBy<T>(s: seq<T>, weight: T -> int): int {
    if s == [] then 0 else SumBy(s[..|s| - 1], weight) + weight(s[|s| - 1])
  }

  function Without<T>(s: seq<T>, k: nat): (r: seq<T>)
    requires k < |s|
    ensures |r| == |s| - 1
    ensures multiset(s) == multiset(r) + multiset{s[k]}
  {
    assert s == s[..k] + [s[k]] + s[k + 1..];
    s[..k] + s[k + 1..]
  }

  lemma {:induction false} SumWithout<T>(s: seq<T>, weight: T -> int, k: nat)
    requires k < |s|
    ensures SumBy(s, weight) == SumBy(Without(s, k), weight) + weight(s[k])
    decreases |s|
  {
    var front := s[..|s| - 1];
    if k == |s| - 1 {
      assert Without(s, k) == front;
    } else {
      SumWithout(front, weight, k);
      assert Without(s, k)[..|s| - 2] == Without(front, k);
    }
  }

  lemma {:induction false} SumUpdate<T>(s: seq<T>, weight: T -> int, k: nat, x: T)
    requires k < |s|
    ensures SumBy(s[k := x], weight) == SumBy(s, weight) - weight(s[k]) + weight(x)
    decreases |s|
  {
    var front := s[..|s| - 1];
    if k == |s| - 1 {
      assert s[k := x][..|s| - 1] == front;
    } else {
      SumUpdate(front, weight, k, x);
      assert s[k := x][..|s| - 1] == front[k := x];
    }
  }

  lemma {:induction false} SumAppend<T>(s: seq<T>, x: T, weight: T -> int)
    ensures SumBy(s + [x], weight) == SumBy(s, weight) + weight(x)
  {
    assert (s + [x])[..|s|] == s;
  }

  lemma {:induction false} SumConcat<T>(s: seq<T>, t: seq<T>, weight: T -> int)
    ensures SumBy(s + t, weight) == SumBy(s, weight) + SumBy(t, weight)
    decreases |t|
  {
    if t == [] {
      assert s + t == s;
    } else {
      SumConcat(s, t[..|t| - 1], weight);
      assert (s + t)[..|s + t| - 1] == s + t[..|t| - 1];
    }
  }

  lemma {:induction false} SumNonNegative<T>(s: seq<T>, weight: T -> int)
    requires forall i :: 0 <= i < |s| ==> weight(s[i]) >= 0
    ensures SumBy(s, weight) >= 0
  {
    if s != [] {
      SumNonNegative(s[..|s| - 1], weight);
    }
  }

  /** A sub-bag of non-negative weights weighs no more than the whole. */
  lemma {:induction false} SumSubBag<T>(a: seq<T>, b: seq<T>, weight: T -> int)
    requires multiset(a) <= multiset(b)
    requires forall i :: 0 <= i < |b| ==> weight(b[i]) >= 0
    ensures SumBy(a, weight) <= SumBy(b, weight)
    decreases |a|
  {
    if a == [] {
      SumNonNegative(b, weight);
    } else {
      var k := TakeLast(a, b);
      SumWithout(b, weight, k);
      SumSubBag(a[..|a| - 1], Without(b, k), weight);
    }
  }

  lemma {:induction false} SumPermutation<T>(a: seq<T>, b: seq<T>, weight: T -> int)
    requires multiset(a) == multiset(b)
    ensures SumBy(a, weight) == SumBy(b, weight)
    decreases |a|
  {
    SamePermutationMembers(a, b);
    if a != [] {
      var k := TakeLast(a, b);
      SumWithout(b, weight, k);
      SumPermutation(a[..|a| - 1], Without(b, k), weight);
    }
  }

  lemma BagCancel<T>(a: multiset<T>, b: multiset<T>, x: T)
    ensures a + multiset{x} <= b + multiset{x} ==> a <= b
    ensures a + multiset{x} == b + multiset{x} ==> a == b
  {
    assert a + multiset{x} - multiset{x} == a && b + multiset{x} - multiset{x} == b;
  }

  /** Finds the last element of `a` in `b` and removes it from both. */
  lemma TakeLast<T>(a: seq<T>, b: seq<T>) returns (k: nat)
    requires a != [] && multiset(a) <= multiset(b)
    ensures k < |b| && b[k] == a[|a| - 1]
    ensures multiset(a[..|a| - 1]) <= multiset(Without(b, k))
    ensures multiset(a) == multiset(b) ==> multiset(a[..|a| - 1]) == multiset(Without(b, k))
    ensures forall i :: 0 <= i < |b| - 1 ==> Without(b, k)[i] in b
  {
    var last := a[|a| - 1];
    assert last in multiset(a);
    assert last in multiset(b);
    k :| 0 <= k < |b| && b[k] == last;
    var front, rest := a[..|a| - 1], Without(b, k);
    assert a == front + [last];
    BagCancel(multiset(front), multiset(rest), last);
    forall i | 0 <= i < |rest| ensures rest[i] in b {
      assert rest[i] in multiset(rest);
      assert rest[i] in multiset(b);
    }
  }

  // ---- Order statistics of integer samples ----

  /** The weight that makes `SumBy` the sum of the samples themselves. */
  const Itself: int -> int := (x: int) => x

  const IntLe: (int, int) -> bool := (a, b) => a <= b

  function SortInts(s: seq<int>): (r: seq<int>)
    ensures |r| == |s| && multiset(r) == multiset(s)
  {
    Sort(s, IntLe)
  }

  lemma SortIntsSorted(s: seq<int>)
    ensures forall i, j :: 0 <= i <= j < |s| ==> SortInts(s)[i] <= SortInts(s)[j]
  {
    SortSorted(s, IntLe);
    forall i, j | 0 <= i <= j < |s| ensures SortInts(s)[i] <= SortInts(s)[j] {
      if i < j {
        assert IntLe(SortInts(s)[i], SortInts(s)[j]);
      }
    }
  }

  /** How many samples are at most `x`. */
  function CountLe(s: seq<int>, x: int): (n: nat)
    ensures n <= |s|
  {
    if s == [] then 0 else CountLe(s[..|s| - 1], x) + (if s[|s| - 1] <= x then 1 else 0)
  }

  lemma {:induction false} CountLeInsert(v: int, s: seq<int>, x: int)
    ensures CountLe(Insert(v, s, IntLe), x) == CountLe(s, x) + (if v <= x then 1 else 0)
  {
    if s == [] || IntLe(s[|s| - 1], v) {
      assert (s + [v])[..|s|] == s;
    } else {
      var front := s[..|s| - 1];
      CountLeInsert(v, front, x);
      var r := Insert(v, front, IntLe);
      assert (r + [s[|s| - 1]])[..|r|] == r;
    }
  }

  lemma {:induction false} CountLeSort(s: seq<int>, x: int)
    ensures CountLe(SortInts(s), x) == CountLe(s, x)
  {
    if s != [] {
      CountLeSort(s[..|s| - 1], x);
      CountLeInsert(s[|s| - 1], SortInts(s[..|s| - 1]), x);
    }
  }

  /** In a sorted sequence the count is the number of leading samples that are at most `x`. */
  lemma {:induction false} CountLeOfSorted(s: seq<int>, x: int, k: nat)
    requires forall i, j :: 0 <= i <= j < |s| ==> s[i] <= s[j]
    requires k < |s|
    ensures s[k] <= x <==> k < CountLe(s, x)
  {
    var front := s[..|s| - 1];
    if s[|s| - 1] <= x {
      CountLeAll(front, x);
    } else if k < |s| - 1 {
      CountLeOfSorted(front, x, k);
    }
  }

  lemma {:induction false} CountLeAll(s: seq<int>, x: int)
    requires forall i :: 0 <= i < |s| ==> s[i] <= x
    ensures CountLe(s, x) == |s|
  {
    if s != [] {
      CountLeAll(s[..|s| - 1], x);
    }
  }

  /** The k-th smallest sample is at most `x` exactly when more than `k` samples are. */
  lemma OrderStatistic(s: seq<int>, x: int, k: nat)
    requires k < |s|
    ensures SortInts(s)[k] <= x <==> k < CountLe(s, x)
  {
    SortIntsSorted(s);
    CountLeSort(s, x);
    CountLeOfSorted(SortInts(s), x, k);
  }

  lemma {:induction false} CountLeAntitone(a: seq<int>, b: seq<int>, x: int)
    requires |a| == |b| && forall i :: 0 <= i < |a| ==> a[i] <= b[i]
    ensures CountLe(b, x) <= CountLe(a, x)
  {
    if a != [] {
      CountLeAntitone(a[..|a| - 1], b[..|b| - 1], x);
    }
  }

  /** At every level, at least as many samples of `a` as of `b` are at most that level. */
  ghost predicate Dominates(a: seq<int>, b: seq<int>) {
    |a| == |b| && forall x :: CountLe(b, x) <= CountLe(a, x)
  }

  /** Sorting turns dominance into an order at every rank. */
  lemma RankByCount(a: seq<int>, b: seq<int>, k: nat)
    requires Dominates(a, b) && k < |a|
    ensures SortInts(a)[k] <= SortInts(b)[k]
  {
    var x := SortInts(b)[k];
    OrderStatistic(b, x, k);
    OrderStatistic(a, x, k);
  }
}
