/** What the library sort returns: the one sorted arrangement of its input. */
module Sorting {

  predicate IsSorted(s: seq<int>) {
    forall i, j :: 0 <= i < j < |s| ==> s[i] <= s[j]
  }

  function Insert(s: seq<int>, x: int): seq<int>
    decreases |s|
  {
    if s == [] || s[|s| - 1] <= x then s + [x] else Insert(s[..|s| - 1], x) + [s[|s| - 1]]
  }

  function Sort(s: seq<int>): seq<int>
    decreases |s|
  {
    if s == [] then [] else Insert(Sort(s[..|s| - 1]), s[|s| - 1])
  }

  lemma {:induction false} InsertSize(s: seq<int>, x: int)
    ensures |Insert(s, x)| == |s| + 1
    ensures Insert(s, x)[|s|] == if s == [] || s[|s| - 1] <= x then x else s[|s| - 1]
    decreases |s|
  {
    if s != [] && s[|s| - 1] > x { InsertSize(s[..|s| - 1], x); }
  }

  lemma {:induction false} InsertMultiset(s: seq<int>, x: int)
    ensures multiset(Insert(s, x)) == multiset(s) + multiset{x}
    decreases |s|
  {
    if s != [] && s[|s| - 1] > x {
      var init, last := s[..|s| - 1], s[|s| - 1];
      InsertMultiset(init, x);
      assert s == init + [last];
    }
  }

  lemma {:induction false} InsertSorted(s: seq<int>, x: int)
    requires IsSorted(s)
    ensures IsSorted(Insert(s, x))
    decreases |s|
  {
    if s == [] || s[|s| - 1] <= x {
    } else {
      var init, last := s[..|s| - 1], s[|s| - 1];
      InsertSorted(init, x);
      InsertSize(init, x);
    }
  }

  lemma {:induction false} SortSorts(s: seq<int>)
    ensures IsSorted(Sort(s)) && multiset(Sort(s)) == multiset(s) && |Sort(s)| == |s|
    decreases |s|
  {
    if s != [] {
      var init, last := s[..|s| - 1], s[|s| - 1];
      SortSorts(init);
      InsertSorted(Sort(init), last);
      InsertSize(Sort(init), last);
      InsertMultiset(Sort(init), last);
      assert s == init + [last];
    }
  }

  lemma WithoutLast(s: seq<int>)
    requires s != []
    ensures multiset(s[..|s| - 1]) == multiset(s) - multiset{s[|s| - 1]}
  {
    assert s == s[..|s| - 1] + [s[|s| - 1]];
  }

  lemma SameLast(a: seq<int>, b: seq<int>)
    requires IsSorted(a) && IsSorted(b) && multiset(a) == multiset(b) && a != [] && b != []
    ensures a[|a| - 1] == b[|b| - 1]
  {
    var x, y := a[|a| - 1], b[|b| - 1];
    assert x in a && y in b;
    assert x in multiset(b) && y in multiset(a);
  }

  /** Two sorted arrangements of the same numbers are the same list. */
  lemma {:induction false} SortedUnique(a: seq<int>, b: seq<int>)
    requires IsSorted(a) && IsSorted(b) && multiset(a) == multiset(b)
    ensures a == b
    decreases |a|
  {
    assert |a| == |multiset(a)| == |multiset(b)| == |b|;
    if a != [] {
      var x, y := a[|a| - 1], b[|b| - 1];
      SameLast(a, b);
      WithoutLast(a);
      WithoutLast(b);
      SortedUnique(a[..|a| - 1], b[..|b| - 1]);
    }
  }

  /** The order of the input makes no difference. */
  lemma {:induction false} SortIgnoresOrder(a: seq<int>, b: seq<int>)
    requires multiset(a) == multiset(b)
    ensures Sort(a) == Sort(b)
  {
    SortSorts(a);
    SortSorts(b);
    SortedUnique(Sort(a), Sort(b));
  }

  /** How many numbers are smaller than v. */
  function CountBelow(s: seq<int>, v: int): nat {
    if s == [] then 0 else CountBelow(s[..|s| - 1], v) + (if s[|s| - 1] < v then 1 else 0)
  }

  lemma {:induction false} CountInsert(s: seq<int>, x: int, v: int)
    ensures CountBelow(Insert(s, x), v) == CountBelow(s, v) + (if x < v then 1 else 0)
    decreases |s|
  {
    if s == [] || s[|s| - 1] <= x {
      assert (s + [x])[..|s|] == s;
    } else {
      var init, last := s[..|s| - 1], s[|s| - 1];
      CountInsert(init, x, v);
      var r := Insert(init, x);
      assert (r + [last])[..|r|] == r;
    }
  }

  lemma {:induction false} CountSort(s: seq<int>, v: int)
    ensures CountBelow(Sort(s), v) == CountBelow(s, v)
    decreases |s|
  {
    if s != [] {
      CountSort(s[..|s| - 1], v);
      CountInsert(Sort(s[..|s| - 1]), s[|s| - 1], v);
    }
  }

  /** In a sorted list, the k-th number is below v exactly when k numbers are. */
  lemma {:induction false} SortedCount(s: seq<int>, v: int, k: nat)
    requires IsSorted(s) && 1 <= k <= |s|
    ensures s[k - 1] < v <==> CountBelow(s, v) >= k
    ensures CountBelow(s, v) <= |s|
    decreases |s|
  {
    var init := s[..|s| - 1];
    CountAtMost(init, v);
    if k < |s| {
      SortedCount(init, v, k);
      if s[|s| - 1] < v { SortedCount(init, v, k); }
    } else if |init| > 0 {
      SortedCount(init, v, |init|);
    }
  }

  lemma {:induction false} CountAtMost(s: seq<int>, v: int)
    ensures CountBelow(s, v) <= |s|
    decreases |s|
  {
    if s != [] { CountAtMost(s[..|s| - 1], v); }
  }
}
