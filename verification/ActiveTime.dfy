/** Active time: the sum of the gaps between consecutive turns, long gaps left out. */
module ActiveTime {
  import opened Schema
  import opened Sorting

  function Counted(gap: int, cutoff: int): int { if gap <= cutoff then gap else 0 }

  /** Active time of sorted timestamps. */
  function Active(sorted: seq<int>, cutoff: int): int {
    var n := |sorted|;
    if n < 2 then 0 else Active(sorted[..n - 1], cutoff) + Counted(sorted[n - 1] - sorted[n - 2], cutoff)
  }

  method ActiveTimeOf(sorted: seq<int>, cutoff: int) returns (total: int)
    ensures total == Active(sorted, cutoff)
  {
    if |sorted| < 2 {
      return 0;
    }
    total := 0;
    var i := 1;
    while i < |sorted|
      invariant 1 <= i <= |sorted| && total == Active(sorted[..i], cutoff)
    {
      var gap := sorted[i] - sorted[i - 1];
      assert sorted[..i + 1][..i] == sorted[..i];
      if gap <= cutoff {
        total := total + gap;
      }
      i := i + 1;
    }
    assert sorted[..i] == sorted;
  }

  /** The timestamps of events that carry one. */
  function Stamps(events: seq<Event>): seq<int> {
    if events == [] then []
    else Stamps(events[..|events| - 1]) + (if events[|events| - 1].at != 0 then [events[|events| - 1].at] else [])
  }

  method ActiveTimeOfEvents(events: seq<Event>, cutoff: int) returns (total: int)
    ensures total == Active(Sort(Stamps(events)), cutoff)
  {
    var times: seq<int> := [];
    var i := 0;
    while i < |events|
      invariant 0 <= i <= |events| && times == Stamps(events[..i])
    {
      assert events[..i + 1][..i] == events[..i];
      if events[i].at != 0 {
        times := times + [events[i].at];
      }
      i := i + 1;
    }
    assert events[..i] == events;
    total := ActiveTimeOf(Sort(times), cutoff);
  }

  /** Active time is never negative and never more than from first to last. */
  lemma {:induction false} ActiveWithinSpan(sorted: seq<int>, cutoff: int)
    requires IsSorted(sorted) && sorted != []
    ensures 0 <= Active(sorted, cutoff) <= sorted[|sorted| - 1] - sorted[0]
    decreases |sorted|
  {
    if |sorted| >= 2 { ActiveWithinSpan(sorted[..|sorted| - 1], cutoff); }
  }

  /** A gap above the cutoff counts nothing: the two sides of it add up.  With
      ActiveIsSpanIff on the stretches between such gaps this fixes the value. */
  lemma {:induction false} LongGapSplits(a: seq<int>, b: seq<int>, cutoff: int)
    requires a != [] && b != [] && b[0] - a[|a| - 1] > cutoff
    ensures Active(a + b, cutoff) == Active(a, cutoff) + Active(b, cutoff)
    decreases |b|
  {
    var init := b[..|b| - 1];
    assert (a + b)[..|a + b| - 1] == a + init;
    if |b| == 1 {
      assert a + init == a;
    } else {
      LongGapSplits(a, init, cutoff);
    }
  }

  /** Any other gap counts in full. */
  lemma {:induction false} ShortGapCounts(a: seq<int>, b: seq<int>, cutoff: int)
    requires a != [] && b != [] && b[0] - a[|a| - 1] <= cutoff
    ensures Active(a + b, cutoff) == Active(a, cutoff) + (b[0] - a[|a| - 1]) + Active(b, cutoff)
    decreases |b|
  {
    var init := b[..|b| - 1];
    assert (a + b)[..|a + b| - 1] == a + init;
    if |b| == 1 {
      assert a + init == a;
    } else {
      ShortGapCounts(a, init, cutoff);
    }
  }

  function Times(events: seq<Event>): seq<int> {
    seq(|events|, i requires 0 <= i < |events| => events[i].at)
  }

  /** The stamps are the times of the events, each as often as it occurs there,
      without those of no time. */
  lemma {:induction false} StampsAre(events: seq<Event>)
    ensures multiset(Stamps(events)) == multiset(Times(events))[0 := 0]
    decreases |events|
  {
    if events != [] {
      var init, e := events[..|events| - 1], events[|events| - 1];
      StampsAre(init);
      assert Times(events) == Times(init) + [e.at];
    }
  }

  predicate GapCounts(sorted: seq<int>, cutoff: int, i: nat)
    requires 1 <= i < |sorted|
  {
    sorted[i] - sorted[i - 1] <= cutoff || sorted[i] == sorted[i - 1]
  }

  /** No gap among the first n timestamps exceeds the cutoff, unless it is empty. */
  predicate GapsCount(sorted: seq<int>, cutoff: int, n: nat)
    requires n <= |sorted|
  {
    forall i :: 1 <= i < n ==> GapCounts(sorted, cutoff, i)
  }

  lemma GapsOneMore(sorted: seq<int>, cutoff: int)
    requires |sorted| >= 2
    ensures GapsCount(sorted, cutoff, |sorted|) <==>
      GapsCount(sorted[..|sorted| - 1], cutoff, |sorted| - 1) && GapCounts(sorted, cutoff, |sorted| - 1)
  {
    var n := |sorted|;
    var init := sorted[..n - 1];
    assert forall i :: 1 <= i < n - 1 ==> GapCounts(init, cutoff, i) == GapCounts(sorted, cutoff, i);
  }

  /** It is the whole span exactly when no gap but an empty one exceeds the cutoff. */
  lemma {:induction false} ActiveIsSpanIff(sorted: seq<int>, cutoff: int)
    requires IsSorted(sorted) && sorted != []
    ensures Active(sorted, cutoff) == sorted[|sorted| - 1] - sorted[0] <==> GapsCount(sorted, cutoff, |sorted|)
    decreases |sorted|
  {
    if |sorted| >= 2 {
      var init := sorted[..|sorted| - 1];
      ActiveIsSpanIff(init, cutoff);
      ActiveWithinSpan(init, cutoff);
      GapsOneMore(sorted, cutoff);
    }
  }

  /** A longer cutoff never counts less. */
  lemma {:induction false} CutoffMonotone(sorted: seq<int>, cutoff: int, cutoff': int)
    requires IsSorted(sorted) && cutoff <= cutoff'
    ensures Active(sorted, cutoff) <= Active(sorted, cutoff')
    decreases |sorted|
  {
    if |sorted| >= 2 { CutoffMonotone(sorted[..|sorted| - 1], cutoff, cutoff'); }
  }

  lemma {:induction false} InsertBeforeLast(init: seq<int>, x: int, last: int, cutoff: int)
    requires x < last && Active(Insert(init, x), cutoff) >= Active(init, cutoff)
    ensures Active(Insert(init, x) + [last], cutoff) >= Active(init + [last], cutoff)
  {
    if init == [] || init[|init| - 1] <= x {
    } else {
      InsertSize(init, x);
    }
  }

  /** One more timestamp, wherever it falls, never counts less: it splits a gap
      into two that add up to it. */
  lemma {:induction false} InsertMonotone(sorted: seq<int>, x: int, cutoff: int)
    requires IsSorted(sorted)
    ensures Active(Insert(sorted, x), cutoff) >= Active(sorted, cutoff)
    decreases |sorted|
  {
    var n := |sorted|;
    if n == 0 || sorted[n - 1] <= x {
    } else {
      InsertMonotone(sorted[..n - 1], x, cutoff);
      InsertBeforeLast(sorted[..n - 1], x, sorted[n - 1], cutoff);
      assert sorted == sorted[..n - 1] + [sorted[n - 1]];
    }
  }

  /** Adding an event to a session never lowers its active time, whatever its timestamp. */
  lemma {:induction false} EventsMonotone(events: seq<Event>, e: Event, cutoff: int)
    ensures Active(Sort(Stamps(events + [e])), cutoff) >= Active(Sort(Stamps(events)), cutoff)
  {
    assert (events + [e])[..|events|] == events;
    if e.at != 0 {
      SortSorts(Stamps(events));
      InsertMonotone(Sort(Stamps(events)), e.at, cutoff);
    } else {
      assert Stamps(events) + [] == Stamps(events);
    }
  }

  function StampOf(e: Event): seq<int> { if e.at != 0 then [e.at] else [] }

  /** Taking one event out takes its timestamp out. */
  lemma {:induction false} StampsWithout(a: seq<Event>, e: Event, b: seq<Event>)
    ensures multiset(Stamps(a + [e] + b)) == multiset(Stamps(a + b)) + multiset(StampOf(e))
    decreases |b|
  {
    if b == [] {
      assert a + [e] + b == a + [e] && a + b == a;
    } else {
      var init, last := b[..|b| - 1], b[|b| - 1];
      assert a + [e] + b == (a + [e] + init) + [last] && a + b == (a + init) + [last];
      StampsWithout(a, e, init);
    }
  }

  lemma {:induction false} StampsOfPermutation(a: seq<Event>, b: seq<Event>)
    requires multiset(a) == multiset(b)
    ensures multiset(Stamps(a)) == multiset(Stamps(b))
    decreases |a|
  {
    assert |a| == |multiset(a)| == |multiset(b)| == |b|;
    if a != [] {
      var init, e := a[..|a| - 1], a[|a| - 1];
      assert a == init + [e];
      assert e in multiset(b);
      var k :| 0 <= k < |b| && b[k] == e;
      assert b == b[..k] + [e] + b[k + 1..];
      assert multiset(b) == multiset(b[..k] + b[k + 1..]) + multiset{e};
      assert multiset(init) == multiset(a) - multiset{e};
      assert multiset(b[..k] + b[k + 1..]) == multiset(b) - multiset{e};
      StampsOfPermutation(init, b[..k] + b[k + 1..]);
      StampsWithout(b[..k], e, b[k + 1..]);
    } else {
      assert b == [];
    }
  }

  /** The order in which the events come makes no difference. */
  lemma {:induction false} EventOrderDoesNotMatter(a: seq<Event>, b: seq<Event>, cutoff: int)
    requires multiset(a) == multiset(b)
    ensures Active(Sort(Stamps(a)), cutoff) == Active(Sort(Stamps(b)), cutoff)
  {
    StampsOfPermutation(a, b);
    SortIgnoresOrder(Stamps(a), Stamps(b));
  }
}
