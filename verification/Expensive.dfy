/** The expensive-turn finding: turns strictly above the nearest-rank 95th
    percentile of the session's own turn totals. */
module ExpensiveTurns {
  import opened Schema
  import opened Sorting
  import Runway

  /** expensiveTurnPercentile times the number of turns. */
  function Percentile(n: nat): real { 0.95 * n as real }

  function Totals(turns: seq<Event>): seq<int> {
    seq(|turns|, i requires 0 <= i < |turns| => turns[i].Tokens())
  }

  /** The nearest rank, clamped to 1..n as the source clamps it. */
  function Rank(n: nat): nat
    requires n >= 1
  {
    Clamp(Runway.Ceil(Percentile(n)), n)
  }

  function Clamp(rank: int, n: nat): nat
    requires n >= 1
  {
    if rank < 1 then 1 else if rank > n then n else rank
  }

  lemma RankIs(n: nat)
    requires n >= 1
    ensures 1 <= Rank(n) <= n && n - Rank(n) == n / 20
  {
    var x := Percentile(n);
    assert x == n as real - n as real / 20.0;
    var q := n / 20;
    assert (20 * q) as real <= n as real < (20 * q + 20) as real;
    assert (n - q) as real - 1.0 < x <= (n - q) as real;
  }

  /** The threshold of a session with these totals. */
  function P95(totals: seq<int>): int
    requires |totals| >= 1
  {
    SortSorts(totals);
    RankIs(|totals|);
    Sort(totals)[Rank(|totals|) - 1]
  }

  /** The positions of the totals above p, in order. */
  function Above(totals: seq<int>, p: int): seq<nat> {
    if totals == [] then []
    else Above(totals[..|totals| - 1], p) + (if totals[|totals| - 1] > p then [|totals| - 1] else [])
  }

  function Flagged(totals: seq<int>): seq<nat> {
    if |totals| < 2 then [] else Above(totals, P95(totals))
  }

  /** The nearest-rank percentile itself. */
  method Percentile95(totals: seq<int>) returns (p95: int)
    requires |totals| >= 1
    ensures p95 == P95(totals)
  {
    var sorted := Sort(totals);
    SortSorts(totals);
    var rank := Runway.Ceil(Percentile(|sorted|));
    RankIs(|totals|);
    if rank < 1 {
      rank := 1;
    }
    if rank > |sorted| {
      rank := |sorted|;
    }
    p95 := sorted[rank - 1];
  }

  /** The turns that become findings, by position. */
  method Find(turns: seq<Event>) returns (flagged: seq<nat>)
    ensures flagged == Flagged(Totals(turns))
  {
    if |turns| < 2 {
      return [];
    }
    var totals: seq<int> := [];
    var i := 0;
    while i < |turns|
      invariant 0 <= i <= |turns| && totals == Totals(turns)[..i]
    {
      totals := totals + [turns[i].Tokens()];
      i := i + 1;
    }
    assert totals == Totals(turns);
    var p95 := Percentile95(totals);
    flagged := [];
    i := 0;
    while i < |turns|
      invariant 0 <= i <= |turns| && flagged == Above(totals[..i], p95)
    {
      assert totals[..i + 1][..i] == totals[..i];
      if totals[i] > p95 {
        flagged := flagged + [i];
      }
      i := i + 1;
    }
    assert totals[..i] == totals;
  }

  lemma {:induction false} AboveIs(totals: seq<int>, p: int, i: nat)
    ensures i in Above(totals, p) <==> i < |totals| && totals[i] > p
    decreases |totals|
  {
    if totals != [] { AboveIs(totals[..|totals| - 1], p, i); }
  }

  /** The positions come in order, each once. */
  lemma {:induction false} AboveAscends(totals: seq<int>, p: int, i: nat, j: nat)
    requires i < j < |Above(totals, p)|
    ensures Above(totals, p)[i] < Above(totals, p)[j]
    decreases |totals|
  {
    var before := Above(totals[..|totals| - 1], p);
    if j < |before| {
      AboveAscends(totals[..|totals| - 1], p, i, j);
    } else {
      assert before[i] in before;
      AboveIs(totals[..|totals| - 1], p, before[i]);
    }
  }

  /** What is compared is all of a turn's tokens. */
  lemma TotalsAre(turns: seq<Event>, i: nat)
    requires i < |turns|
    ensures |Totals(turns)| == |turns| && Totals(turns)[i] == AllTokens(turns[i])
  {
  }

  lemma {:induction false} BelowRank(totals: seq<int>, k: nat, v: int)
    requires 1 <= k <= |totals|
    ensures |Sort(totals)| == |totals|
    ensures Sort(totals)[k - 1] < v <==> CountBelow(totals, v) >= k
  {
    SortSorts(totals);
    SortedCount(Sort(totals), v, k);
    CountSort(totals, v);
  }

  lemma {:induction false} P95Below(totals: seq<int>, v: int)
    requires |totals| >= 1
    ensures P95(totals) < v <==> CountBelow(totals, v) >= Rank(|totals|)
  {
    RankIs(|totals|);
    BelowRank(totals, Rank(|totals|), v);
  }

  /** A turn is flagged exactly when at least ceil(0.95 n) turns of the session
      are strictly cheaper; no sorting is needed to say so. */
  lemma {:induction false} FlaggedIff(totals: seq<int>, i: nat)
    requires |totals| >= 2 && i < |totals|
    ensures i in Flagged(totals) <==> CountBelow(totals, totals[i]) >= Rank(|totals|)
  {
    AboveIs(totals, P95(totals), i);
    P95Below(totals, totals[i]);
  }

  /** Every flagged turn costs more than every turn that is not flagged. */
  lemma FlaggedCostMore(totals: seq<int>, i: nat, j: nat)
    requires i < |totals| && j < |totals| && i in Flagged(totals) && j !in Flagged(totals)
    ensures totals[i] > totals[j]
  {
    AboveIs(totals, P95(totals), i);
    AboveIs(totals, P95(totals), j);
  }

  /** How many totals are above p. */
  function CountAbove(s: seq<int>, p: int): nat {
    if s == [] then 0 else CountAbove(s[..|s| - 1], p) + (if s[|s| - 1] > p then 1 else 0)
  }

  lemma {:induction false} AboveCount(totals: seq<int>, p: int)
    ensures |Above(totals, p)| == CountAbove(totals, p)
    decreases |totals|
  {
    if totals != [] { AboveCount(totals[..|totals| - 1], p); }
  }

  lemma {:induction false} CountAboveInsert(s: seq<int>, x: int, p: int)
    ensures CountAbove(Insert(s, x), p) == CountAbove(s, p) + (if x > p then 1 else 0)
    decreases |s|
  {
    if s == [] || s[|s| - 1] <= x {
      assert (s + [x])[..|s|] == s;
    } else {
      CountAboveInsert(s[..|s| - 1], x, p);
      var r := Insert(s[..|s| - 1], x);
      assert (r + [s[|s| - 1]])[..|r|] == r;
    }
  }

  lemma {:induction false} CountAboveSort(s: seq<int>, p: int)
    ensures CountAbove(Sort(s), p) == CountAbove(s, p)
    decreases |s|
  {
    if s != [] {
      CountAboveSort(s[..|s| - 1], p);
      CountAboveInsert(Sort(s[..|s| - 1]), s[|s| - 1], p);
    }
  }

  lemma {:induction false} FewAbove(s: seq<int>, k: nat)
    requires IsSorted(s) && 1 <= k <= |s|
    ensures CountAbove(s, s[k - 1]) <= |s| - k
    decreases |s|
  {
    if k < |s| {
      FewAbove(s[..|s| - 1], k);
    } else {
      NoneAbove(s, s[k - 1]);
    }
  }

  lemma {:induction false} NoneAbove(s: seq<int>, p: int)
    requires forall i :: 0 <= i < |s| ==> s[i] <= p
    ensures CountAbove(s, p) == 0
    decreases |s|
  {
    if s != [] { NoneAbove(s[..|s| - 1], p); }
  }

  /** At most n - ceil(0.95 n) turns, one in twenty, are flagged: none at all
      below twenty turns. */
  lemma AtMostOneInTwenty(totals: seq<int>)
    ensures |Flagged(totals)| <= |totals| / 20
    ensures |totals| < 20 ==> Flagged(totals) == []
  {
    if |totals| >= 2 {
      RankIs(|totals|);
      SortLength(totals);
      FewFlagged(totals, Rank(|totals|));
    }
  }

  lemma {:induction false} SortLength(totals: seq<int>)
    ensures |Sort(totals)| == |totals|
  {
    SortSorts(totals);
    assert |Sort(totals)| == |multiset(Sort(totals))| == |multiset(totals)| == |totals|;
  }

  lemma FewFlagged(totals: seq<int>, rank: nat)
    requires 1 <= rank <= |totals| == |Sort(totals)|
    ensures |Above(totals, Sort(totals)[rank - 1])| <= |totals| - rank
  {
    var p := Sort(totals)[rank - 1];
    SortSorts(totals);
    AboveCount(totals, p);
    CountAboveSort(totals, p);
    FewAbove(Sort(totals), rank);
  }

  /** The totals at the given positions. */
  function At(totals: seq<int>, positions: seq<nat>): seq<int>
    requires forall k :: 0 <= k < |positions| ==> positions[k] < |totals|
  {
    if positions == [] then [] else At(totals, positions[..|positions| - 1]) + [totals[positions[|positions| - 1]]]
  }

  function Values(totals: seq<int>, p: int): seq<int> {
    if totals == [] then []
    else Values(totals[..|totals| - 1], p) + (if totals[|totals| - 1] > p then [totals[|totals| - 1]] else [])
  }

  lemma {:induction false} AtPrefix(totals: seq<int>, n: nat, positions: seq<nat>)
    requires n <= |totals| && forall k :: 0 <= k < |positions| ==> positions[k] < n
    ensures At(totals, positions) == At(totals[..n], positions)
    decreases |positions|
  {
    if positions != [] { AtPrefix(totals, n, positions[..|positions| - 1]); }
  }

  lemma {:induction false} AboveValues(totals: seq<int>, p: int)
    ensures forall k :: 0 <= k < |Above(totals, p)| ==> Above(totals, p)[k] < |totals|
    ensures At(totals, Above(totals, p)) == Values(totals, p)
    decreases |totals|
  {
    if totals != [] {
      var n := |totals| - 1;
      var before := Above(totals[..n], p);
      AboveValues(totals[..n], p);
      AtPrefix(totals, n, before);
      if totals[n] > p { assert (before + [n])[..|before|] == before; } else { assert before + [] == before; }
    }
  }

  lemma {:induction false} ValuesMultiset(totals: seq<int>, p: int, v: int)
    ensures multiset(Values(totals, p))[v] == if v > p then multiset(totals)[v] else 0
    decreases |totals|
  {
    if totals != [] {
      var n := |totals| - 1;
      ValuesMultiset(totals[..n], p, v);
      assert totals == totals[..n] + [totals[n]];
      assert multiset(totals) == multiset(totals[..n]) + multiset{totals[n]};
    }
  }

  /** The totals of the flagged turns. */
  function FlaggedTotals(totals: seq<int>): seq<int> {
    if |totals| < 2 then [] else
      AboveValues(totals, P95(totals));
      At(totals, Flagged(totals))
  }

  lemma FlaggedTotalsAre(totals: seq<int>, v: int)
    requires |totals| >= 2
    ensures multiset(FlaggedTotals(totals))[v] == if v > P95(totals) then multiset(totals)[v] else 0
  {
    AboveValues(totals, P95(totals));
    ValuesMultiset(totals, P95(totals), v);
  }

  lemma P95IgnoresOrder(a: seq<int>, b: seq<int>)
    requires multiset(a) == multiset(b) && |a| >= 1 && |b| >= 1
    ensures |a| == |b| && P95(a) == P95(b)
  {
    assert |a| == |multiset(a)| == |multiset(b)| == |b|;
    SortIgnoresOrder(a, b);
  }

  /** Reordering the turns of a session does not change which totals are flagged. */
  lemma FlaggedIgnoresOrder(a: seq<int>, b: seq<int>)
    requires multiset(a) == multiset(b)
    ensures multiset(FlaggedTotals(a)) == multiset(FlaggedTotals(b))
  {
    assert |a| == |multiset(a)| == |multiset(b)| == |b|;
    if |a| >= 2 {
      P95IgnoresOrder(a, b);
      forall v ensures multiset(FlaggedTotals(a))[v] == multiset(FlaggedTotals(b))[v] {
        FlaggedTotalsAre(a, v);
        FlaggedTotalsAre(b, v);
      }
    }
  }
}
