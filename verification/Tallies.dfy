/** Running totals kept in maps: what one cell holds, and sums over a map. */
module Tallies {

  datatype Tally = Tally(calls: int, tokens: int, cost: real, costSub: real, sessions: int)

  const NOTHING := Tally(0, 0, 0.0, 0.0, 0)

  function Plus(a: Tally, b: Tally): Tally {
    Tally(a.calls + b.calls, a.tokens + b.tokens, a.cost + b.cost, a.costSub + b.costSub, a.sessions + b.sessions)
  }

  function At<K(==)>(m: map<K, Tally>, k: K): Tally { if k in m then m[k] else NOTHING }

  function Add<K(==)>(m: map<K, Tally>, k: K, t: Tally): map<K, Tally> { m[k := Plus(At(m, k), t)] }

  /** The sum of all cells, in whatever order they are visited. */
  ghost function SumOf<K>(m: map<K, Tally>): Tally
    decreases |m|
  {
    if m == map[] then NOTHING
    else
      var k :| k in m;
      Plus(SumOf(m - {k}), m[k])
  }

  lemma {:induction false} SumPick<K>(m: map<K, Tally>, k: K)
    requires k in m
    ensures SumOf(m) == Plus(SumOf(m - {k}), m[k])
    decreases |m|
  {
    var whole := SumOf(m);
    var j :| j in m && whole == Plus(SumOf(m - {j}), m[j]);
    if j != k {
      var rest := m - {j, k};
      assert m - {j} - {k} == rest && m - {k} - {j} == rest;
      SumPick(m - {j}, k);
      SumPick(m - {k}, j);
      assert SumOf(m - {j}) == Plus(SumOf(rest), m[k]);
      assert SumOf(m - {k}) == Plus(SumOf(rest), m[j]);
      assert whole == Plus(Plus(SumOf(rest), m[k]), m[j]);
      assert whole == Plus(SumOf(m - {k}), m[k]);
    }
  }

  /** Adding to one cell adds to the sum. */
  lemma {:induction false} SumAdd<K>(m: map<K, Tally>, k: K, t: Tally)
    ensures SumOf(Add(m, k, t)) == Plus(SumOf(m), t)
  {
    var m' := Add(m, k, t);
    SumPick(m', k);
    assert m' - {k} == m - {k};
    if k in m { SumPick(m, k); } else { assert m - {k} == m; }
  }
}
