/** Histories of incremental reads of one growing transcript. */
module Histories {

  /** One read of the lines [from, upto). */
  datatype Read = Read(from: nat, upto: nat)

  function Reached(c: nat, r: Read): nat { if c < r.upto then r.upto else c }

  /** Every read of the n lines starts within what earlier ones covered, c lines at first. */
  predicate Contiguous(history: seq<Read>, c: nat, n: nat)
    decreases |history|
  {
    history == [] ||
    (history[0].from <= c && history[0].from <= history[0].upto <= n
      && Contiguous(history[1..], Reached(c, history[0]), n))
  }

  function Covered(history: seq<Read>, c: nat): nat
    decreases |history|
  {
    if history == [] then c else Covered(history[1..], Reached(c, history[0]))
  }

  /** A history that covers all n lines. */
  predicate Complete(history: seq<Read>, n: nat) {
    Contiguous(history, 0, n) && Covered(history, 0) == n
  }

  function OneRead(n: nat): seq<Read> { [Read(0, n)] }

  function CutAt(n: nat, i: nat): seq<Read> { [Read(0, i), Read(i, n)] }

  lemma OneReadIsComplete(n: nat)
    ensures Complete(OneRead(n), n) && OneRead(n)[1..] == []
  {
    assert Contiguous([], Reached(0, Read(0, n)), n);
  }

  lemma {:induction false} CutIsComplete(n: nat, i: nat)
    requires i <= n
    ensures Complete(CutAt(n, i), n)
    ensures CutAt(n, i)[1..] == [Read(i, n)] && [Read(i, n)][1..] == []
    ensures Contiguous([Read(i, n)], i, n) && Reached(0, Read(0, i)) == i && Contiguous([], Reached(i, Read(i, n)), n)
  {
    assert CutAt(n, i)[1..] == [Read(i, n)];
    assert Contiguous([], Reached(i, Read(i, n)), n);
    assert Contiguous([Read(i, n)], i, n);
    assert Reached(0, Read(0, i)) == i;
    assert Covered([Read(i, n)], i) == Covered([], Reached(i, Read(i, n))) == n;
  }
}
