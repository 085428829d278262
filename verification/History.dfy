/** The delta history between the sampler and the page: the page asks with the
    newest time it holds, gets what came after it, and prunes its own ring. */
module HistorySync {

  /** One sample or process-group row; ts in nanoseconds. */
  datatype Row = Row(ts: int, value: int)

  /** UnixMilli: all the precision the page's cursor carries. */
  function Ms(t: int): int { t / 1_000_000 }

  // ----- the server's answers -----

  /** The position after the last row that is not newer than the cursor. */
  function NewerFrom(buf: seq<Row>, cursorMs: int): nat
    ensures NewerFrom(buf, cursorMs) <= |buf|
  {
    if buf != [] && Ms(buf[|buf| - 1].ts) > cursorMs then NewerFrom(buf[..|buf| - 1], cursorMs) else |buf|
  }

  function NotBefore(buf: seq<Row>, windowStart: int): seq<Row> {
    if buf == [] then []
    else NotBefore(buf[..|buf| - 1], windowStart) + (if buf[|buf| - 1].ts >= windowStart then [buf[|buf| - 1]] else [])
  }

  predicate SysFull(buf: seq<Row>, cursorMs: int, windowStart: int) {
    cursorMs <= 0 || buf == [] || cursorMs < Ms(windowStart) || cursorMs > Ms(buf[|buf| - 1].ts)
  }

  predicate GroupsFull(buf: seq<Row>, cursorMs: int) {
    cursorMs <= 0 || buf == [] || cursorMs < Ms(buf[0].ts) || cursorMs > Ms(buf[|buf| - 1].ts)
  }

  method NewerRows(buf: seq<Row>, cursorMs: int) returns (out: seq<Row>)
    ensures out == buf[NewerFrom(buf, cursorMs)..]
  {
    var i := |buf|;
    assert buf[..i] == buf;
    while i > 0 && Ms(buf[i - 1].ts) > cursorMs
      invariant 0 <= i <= |buf|
      invariant NewerFrom(buf[..i], cursorMs) == NewerFrom(buf, cursorMs)
    {
      assert buf[..i][..i - 1] == buf[..i - 1];
      i := i - 1;
    }
    out := buf[i..];
  }

  method SysHistSince(buf: seq<Row>, cursorMs: int, windowStart: int) returns (out: seq<Row>, full: bool)
    ensures full == SysFull(buf, cursorMs, windowStart)
    ensures full <==> cursorMs <= 0 || |buf| == 0 || cursorMs < windowStart / 1_000_000
                      || buf[|buf| - 1].ts / 1_000_000 < cursorMs
    ensures out == if full then NotBefore(buf, windowStart) else buf[NewerFrom(buf, cursorMs)..]
  {
    if cursorMs <= 0 || |buf| == 0 || cursorMs < Ms(windowStart) || cursorMs > Ms(buf[|buf| - 1].ts) {
      out := [];
      var i := 0;
      while i < |buf|
        invariant 0 <= i <= |buf| && out == NotBefore(buf[..i], windowStart)
      {
        assert buf[..i + 1][..i] == buf[..i];
        if buf[i].ts >= windowStart {
          out := out + [buf[i]];
        }
        i := i + 1;
      }
      assert buf[..i] == buf;
      return out, true;
    }
    out := NewerRows(buf, cursorMs);
    full := false;
  }

  method GroupsHistSince(buf: seq<Row>, cursorMs: int) returns (out: seq<Row>, full: bool)
    ensures full == GroupsFull(buf, cursorMs)
    ensures full <==> cursorMs <= 0 || |buf| == 0 || cursorMs < buf[0].ts / 1_000_000
                      || buf[|buf| - 1].ts / 1_000_000 < cursorMs
    ensures out == if full then buf else buf[NewerFrom(buf, cursorMs)..]
  {
    if cursorMs <= 0 || |buf| == 0 || cursorMs < Ms(buf[0].ts) || cursorMs > Ms(buf[|buf| - 1].ts) {
      return buf, true;
    }
    out := NewerRows(buf, cursorMs);
    full := false;
  }

  // ----- the page -----

  function NewestMs(ring: seq<Row>): int { if ring == [] then 0 else Ms(ring[|ring| - 1].ts) }

  function NewerThan(rows: seq<Row>, ms: int): seq<Row> {
    if rows == [] then []
    else NewerThan(rows[..|rows| - 1], ms) + (if Ms(rows[|rows| - 1].ts) > ms then [rows[|rows| - 1]] else [])
  }

  function MergeRing(ring: seq<Row>, rows: seq<Row>, full: bool): seq<Row> {
    if full then rows else ring + NewerThan(rows, NewestMs(ring))
  }

  /** How many rows at the front fall before the cutoff. */
  function FrontBefore(rows: seq<Row>, cutoffMs: int): nat
    ensures FrontBefore(rows, cutoffMs) <= |rows|
  {
    if rows == [] || Ms(rows[0].ts) >= cutoffMs then 0 else 1 + FrontBefore(rows[1..], cutoffMs)
  }

  function PruneRing(ring: seq<Row>, cutoffMs: int): seq<Row> { ring[FrontBefore(ring, cutoffMs)..] }

  // ----- the buffer -----

  function FrontOlder(rows: seq<Row>, cutoff: int): nat
    ensures FrontOlder(rows, cutoff) <= |rows|
  {
    if rows == [] || rows[0].ts >= cutoff then 0 else 1 + FrontOlder(rows[1..], cutoff)
  }

  /** A buffer slice, with the count of entries dropped since its last copy. */
  datatype Buffer = Buffer(rows: seq<Row>, dropped: nat)

  /** pruneFront: reslices, and copies what is left once more has been dropped
      than is kept.  copied is the number of entries the call copies. */
  method PruneFront(buf: Buffer, n: nat) returns (buf': Buffer, copied: nat)
    requires n <= |buf.rows|
    ensures buf'.rows == buf.rows[n..]
    ensures (buf'.dropped, copied) == Pruning(|buf.rows|, buf.dropped, n)
    ensures copied == (if n > 0 && buf.dropped + n > |buf'.rows| then |buf'.rows| else 0)
    ensures buf'.dropped == (if n > 0 && buf.dropped + n > |buf'.rows| then 0 else buf.dropped + n)
  {
    copied := 0;
    if n <= 0 {
      return buf, 0;
    }
    buf' := Buffer(buf.rows[n..], buf.dropped + n);
    if buf'.dropped > |buf'.rows| {
      copied := |buf'.rows|;
      buf' := buf'.(dropped := 0);
    }
  }

  /** The new count, and how many entries are copied. */
  function Pruning(len: nat, dropped: nat, n: nat): (nat, nat)
    requires n <= len
  {
    if n == 0 then (dropped, 0)
    else if dropped + n > len - n then (0, len - n)
    else (dropped + n, 0)
  }

  /** The sampler's loop on one history: append, then prune to the cutoff. */
  method AppendAndPrune(buf: Buffer, batch: seq<Row>, cutoff: int) returns (buf': Buffer)
    ensures var all := buf.rows + batch; buf'.rows == all[FrontOlder(all, cutoff)..]
  {
    var all := buf.rows + batch;
    var drop := 0;
    while drop < |all| && all[drop].ts < cutoff
      invariant 0 <= drop <= |all|
      invariant FrontOlder(all, cutoff) == drop + FrontOlder(all[drop..], cutoff)
    {
      assert all[drop..][1..] == all[drop + 1..];
      drop := drop + 1;
    }
    var copied;
    buf', copied := PruneFront(Buffer(all, buf.dropped), drop);
  }

  // ----- what pruneFront costs -----

  datatype Op = Append(k: nat) | Prune(n: nat)

  /** Length, dropped counter, entries copied and entries dropped so far. */
  datatype Ledger = Ledger(len: nat, dropped: nat, copied: nat, gone: nat)

  predicate Possible(l: Ledger, ops: seq<Op>)
    decreases |ops|
  {
    ops == [] || ((ops[0].Prune? ==> ops[0].n <= l.len) && Possible(AfterOp(l, ops[0]), ops[1..]))
  }

  function AfterOp(l: Ledger, op: Op): Ledger
    requires op.Prune? ==> op.n <= l.len
  {
    match op
    case Append(k) => l.(len := l.len + k)
    case Prune(n) =>
      var p := Pruning(l.len, l.dropped, n);
      Ledger(l.len - n, p.0, l.copied + p.1, l.gone + n)
  }

  function AfterOps(l: Ledger, ops: seq<Op>): Ledger
    requires Possible(l, ops)
    decreases |ops|
  {
    if ops == [] then l else AfterOps(AfterOp(l, ops[0]), ops[1..])
  }

  predicate Balanced(l: Ledger) {
    l.dropped <= l.len && l.copied + l.dropped <= l.gone && (l.gone > 0 ==> l.copied < l.gone)
  }

  lemma {:induction false} OpsBalanced(l: Ledger, ops: seq<Op>)
    requires Balanced(l) && Possible(l, ops)
    ensures Balanced(AfterOps(l, ops))
    decreases |ops|
  {
    if ops != [] { OpsBalanced(AfterOp(l, ops[0]), ops[1..]); }
  }

  /** All entries ever appended, and all ever pruned. */
  function Appended(ops: seq<Op>): nat {
    if ops == [] then 0 else (if ops[0].Append? then ops[0].k else 0) + Appended(ops[1..])
  }

  function Pruned(ops: seq<Op>): nat {
    if ops == [] then 0 else (if ops[0].Prune? then ops[0].n else 0) + Pruned(ops[1..])
  }

  lemma {:induction false} LedgerIs(l: Ledger, ops: seq<Op>)
    requires Possible(l, ops)
    ensures AfterOps(l, ops).len == l.len + Appended(ops) - Pruned(ops)
    ensures AfterOps(l, ops).gone == l.gone + Pruned(ops)
    decreases |ops|
  {
    if ops != [] { LedgerIs(AfterOp(l, ops[0]), ops[1..]); }
  }

  /** Over any run of appends and prunes, the dead prefix never outgrows what is
      kept, and fewer entries are copied than are dropped. */
  lemma {:induction false} PruningIsCheap(ops: seq<Op>)
    requires Possible(Ledger(0, 0, 0, 0), ops)
    ensures var l := AfterOps(Ledger(0, 0, 0, 0), ops);
            && l.len == Appended(ops) - Pruned(ops) && l.gone == Pruned(ops)
            && l.dropped <= l.len && (l.gone > 0 ==> l.copied < l.gone)
  {
    LedgerIs(Ledger(0, 0, 0, 0), ops);
    OpsBalanced(Ledger(0, 0, 0, 0), ops);
  }
}
