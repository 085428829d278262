/** Tool calls and their results: how one read pairs them, how the store merges
    reads, and when the cuts between reads cannot be told from the outcome. */
module ToolCalls {
  import opened Schema
  import opened Histories

  datatype CallKey = CallKey(vendor: string, sessionID: string, callID: string)

  /** The columns of a call that a later row simply overwrites. */
  datatype Details = Details(agent: string, turn: string, tool: string, at: int, inputBytes: int)

  /** A row as the adapters return it.  A result-only row has no details (Tool ""). */
  datatype Row =
    | CallRow(key: CallKey, details: Details, result: Option<int>, path: string)
    | ResultRow(key: CallKey, result: Option<int>, path: string)

  datatype Stored = Stored(details: Details, result: Option<int>, path: string)

  type Table = map<CallKey, Stored>

  function Coalesce(new': Option<int>, old': Option<int>): Option<int> {
    if new'.Some? then new' else old'
  }

  /** One statement of UpsertToolCalls. */
  function ApplyRow(t: Table, r: Row): Table {
    match r
    case CallRow(key, details, result, path) =>
      if key in t then
        t[key := Stored(details, Coalesce(result, t[key].result), if path != "" then path else t[key].path)]
      else t[key := Stored(details, result, path)]
    case ResultRow(key, result, _) =>
      if result.Some? && key in t && t[key].result.None? then t[key := t[key].(result := result)] else t
  }

  function ApplyRows(t: Table, rows: seq<Row>): Table
    decreases |rows|
  {
    if rows == [] then t else ApplyRows(ApplyRow(t, rows[0]), rows[1..])
  }

  class Store {
    var calls: Table

    constructor ()
      ensures calls == map[]
    {
      calls := map[];
    }

    method UpsertToolCalls(rows: seq<Row>)
      modifies this
      ensures calls == ApplyRows(old(calls), rows)
    {
      var i := 0;
      while i < |rows|
        invariant 0 <= i <= |rows|
        invariant ApplyRows(calls, rows[i..]) == ApplyRows(old(calls), rows)
      {
        assert rows[i..][1..] == rows[i + 1..];
        match rows[i] {
          case ResultRow(key, result, _) =>
            if result.Some? {
              if key in calls && calls[key].result.None? {
                calls := calls[key := calls[key].(result := result)];
              }
            }
          case CallRow(key, details, result, path) =>
            if key in calls {
              var was := calls[key];
              var newPath := if path != "" then path else was.path;
              calls := calls[key := Stored(details, Coalesce(result, was.result), newPath)];
            } else {
              calls := calls[key := Stored(details, result, path)];
            }
        }
        i := i + 1;
      }
    }
  }

  // ----- what holds of any rows whatever -----

  /** A known result never becomes unknown again, whatever is replayed. */
  lemma {:induction false} KnownStaysKnown(t: Table, rows: seq<Row>, key: CallKey)
    requires key in t
    ensures key in ApplyRows(t, rows)
    ensures t[key].result.Some? ==> ApplyRows(t, rows)[key].result.Some?
    decreases |rows|
  {
    if rows != [] { KnownStaysKnown(ApplyRow(t, rows[0]), rows[1..], key); }
  }

  /** Only a call row creates a call. */
  lemma {:induction false} OnlyCallsCreate(t: Table, rows: seq<Row>, key: CallKey)
    ensures key in ApplyRows(t, rows)
        <==> key in t || exists i :: 0 <= i < |rows| && rows[i].CallRow? && rows[i].key == key
    decreases |rows|
  {
    if rows != [] {
      var t' := ApplyRow(t, rows[0]);
      OnlyCallsCreate(t', rows[1..], key);
      if i :| 0 <= i < |rows| && rows[i].CallRow? && rows[i].key == key {
        if i > 0 { assert rows[1..][i - 1] == rows[i];
      }
      }
      if i :| 0 <= i < |rows[1..]| && rows[1..][i].CallRow? && rows[1..][i].key == key {
        assert rows[i + 1] == rows[1..][i];
      }
      assert key in t' <==> key in t || (rows[0].CallRow? && rows[0].key == key);
    }
  }

  /** The row names the call and gives what the later columns are made of. */
  predicate CallsIt(r: Row, key: CallKey) { r.CallRow? && r.key == key }

  predicate GivesPath(r: Row, key: CallKey) { CallsIt(r, key) && |r.path| > 0 }

  /** The details stored are those of the last call row. */
  lemma {:induction false} DetailsAreLast(t: Table, rows: seq<Row>, key: CallKey, k: nat)
    requires k < |rows| && CallsIt(rows[k], key) && forall i :: k < i < |rows| ==> !CallsIt(rows[i], key)
    ensures key in ApplyRows(t, rows) && ApplyRows(t, rows)[key].details == rows[k].details
    decreases |rows|
  {
    var t' := ApplyRow(t, rows[0]);
    if k > 0 { DetailsAreLast(t', rows[1..], key, k - 1); } else { RowsLeaveDetails(t', rows[1..], key); }
  }

  /** Without a call row they stay as they are, and so does the path. */
  lemma {:induction false} RowsLeaveDetails(t: Table, rows: seq<Row>, key: CallKey)
    requires key in t && forall i :: 0 <= i < |rows| ==> !CallsIt(rows[i], key)
    ensures key in ApplyRows(t, rows)
    ensures ApplyRows(t, rows)[key].details == t[key].details && ApplyRows(t, rows)[key].path == t[key].path
    decreases |rows|
  {
    if rows != [] { RowsLeaveDetails(ApplyRow(t, rows[0]), rows[1..], key); }
  }

  function PathIn(t: Table, key: CallKey): string { if key in t then t[key].path else "" }

  /** The path stored is that of the last call row that gives one ... */
  lemma {:induction false} PathIsLastGiven(t: Table, rows: seq<Row>, key: CallKey, k: nat)
    requires k < |rows| && GivesPath(rows[k], key) && forall i :: k < i < |rows| ==> !GivesPath(rows[i], key)
    ensures PathIn(ApplyRows(t, rows), key) == rows[k].path
    decreases |rows|
  {
    var t' := ApplyRow(t, rows[0]);
    if k > 0 { PathIsLastGiven(t', rows[1..], key, k - 1); } else { RowsLeavePath(t', rows[1..], key); }
  }

  /** ... and the one before when none does. */
  lemma {:induction false} RowsLeavePath(t: Table, rows: seq<Row>, key: CallKey)
    requires forall i :: 0 <= i < |rows| ==> !GivesPath(rows[i], key)
    ensures PathIn(ApplyRows(t, rows), key) == PathIn(t, key)
    decreases |rows|
  {
    if rows != [] { RowsLeavePath(ApplyRow(t, rows[0]), rows[1..], key); }
  }

  // ----- one read -----

  /** What a transcript says about calls, block by block. */
  datatype Block =
    | Use(key: CallKey, details: Details, path: string)
    | Result(key: CallKey, bytes: int)

  /** pendingCalls, toolCallOrder and lateResults of one Parse. */
  datatype Parsing = Parsing(pending: map<CallKey, Row>, order: seq<CallKey>, late: seq<Row>)

  function ParseBlock(p: Parsing, b: Block): Parsing {
    match b
    case Use(key, details, path) =>
      p.(pending := p.pending[key := CallRow(key, details, None, path)], order := p.order + [key])
    case Result(key, bytes) =>
      if key in p.pending then p.(pending := p.pending[key := WithResult(p.pending[key], bytes)])
      else p.(late := p.late + [ResultRow(key, Some(bytes), "")])
  }

  function WithResult(r: Row, bytes: int): Row {
    match r
    case CallRow(_, _, _, _) => r.(result := Some(bytes))
    case ResultRow(_, _, _) => r.(result := Some(bytes))
  }

  /** A read of the blocks [from, end). */
  function Parse(bs: seq<Block>, from: nat, end: nat): Parsing
    requires from <= end <= |bs|
  {
    if from == end then Parsing(map[], [], []) else ParseBlock(Parse(bs, from, end - 1), bs[end - 1])
  }

  predicate Consistent(p: Parsing) {
    && (forall i :: 0 <= i < |p.order| ==> p.order[i] in p.pending)
    && (forall key :: key in p.pending ==> p.pending[key].CallRow? && p.pending[key].key == key && key in p.order)
  }

  lemma {:induction false} ParseConsistent(bs: seq<Block>, from: nat, end: nat)
    requires from <= end <= |bs|
    ensures Consistent(Parse(bs, from, end))
    decreases end
  {
    if from < end {
      ParseConsistent(bs, from, end - 1);
      var p, b := Parse(bs, from, end - 1), bs[end - 1];
      if b.Use? { assert p.order <= (p.order + [b.key]) && (p.order + [b.key])[|p.order|] == b.key; }
    }
  }

  function PendingRows(pending: map<CallKey, Row>, order: seq<CallKey>): seq<Row>
    requires forall i :: 0 <= i < |order| ==> order[i] in pending
  {
    if order == [] then [] else [pending[order[0]]] + PendingRows(pending, order[1..])
  }

  /** The rows of one read: every call in order, as it ended up, then the late results. */
  function Emit(bs: seq<Block>, from: nat, end: nat): seq<Row>
    requires from <= end <= |bs|
  {
    ParseConsistent(bs, from, end);
    var p := Parse(bs, from, end);
    PendingRows(p.pending, p.order) + p.late
  }

  // ----- one call at a time -----

  /** What the store knows of one call: nothing, or its result so far. */
  type Entry = Option<Option<int>>

  function EntryOf(t: Table, key: CallKey): Entry {
    if key in t then Some(t[key].result) else None
  }

  /** The result a read found for the call after its last Use, if it met a Use. */
  function PendingOf(bs: seq<Block>, from: nat, end: nat, key: CallKey): Entry
    requires from <= end <= |bs|
  {
    if from == end then None
    else
      var before, b := PendingOf(bs, from, end - 1, key), bs[end - 1];
      if b.key != key then before
      else if b.Use? then Some(None)
      else if before.Some? then Some(Some(b.bytes))
      else None
  }

  /** The first result the read met before any Use of the call. */
  function LateOf(bs: seq<Block>, from: nat, end: nat, key: CallKey): Option<int>
    requires from <= end <= |bs|
  {
    if from == end then None
    else
      var before, b := LateOf(bs, from, end - 1, key), bs[end - 1];
      if before.None? && b.key == key && b.Result? && PendingOf(bs, from, end - 1, key).None? then Some(b.bytes)
      else before
  }

  /** The call's entry after the rows of one read. */
  function Merge(e: Entry, pending: Entry, late: Option<int>): Entry {
    var called := if pending.None? then e else Some(Coalesce(pending.value, if e.Some? then e.value else None));
    if called == Some(None) && late.Some? then Some(late) else called
  }

  lemma {:induction false} ApplyAppend(t: Table, a: seq<Row>, b: seq<Row>)
    ensures ApplyRows(t, a + b) == ApplyRows(ApplyRows(t, a), b)
    decreases |a|
  {
    if a == [] {
      assert a + b == b;
    } else {
      assert (a + b)[1..] == a[1..] + b;
      ApplyAppend(ApplyRow(t, a[0]), a[1..], b);
    }
  }

  lemma {:induction false} PendingRowsMerge(t: Table, pending: map<CallKey, Row>, order: seq<CallKey>, key: CallKey)
    requires forall i :: 0 <= i < |order| ==> order[i] in pending
    requires forall k :: k in pending ==> pending[k].CallRow? && pending[k].key == k
    ensures EntryOf(ApplyRows(t, PendingRows(pending, order)), key) ==
            Merge(EntryOf(t, key), if key in order then Some(pending[key].result) else None, None)
    decreases |order|
  {
    if order != [] {
      var r := pending[order[0]];
      var rows := PendingRows(pending, order);
      assert rows[0] == r && rows[1..] == PendingRows(pending, order[1..]);
      PendingRowsMerge(ApplyRow(t, r), pending, order[1..], key);
    }
  }

  function FirstLate(late: seq<Row>, key: CallKey): Option<int>
    requires forall i :: 0 <= i < |late| ==> late[i].ResultRow? && late[i].result.Some?
  {
    if late == [] then None else if late[0].key == key then late[0].result else FirstLate(late[1..], key)
  }

  lemma {:induction false} FirstLateAppend(late: seq<Row>, r: Row, key: CallKey)
    requires forall i :: 0 <= i < |late + [r]| ==> (late + [r])[i].ResultRow? && (late + [r])[i].result.Some?
    ensures forall i :: 0 <= i < |late| ==> late[i].ResultRow? && late[i].result.Some?
    ensures FirstLate(late + [r], key) ==
            (if FirstLate(late, key).Some? then FirstLate(late, key) else if r.key == key then r.result else None)
  {
    forall i | 0 <= i < |late| ensures late[i].ResultRow? && late[i].result.Some? { assert late[i] == (late + [r])[i]; }
    if late == [] {
      assert late + [r] == [r];
      assert (late + [r])[0] == r;
    } else {
      assert (late + [r])[1..] == late[1..] + [r];
      FirstLateAppend(late[1..], r, key);
    }
  }

  lemma {:induction false} LateRowsMerge(t: Table, late: seq<Row>, key: CallKey)
    requires forall i :: 0 <= i < |late| ==> late[i].ResultRow? && late[i].result.Some?
    ensures EntryOf(ApplyRows(t, late), key) == Merge(EntryOf(t, key), None, FirstLate(late, key))
    decreases |late|
  {
    if late != [] {
      LateRowsMerge(ApplyRow(t, late[0]), late[1..], key);
    }
  }

  /** The read's state, seen from one call. */
  lemma {:induction false} ParseSeen(bs: seq<Block>, from: nat, end: nat, key: CallKey)
    requires from <= end <= |bs|
    ensures var p := Parse(bs, from, end);
            && (key in p.pending <==> PendingOf(bs, from, end, key).Some?)
            && (key in p.pending ==> Some(p.pending[key].result) == PendingOf(bs, from, end, key))
            && (forall i :: 0 <= i < |p.late| ==> p.late[i].ResultRow? && p.late[i].result.Some?)
            && FirstLate(p.late, key) == LateOf(bs, from, end, key)
    decreases end
  {
    if from < end {
      ParseSeen(bs, from, end - 1, key);
      var p, b := Parse(bs, from, end - 1), bs[end - 1];
      if b.Result? && b.key !in p.pending {
        FirstLateAppend(p.late, ResultRow(b.key, Some(b.bytes), ""), key);
      }
    }
  }

  /** The store's entry for a call after one read depends on what the read says
      about that call only. */
  lemma {:induction false} ReadMerges(t: Table, bs: seq<Block>, from: nat, end: nat, key: CallKey)
    requires from <= end <= |bs|
    ensures EntryOf(ApplyRows(t, Emit(bs, from, end)), key)
         == Merge(EntryOf(t, key), PendingOf(bs, from, end, key), LateOf(bs, from, end, key))
  {
    ParseConsistent(bs, from, end);
    ParseSeen(bs, from, end, key);
    var p := Parse(bs, from, end);
    var rows := PendingRows(p.pending, p.order);
    ApplyAppend(t, rows, p.late);
    PendingRowsMerge(t, p.pending, p.order, key);
    LateRowsMerge(ApplyRows(t, rows), p.late, key);
  }

  // ----- many reads -----

  function AfterReads(t: Table, bs: seq<Block>, history: seq<Read>, c: nat): Table
    requires Contiguous(history, c, |bs|)
    decreases |history|
  {
    if history == [] then t
    else AfterReads(ApplyRows(t, Emit(bs, history[0].from, history[0].upto)), bs, history[1..], Reached(c, history[0]))
  }

  predicate UsedIn(bs: seq<Block>, from: nat, end: nat, key: CallKey)
    requires from <= end <= |bs|
  {
    exists i :: from <= i < end && bs[i].Use? && bs[i].key == key
  }

  /** The first result in a stretch of blocks. */
  function ResultIn(bs: seq<Block>, from: nat, end: nat, key: CallKey): Option<int>
    requires from <= end <= |bs|
  {
    if from == end then None
    else if ResultIn(bs, from, end - 1, key).Some? then ResultIn(bs, from, end - 1, key)
    else if bs[end - 1].Result? && bs[end - 1].key == key then Some(bs[end - 1].bytes)
    else None
  }

  /** At most one result per call. */
  predicate OneResult(bs: seq<Block>, key: CallKey) {
    forall i, j :: 0 <= i < j < |bs| && bs[i].Result? && bs[j].Result? && bs[i].key == key ==> bs[j].key != key
  }

  /** No Use of the call follows its result. */
  predicate ResultIsLast(bs: seq<Block>, key: CallKey) {
    forall i, j :: 0 <= i < j < |bs| && bs[i].Result? && bs[j].Use? && bs[i].key == key ==> bs[j].key != key
  }

  /** What the store should know of a call after the first c blocks. */
  function Expected(bs: seq<Block>, c: nat, key: CallKey): Entry
    requires c <= |bs|
  {
    if UsedIn(bs, 0, c, key) then Some(ResultIn(bs, 0, c, key)) else None
  }

  lemma {:induction false} ResultFound(bs: seq<Block>, from: nat, end: nat, key: CallKey)
    requires from <= end <= |bs|
    ensures ResultIn(bs, from, end, key).Some? ==>
      exists i :: from <= i < end && bs[i].Result? && bs[i].key == key
        && Some(bs[i].bytes) == ResultIn(bs, from, end, key)
    ensures ResultIn(bs, from, end, key).None? ==> forall i :: from <= i < end && bs[i].Result? ==> bs[i].key != key
    decreases end
  {
    if from < end { ResultFound(bs, from, end - 1, key); }
  }

  /** With at most one result, it is the same one in whatever stretch contains it. */
  lemma {:induction false} ResultUnique(bs: seq<Block>, from: nat, end: nat, from': nat, end': nat, key: CallKey)
    requires OneResult(bs, key) && from <= end <= |bs| && from' <= end' <= |bs|
    requires ResultIn(bs, from, end, key).Some? && ResultIn(bs, from', end', key).Some?
    ensures ResultIn(bs, from, end, key) == ResultIn(bs, from', end', key)
  {
    ResultFound(bs, from, end, key);
    ResultFound(bs, from', end', key);
    var i :| from <= i < end && bs[i].Result? && bs[i].key == key && Some(bs[i].bytes) == ResultIn(bs, from, end, key);
    var j :| from' <= j < end' && bs[j].Result? && bs[j].key == key
      && Some(bs[j].bytes) == ResultIn(bs, from', end', key);
    if i < j { assert false; }
    if j < i { assert false; }
  }

  /** When results come last, a read's view of a call is plain: whether it met
      a Use, and the result it met; the result is late when it met no Use. */
  lemma {:induction false} PlainView(bs: seq<Block>, from: nat, end: nat, key: CallKey)
    requires from <= end <= |bs| && OneResult(bs, key) && ResultIsLast(bs, key)
    ensures UsedIn(bs, from, end, key) ==>
      PendingOf(bs, from, end, key) == Some(ResultIn(bs, from, end, key)) && LateOf(bs, from, end, key) == None
    ensures !UsedIn(bs, from, end, key) ==>
      PendingOf(bs, from, end, key) == None && LateOf(bs, from, end, key) == ResultIn(bs, from, end, key)
    decreases end
  {
    if from < end {
      PlainView(bs, from, end - 1, key);
      ResultFound(bs, from, end - 1, key);
      var b := bs[end - 1];
      if b.Use? && b.key == key {
        assert UsedIn(bs, from, end, key);
        assert ResultIn(bs, from, end - 1, key).None?;
      } else {
        UsedOneMore(bs, from, end, key);
      }
    }
  }

  lemma UsedOneMore(bs: seq<Block>, from: nat, end: nat, key: CallKey)
    requires from < end <= |bs| && !(bs[end - 1].Use? && bs[end - 1].key == key)
    ensures UsedIn(bs, from, end, key) == UsedIn(bs, from, end - 1, key)
  {
    if UsedIn(bs, from, end, key) {
      var i :| from <= i < end && bs[i].Use? && bs[i].key == key;
      assert from <= i < end - 1;
    }
  }

  /** One more read, from anywhere inside what has been read. */
  lemma {:induction false} ReadKeepsExpected(e: Entry, bs: seq<Block>, c: nat, r: Read, key: CallKey)
    requires c <= |bs| && r.from <= c && r.from <= r.upto <= |bs|
    requires OneResult(bs, key) && ResultIsLast(bs, key) && e == Expected(bs, c, key)
    ensures Merge(e, PendingOf(bs, r.from, r.upto, key), LateOf(bs, r.from, r.upto, key))
        == Expected(bs, Reached(c, r), key)
  {
    var c' := Reached(c, r);
    PlainView(bs, r.from, r.upto, key);
    ResultFound(bs, 0, c, key);
    ResultFound(bs, 0, c', key);
    ResultFound(bs, r.from, r.upto, key);
    assert UsedIn(bs, 0, c', key) <==> UsedIn(bs, 0, c, key) || UsedIn(bs, r.from, r.upto, key);
    if ResultIn(bs, 0, c, key).Some? { ResultUnique(bs, 0, c, 0, c', key); }
    if ResultIn(bs, r.from, r.upto, key).Some? { ResultUnique(bs, r.from, r.upto, 0, c', key); }
    UseComesFirst(bs, r.from, r.upto, key);
    UseComesFirst(bs, 0, c, key);
  }

  /** A Use met anywhere lies before the call's result. */
  lemma {:induction false} UseComesFirst(bs: seq<Block>, from: nat, end: nat, key: CallKey)
    requires from <= end <= |bs| && ResultIsLast(bs, key)
    ensures ResultIn(bs, from, end, key).Some? ==> forall j :: end <= j < |bs| && bs[j].Use? ==> bs[j].key != key
  {
    ResultFound(bs, from, end, key);
  }

  lemma {:induction false} ReadsKeepExpected(t: Table, bs: seq<Block>, history: seq<Read>, c: nat, key: CallKey)
    requires c <= |bs| && Contiguous(history, c, |bs|)
    requires OneResult(bs, key) && ResultIsLast(bs, key) && EntryOf(t, key) == Expected(bs, c, key)
    ensures Covered(history, c) <= |bs|
    ensures EntryOf(AfterReads(t, bs, history, c), key) == Expected(bs, Covered(history, c), key)
    decreases |history|
  {
    if history != [] {
      var r := history[0];
      ReadMerges(t, bs, r.from, r.upto, key);
      ReadKeepsExpected(EntryOf(t, key), bs, c, r, key);
      ReadsKeepExpected(ApplyRows(t, Emit(bs, r.from, r.upto)), bs, history[1..], Reached(c, r), key);
    }
  }

  /** Cut the stream anywhere, read stretches again: a call is stored exactly
      when it was used, with its result exactly when the stream has one. */
  lemma {:induction false} CutsDoNotMatter(bs: seq<Block>, history: seq<Read>, key: CallKey)
    requires Complete(history, |bs|) && OneResult(bs, key) && ResultIsLast(bs, key)
    ensures EntryOf(AfterReads(map[], bs, history, 0), key) == Expected(bs, |bs|, key)
  {
    ReadsKeepExpected(map[], bs, history, 0, key);
  }

  // ----- and exactly then -----

  lemma {:induction false} AfterOneRead(bs: seq<Block>)
    ensures Complete(OneRead(|bs|), |bs|)
    ensures AfterReads(map[], bs, OneRead(|bs|), 0) == ApplyRows(map[], Emit(bs, 0, |bs|))
  {
    OneReadIsComplete(|bs|);
  }

  lemma {:induction false} AfterCut(bs: seq<Block>, i: nat)
    requires i <= |bs|
    ensures Complete(CutAt(|bs|, i), |bs|)
    ensures AfterReads(map[], bs, CutAt(|bs|, i), 0)
         == ApplyRows(ApplyRows(map[], Emit(bs, 0, i)), Emit(bs, i, |bs|))
  {
    CutIsComplete(|bs|, i);
    var t := ApplyRows(map[], Emit(bs, 0, i));
    assert AfterReads(t, bs, [Read(i, |bs|)], i) == ApplyRows(t, Emit(bs, i, |bs|));
  }

  lemma {:induction false} PendingOnceUsed(bs: seq<Block>, from: nat, end: nat, key: CallKey)
    requires from <= end <= |bs|
    ensures PendingOf(bs, from, end, key).Some? <==> UsedIn(bs, from, end, key)
    decreases end
  {
    if from < end {
      PendingOnceUsed(bs, from, end - 1, key);
      if !(bs[end - 1].Use? && bs[end - 1].key == key) { UsedOneMore(bs, from, end, key); }
    }
  }

  /** After the result at i, nothing but Uses of the call remain. */
  lemma {:induction false} AfterTheResult(bs: seq<Block>, i: nat, end: nat, key: CallKey)
    requires OneResult(bs, key) && i < end <= |bs| && bs[i].Result? && bs[i].key == key
    ensures PendingOf(bs, i + 1, end, key) == (if UsedIn(bs, i + 1, end, key) then Some(None) else None)
    ensures LateOf(bs, i + 1, end, key) == None
    ensures PendingOf(bs, 0, end, key) ==
            if UsedIn(bs, i + 1, end, key) then Some(None)
            else if UsedIn(bs, 0, i, key) then Some(Some(bs[i].bytes)) else None
    ensures LateOf(bs, 0, end, key) == if UsedIn(bs, 0, i, key) then None else Some(bs[i].bytes)
    decreases end
  {
    if end == i + 1 {
      BeforeTheResult(bs, i, i, key);
      PendingOnceUsed(bs, 0, i, key);
    } else {
      AfterTheResult(bs, i, end - 1, key);
      if !(bs[end - 1].Use? && bs[end - 1].key == key) { UsedOneMore(bs, i + 1, end, key); }
    }
  }

  lemma {:induction false} BeforeTheResult(bs: seq<Block>, i: nat, end: nat, key: CallKey)
    requires OneResult(bs, key) && end <= i < |bs| && bs[i].Result? && bs[i].key == key
    ensures PendingOf(bs, 0, end, key) == (if UsedIn(bs, 0, end, key) then Some(None) else None)
    ensures LateOf(bs, 0, end, key) == None
    decreases end
  {
    if end > 0 {
      BeforeTheResult(bs, i, end - 1, key);
      if !(bs[end - 1].Use? && bs[end - 1].key == key) { UsedOneMore(bs, 0, end, key); }
    }
  }

  /** A Use after the result makes the cut right after the result store another
      result than a single read: one knows it, the other does not. */
  lemma LateUseShows(bs: seq<Block>, i: nat, j: nat, key: CallKey)
    requires OneResult(bs, key) && i < j < |bs|
    requires bs[i].Result? && bs[i].key == key && bs[j].Use? && bs[j].key == key
    ensures EntryOf(ApplyRows(ApplyRows(map[], Emit(bs, 0, i + 1)), Emit(bs, i + 1, |bs|)), key)
         != EntryOf(ApplyRows(map[], Emit(bs, 0, |bs|)), key)
  {
    ReadMerges(map[], bs, 0, |bs|, key);
    var t := ApplyRows(map[], Emit(bs, 0, i + 1));
    ReadMerges(map[], bs, 0, i + 1, key);
    ReadMerges(t, bs, i + 1, |bs|, key);
    assert UsedIn(bs, i + 1, |bs|, key);
    AfterTheResult(bs, i, i + 1, key);
    AfterTheResult(bs, i, |bs|, key);
  }

  /** For a call with at most one result, the stored result is independent of
      where the reads were cut exactly when no Use of it follows its result. */
  lemma {:induction false} CutsDoNotMatterIff(bs: seq<Block>, key: CallKey)
    requires OneResult(bs, key)
    ensures ResultIsLast(bs, key) <==>
      forall history :: Complete(history, |bs|) ==>
        EntryOf(AfterReads(map[], bs, history, 0), key) == EntryOf(AfterReads(map[], bs, OneRead(|bs|), 0), key)
  {
    var one := OneRead(|bs|);
    AfterOneRead(bs);
    if ResultIsLast(bs, key) {
      CutsDoNotMatter(bs, one, key);
      forall history | Complete(history, |bs|)
        ensures EntryOf(AfterReads(map[], bs, history, 0), key) == EntryOf(AfterReads(map[], bs, one, 0), key)
      {
        CutsDoNotMatter(bs, history, key);
      }
    } else {
      var i, j :| 0 <= i < j < |bs| && bs[i].Result? && bs[j].Use? && bs[i].key == key && bs[j].key == key;
      LateUseShows(bs, i, j, key);
      AfterCut(bs, i + 1);
    }
  }
}
