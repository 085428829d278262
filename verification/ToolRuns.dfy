/** Tool calls under interleaved passes: batches, crashes and late cursor writes
    leave of a call what the transcript says of it. */
module ToolRuns {
  import opened Schema
  import opened ToolCalls

  /** A pass over the transcript: its first and, once parsed, its last block. */
  datatype Pass =
    | Reading(from: nat)
    | Writing(from: nat, upto: nat, rows: seq<Row>, done: nat)   // rows[..done] upserted

  /** The first n blocks of the transcript are written; the cursor is a count of blocks. */
  datatype World = World(n: nat, calls: Table, cursor: nat, passes: map<nat, Pass>)

  datatype Action =
    | Grow
    | Begin(id: nat, from: nat)
    | Read(id: nat)
    | Batch(id: nat, end: nat)    // one UpsertToolCalls transaction
    | Finish(id: nat)             // SetCursor
    | Crash(id: nat)
    | Other(rows: seq<Row>)       // rows of another transcript

  const Init := World(0, map[], 0, map[])

  predicate Enabled(bs: seq<Block>, w: World, a: Action) {
    match a
    case Grow => w.n < |bs|
    case Begin(id, from) => id !in w.passes && (from == 0 || from == w.cursor)
    case Read(id) => id in w.passes && w.passes[id].Reading? && w.passes[id].from <= w.n <= |bs|
    case Batch(id, end) =>
      id in w.passes && w.passes[id].Writing? && w.passes[id].done <= end <= |w.passes[id].rows|
    case Finish(id) => id in w.passes && w.passes[id].Writing? && w.passes[id].done == |w.passes[id].rows|
    case Crash(id) => id in w.passes
    case Other(_) => true
  }

  function Apply(bs: seq<Block>, w: World, a: Action): World
    requires Enabled(bs, w, a)
  {
    match a
    case Grow => w.(n := w.n + 1)
    case Begin(id, from) => w.(passes := w.passes[id := Reading(from)])
    case Read(id) =>
      var from := w.passes[id].from;
      w.(passes := w.passes[id := Writing(from, w.n, Emit(bs, from, w.n), 0)])
    case Batch(id, end) =>
      var p := w.passes[id];
      w.(calls := ApplyRows(w.calls, p.rows[p.done..end]), passes := w.passes[id := p.(done := end)])
    case Finish(id) => w.(cursor := w.passes[id].upto, passes := w.passes - {id})
    case Crash(id) => w.(passes := w.passes - {id})
    case Other(rows) => w.(calls := ApplyRows(w.calls, rows))
  }

  /** Other transcripts do not name the call. */
  predicate Respects(a: Action, key: CallKey) {
    a.Other? ==> forall r :: r in a.rows ==> r.key != key
  }

  predicate IsRun(bs: seq<Block>, w: World, actions: seq<Action>, key: CallKey)
    decreases |actions|
  {
    actions == []
    || (Enabled(bs, w, actions[0]) && Respects(actions[0], key)
      && IsRun(bs, Apply(bs, w, actions[0]), actions[1..], key))
  }

  function After(bs: seq<Block>, w: World, actions: seq<Action>, key: CallKey): World
    requires IsRun(bs, w, actions, key)
    decreases |actions|
  {
    if actions == [] then w else After(bs, Apply(bs, w, actions[0]), actions[1..], key)
  }

  // ----- what is true, and what is known -----

  /** The entry says nothing the first n blocks do not. */
  predicate IsTrue(bs: seq<Block>, n: nat, e: Entry, key: CallKey) {
    n <= |bs| && (e.Some? ==> UsedIn(bs, 0, n, key) && (e.value.Some? ==> e.value == ResultIn(bs, 0, n, key)))
  }

  predicate RowIsTrue(bs: seq<Block>, n: nat, r: Row, key: CallKey) {
    n <= |bs| && (r.key == key ==>
      (r.CallRow? ==> UsedIn(bs, 0, n, key)) && (r.result.Some? ==> r.result == ResultIn(bs, 0, n, key)))
  }

  ghost predicate RowsAreTrue(bs: seq<Block>, n: nat, rows: seq<Row>, key: CallKey) {
    forall r :: r in rows ==> RowIsTrue(bs, n, r, key)
  }

  predicate HasResult(e: Entry) { e.Some? && e.value.Some? }

  /** The first c blocks hold a result of a call that was used. */
  predicate Answered(bs: seq<Block>, c: nat, key: CallKey)
    requires c <= |bs|
  {
    UsedIn(bs, 0, c, key) && ResultIn(bs, 0, c, key).Some?
  }

  /** The entry tells all the first c blocks say. */
  predicate Knows(bs: seq<Block>, c: nat, e: Entry, key: CallKey) {
    c <= |bs| && (UsedIn(bs, 0, c, key) ==> e.Some?) && (Answered(bs, c, key) ==> HasResult(e))
  }

  predicate CallComing(rows: seq<Row>, key: CallKey) {
    exists i :: 0 <= i < |rows| && rows[i].CallRow? && rows[i].key == key
  }

  /** A result that will be stored, a late one only for a call that is there. */
  predicate ResultComing(rows: seq<Row>, key: CallKey, there: bool) {
    exists i :: 0 <= i < |rows| && rows[i].key == key && rows[i].result.Some? && (rows[i].CallRow? || there)
  }

  ghost predicate PassKnows(bs: seq<Block>, n: nat, t: Table, pass: Pass, key: CallKey) {
    && pass.from <= n <= |bs| && Knows(bs, pass.from, EntryOf(t, key), key)
    && (pass.Writing? ==>
          && pass.from <= pass.upto <= n && pass.done <= |pass.rows| && RowsAreTrue(bs, n, pass.rows, key)
          && (UsedIn(bs, 0, pass.upto, key) ==> key in t || CallComing(pass.rows[pass.done..], key))
          && (Answered(bs, pass.upto, key) ==>
                HasResult(EntryOf(t, key)) || ResultComing(pass.rows[pass.done..], key, key in t)))
  }

  ghost predicate Inv(bs: seq<Block>, w: World, key: CallKey) {
    && w.cursor <= w.n <= |bs|
    && IsTrue(bs, w.n, EntryOf(w.calls, key), key) && Knows(bs, w.cursor, EntryOf(w.calls, key), key)
    && forall id :: id in w.passes ==> PassKnows(bs, w.n, w.calls, w.passes[id], key)
  }

  // ----- more blocks -----

  lemma {:induction false} ResultGrows(bs: seq<Block>, c: nat, n: nat, key: CallKey)
    requires c <= n <= |bs| && ResultIn(bs, 0, c, key).Some?
    ensures ResultIn(bs, 0, n, key) == ResultIn(bs, 0, c, key)
    decreases n
  {
    if c < n { ResultGrows(bs, c, n - 1, key); }
  }

  lemma {:induction false} UsedGrows(bs: seq<Block>, f: nat, c: nat, n: nat, key: CallKey)
    requires f <= c <= n <= |bs| && UsedIn(bs, f, c, key)
    ensures UsedIn(bs, 0, n, key)
  {
    var i :| f <= i < c && bs[i].Use? && bs[i].key == key;
  }

  lemma TrueGrows(bs: seq<Block>, n: nat, e: Entry, key: CallKey)
    requires IsTrue(bs, n, e, key) && n < |bs|
    ensures IsTrue(bs, n + 1, e, key)
  {
    if e.Some? {
      UsedGrows(bs, 0, n, n + 1, key);
      if e.value.Some? { ResultGrows(bs, n, n + 1, key); }
    }
  }

  lemma RowsTrueGrow(bs: seq<Block>, n: nat, rows: seq<Row>, key: CallKey)
    requires RowsAreTrue(bs, n, rows, key) && n < |bs|
    ensures RowsAreTrue(bs, n + 1, rows, key)
  {
    forall r | r in rows ensures RowIsTrue(bs, n + 1, r, key) {
      assert RowIsTrue(bs, n, r, key);
      if r.key == key && r.CallRow? { UsedGrows(bs, 0, n, n + 1, key); }
      if r.key == key && r.result.Some? { ResultGrows(bs, n, n + 1, key); }
    }
  }

  lemma GrowKeepsInv(bs: seq<Block>, w: World, key: CallKey)
    requires Inv(bs, w, key) && w.n < |bs|
    ensures Inv(bs, Apply(bs, w, Grow), key)
  {
    TrueGrows(bs, w.n, EntryOf(w.calls, key), key);
    forall id | id in w.passes ensures PassKnows(bs, w.n + 1, w.calls, w.passes[id], key) {
      assert PassKnows(bs, w.n, w.calls, w.passes[id], key);
      if w.passes[id].Writing? { RowsTrueGrow(bs, w.n, w.passes[id].rows, key); }
    }
  }

  // ----- a read -----

  lemma {:induction false} PendingRowsAre(pending: map<CallKey, Row>, order: seq<CallKey>, r: Row)
    requires forall i :: 0 <= i < |order| ==> order[i] in pending
    ensures r in PendingRows(pending, order) <==> exists k :: k in order && pending[k] == r
    decreases |order|
  {
    if order != [] { PendingRowsAre(pending, order[1..], r); }
  }

  /** A late row repeats a result of the stretch. */
  lemma {:induction false} LateIsTrue(bs: seq<Block>, from: nat, end: nat, r: Row)
    requires from <= end <= |bs| && r in Parse(bs, from, end).late
    ensures r.ResultRow? && r.result.Some?
    ensures exists i :: from <= i < end && bs[i].Result? && bs[i].key == r.key && Some(bs[i].bytes) == r.result
    decreases end
  {
    var before := Parse(bs, from, end - 1);
    if r in before.late { LateIsTrue(bs, from, end - 1, r); }
  }

  lemma {:induction false} EmitIsTrue(bs: seq<Block>, from: nat, n: nat, r: Row, key: CallKey)
    requires OneResult(bs, key) && ResultIsLast(bs, key) && from <= n <= |bs| && r in Emit(bs, from, n)
    ensures RowIsTrue(bs, n, r, key)
  {
    var p := Parse(bs, from, n);
    ParseConsistent(bs, from, n);
    PendingRowsAre(p.pending, p.order, r);
    if r.key == key {
      if r in PendingRows(p.pending, p.order) {
        var k :| k in p.order && p.pending[k] == r;
        PendingIsTrue(bs, from, n, key);
      } else {
        LateIsTrue(bs, from, n, r);
        var i :| from <= i < n && bs[i].Result? && bs[i].key == key && Some(bs[i].bytes) == r.result;
        OnlyResult(bs, n, i, key);
      }
    }
  }

  lemma {:induction false} PendingIsTrue(bs: seq<Block>, from: nat, n: nat, key: CallKey)
    requires OneResult(bs, key) && ResultIsLast(bs, key) && from <= n <= |bs| && key in Parse(bs, from, n).pending
    ensures UsedIn(bs, from, n, key) && UsedIn(bs, 0, n, key)
    ensures Parse(bs, from, n).pending[key].result == ResultIn(bs, from, n, key)
    ensures ResultIn(bs, from, n, key).Some? ==> ResultIn(bs, from, n, key) == ResultIn(bs, 0, n, key)
  {
    ParseSeen(bs, from, n, key);
    PlainView(bs, from, n, key);
    UsedGrows(bs, from, n, n, key);
    SameResult(bs, from, n, key);
  }

  /** The call's one result, from wherever it is looked for. */
  lemma {:induction false} OnlyResult(bs: seq<Block>, n: nat, i: nat, key: CallKey)
    requires OneResult(bs, key) && i < n <= |bs| && bs[i].Result? && bs[i].key == key
    ensures ResultIn(bs, 0, n, key) == Some(bs[i].bytes)
  {
    ResultFound(bs, 0, n, key);
    var j :| 0 <= j < n && bs[j].Result? && bs[j].key == key && Some(bs[j].bytes) == ResultIn(bs, 0, n, key);
    assert !(i < j) && !(j < i);
  }

  lemma {:induction false} SameResult(bs: seq<Block>, from: nat, n: nat, key: CallKey)
    requires OneResult(bs, key) && from <= n <= |bs|
    ensures ResultIn(bs, from, n, key).Some? ==> ResultIn(bs, from, n, key) == ResultIn(bs, 0, n, key)
  {
    ResultFound(bs, from, n, key);
    if ResultIn(bs, from, n, key).Some? {
      var i :| from <= i < n && bs[i].Result? && bs[i].key == key && Some(bs[i].bytes) == ResultIn(bs, from, n, key);
      OnlyResult(bs, n, i, key);
    }
  }

  /** A read that meets the call emits it, with its result if it meets that too. */
  lemma {:induction false} EmitsCall(bs: seq<Block>, from: nat, n: nat, key: CallKey) returns (r: Row)
    requires OneResult(bs, key) && ResultIsLast(bs, key) && from <= n <= |bs| && UsedIn(bs, from, n, key)
    ensures r in Emit(bs, from, n) && r.CallRow? && r.key == key && r.result == ResultIn(bs, from, n, key)
  {
    var p := Parse(bs, from, n);
    ParseConsistent(bs, from, n);
    ParseSeen(bs, from, n, key);
    PlainView(bs, from, n, key);
    r := p.pending[key];
    PendingRowsAre(p.pending, p.order, r);
  }

  /** One that meets the result only emits that. */
  lemma {:induction false} EmitsResult(bs: seq<Block>, from: nat, n: nat, key: CallKey) returns (r: Row)
    requires OneResult(bs, key) && ResultIsLast(bs, key) && from <= n <= |bs|
    requires !UsedIn(bs, from, n, key) && ResultIn(bs, from, n, key).Some?
    ensures r in Emit(bs, from, n) && r.key == key && r.result.Some?
  {
    ParseSeen(bs, from, n, key);
    PlainView(bs, from, n, key);
    r := FirstLateIn(Parse(bs, from, n).late, key);
  }

  lemma {:induction false} FirstLateIn(late: seq<Row>, key: CallKey) returns (r: Row)
    requires forall i :: 0 <= i < |late| ==> late[i].ResultRow? && late[i].result.Some?
    requires FirstLate(late, key).Some?
    ensures r in late && r.key == key && r.result.Some?
    decreases |late|
  {
    if late[0].key == key { r := late[0]; } else { r := FirstLateIn(late[1..], key); }
  }

  lemma {:induction false} ResultSplits(bs: seq<Block>, from: nat, n: nat, key: CallKey)
    requires from <= n <= |bs| && ResultIn(bs, 0, n, key).Some?
    ensures ResultIn(bs, 0, from, key).Some? || ResultIn(bs, from, n, key).Some?
  {
    ResultFound(bs, 0, n, key);
    ResultFound(bs, 0, from, key);
    ResultFound(bs, from, n, key);
  }

  lemma ReadPassKnows(bs: seq<Block>, n: nat, t: Table, from: nat, key: CallKey)
    requires OneResult(bs, key) && ResultIsLast(bs, key) && from <= n <= |bs| && Knows(bs, from, EntryOf(t, key), key)
    ensures PassKnows(bs, n, t, Writing(from, n, Emit(bs, from, n), 0), key)
  {
    var rows := Emit(bs, from, n);
    assert rows[0..] == rows;
    forall r | r in rows ensures RowIsTrue(bs, n, r, key) { EmitIsTrue(bs, from, n, r, key); }
    if UsedIn(bs, from, n, key) {
      var r := EmitsCall(bs, from, n, key);
      var i :| 0 <= i < |rows| && rows[i] == r;
    }
    if Answered(bs, n, key) { ReadAnswers(bs, n, t, from, key); }
  }

  lemma {:induction false} ReadAnswers(bs: seq<Block>, n: nat, t: Table, from: nat, key: CallKey)
    requires OneResult(bs, key) && ResultIsLast(bs, key) && from <= n <= |bs| && Knows(bs, from, EntryOf(t, key), key)
    requires Answered(bs, n, key)
    ensures HasResult(EntryOf(t, key)) || ResultComing(Emit(bs, from, n), key, key in t)
  {
    var rows := Emit(bs, from, n);
    ResultSplits(bs, from, n, key);
    UseComesFirst(bs, 0, from, key);
    if ResultIn(bs, 0, from, key).None? {
      var r: Row;
      if UsedIn(bs, from, n, key) { r := EmitsCall(bs, from, n, key); } else { r := EmitsResult(bs, from, n, key); }
      var i :| 0 <= i < |rows| && rows[i] == r;
    }
  }

  // ----- a batch -----

  /** The entry of the call has lost nothing. */
  predicate Grown(e: Entry, e': Entry) { (e.Some? ==> e'.Some?) && (HasResult(e) ==> HasResult(e')) }

  lemma PassSurvives(bs: seq<Block>, n: nat, t: Table, t': Table, pass: Pass, key: CallKey)
    requires PassKnows(bs, n, t, pass, key) && Grown(EntryOf(t, key), EntryOf(t', key))
    ensures PassKnows(bs, n, t', pass, key)
  {
  }

  lemma {:induction false} RowsApplied(bs: seq<Block>, n: nat, t: Table, rows: seq<Row>, key: CallKey)
    requires IsTrue(bs, n, EntryOf(t, key), key) && RowsAreTrue(bs, n, rows, key)
    ensures IsTrue(bs, n, EntryOf(ApplyRows(t, rows), key), key)
    decreases |rows|
  {
    if rows != [] {
      assert rows[0] in rows && RowIsTrue(bs, n, rows[0], key);
      assert forall r :: r in rows[1..] ==> r in rows;
      RowsApplied(bs, n, ApplyRow(t, rows[0]), rows[1..], key);
    }
  }

  lemma {:induction false} ResultApplied(t: Table, rows: seq<Row>, i: nat, key: CallKey)
    requires i < |rows| && rows[i].key == key && rows[i].result.Some? && (rows[i].CallRow? || key in t)
    ensures HasResult(EntryOf(ApplyRows(t, rows), key))
    decreases |rows|
  {
    var t' := ApplyRow(t, rows[0]);
    if i == 0 { KnownStaysKnown(t', rows[1..], key); } else { ResultApplied(t', rows[1..], i - 1, key); }
  }

  lemma {:induction false} BatchGrows(t: Table, rows: seq<Row>, key: CallKey)
    ensures Grown(EntryOf(t, key), EntryOf(ApplyRows(t, rows), key))
  {
    if key in t { KnownStaysKnown(t, rows, key); }
  }

  lemma {:induction false} CallStillComing(t: Table, rows: seq<Row>, done: nat, end: nat, key: CallKey)
    requires done <= end <= |rows| && (key in t || CallComing(rows[done..], key))
    ensures key in ApplyRows(t, rows[done..end]) || CallComing(rows[end..], key)
  {
    var batch := rows[done..end];
    OnlyCallsCreate(t, batch, key);
    if key !in t {
      var i :| 0 <= i < |rows[done..]| && rows[done..][i].CallRow? && rows[done..][i].key == key;
      if i < end - done {
        assert batch[i] == rows[done..][i];
      } else {
        assert rows[end..][i - (end - done)] == rows[done..][i];
      }
    }
  }

  lemma {:induction false} ResultStillComing(t: Table, rows: seq<Row>, done: nat, end: nat, key: CallKey)
    requires done <= end <= |rows| && (HasResult(EntryOf(t, key)) || ResultComing(rows[done..], key, key in t))
    ensures var t' := ApplyRows(t, rows[done..end]);
            HasResult(EntryOf(t', key)) || ResultComing(rows[end..], key, key in t')
  {
    var batch := rows[done..end];
    BatchGrows(t, batch, key);
    if !HasResult(EntryOf(t, key)) {
      var i :| 0 <= i < |rows[done..]| && rows[done..][i].key == key && rows[done..][i].result.Some?
               && (rows[done..][i].CallRow? || key in t);
      if i < end - done {
        assert batch[i] == rows[done..][i];
        ResultApplied(t, batch, i, key);
      } else {
        assert rows[end..][i - (end - done)] == rows[done..][i];
      }
    }
  }

  lemma {:induction false} BatchPassKnows(bs: seq<Block>, n: nat, t: Table, pass: Pass, end: nat, key: CallKey)
    requires PassKnows(bs, n, t, pass, key) && pass.Writing? && pass.done <= end <= |pass.rows|
    ensures PassKnows(bs, n, ApplyRows(t, pass.rows[pass.done..end]), pass.(done := end), key)
  {
    BatchGrows(t, pass.rows[pass.done..end], key);
    if UsedIn(bs, 0, pass.upto, key) { CallStillComing(t, pass.rows, pass.done, end, key); }
    if Answered(bs, pass.upto, key) { ResultStillComing(t, pass.rows, pass.done, end, key); }
  }

  lemma BatchKeepsInv(bs: seq<Block>, w: World, id: nat, end: nat, key: CallKey)
    requires Inv(bs, w, key) && Enabled(bs, w, Batch(id, end))
    ensures Inv(bs, Apply(bs, w, Batch(id, end)), key)
  {
    var pass := w.passes[id];
    var batch := pass.rows[pass.done..end];
    var w' := Apply(bs, w, Batch(id, end));
    assert PassKnows(bs, w.n, w.calls, pass, key);
    assert forall r :: r in batch ==> r in pass.rows;
    RowsApplied(bs, w.n, w.calls, batch, key);
    BatchGrows(w.calls, batch, key);
    BatchPassKnows(bs, w.n, w.calls, pass, end, key);
    forall i | i in w'.passes ensures PassKnows(bs, w'.n, w'.calls, w'.passes[i], key) {
      if i != id { PassSurvives(bs, w.n, w.calls, w'.calls, w.passes[i], key);
    }
    }
  }

  lemma {:induction false} OtherRowsMissKey(t: Table, rows: seq<Row>, key: CallKey)
    requires forall r :: r in rows ==> r.key != key
    ensures EntryOf(ApplyRows(t, rows), key) == EntryOf(t, key)
    decreases |rows|
  {
    if rows != [] {
      assert rows[0] in rows;
      OtherRowsMissKey(ApplyRow(t, rows[0]), rows[1..], key);
    }
  }

  lemma OtherKeepsInv(bs: seq<Block>, w: World, rows: seq<Row>, key: CallKey)
    requires Inv(bs, w, key) && Respects(Other(rows), key)
    ensures Inv(bs, Apply(bs, w, Other(rows)), key)
  {
    OtherRowsMissKey(w.calls, rows, key);
    forall i | i in w.passes ensures PassKnows(bs, w.n, ApplyRows(w.calls, rows), w.passes[i], key) {
      PassSurvives(bs, w.n, w.calls, ApplyRows(w.calls, rows), w.passes[i], key);
    }
  }

  lemma ReadKeepsInv(bs: seq<Block>, w: World, id: nat, key: CallKey)
    requires OneResult(bs, key) && ResultIsLast(bs, key) && Inv(bs, w, key) && Enabled(bs, w, Read(id))
    ensures Inv(bs, Apply(bs, w, Read(id)), key)
  {
    var w' := Apply(bs, w, Read(id));
    assert PassKnows(bs, w.n, w.calls, w.passes[id], key);
    ReadPassKnows(bs, w.n, w.calls, w.passes[id].from, key);
    forall i | i in w'.passes ensures PassKnows(bs, w'.n, w'.calls, w'.passes[i], key) {
      if i != id { assert PassKnows(bs, w.n, w.calls, w.passes[i], key);
    }
    }
  }

  lemma BeginKeepsInv(bs: seq<Block>, w: World, a: Action, key: CallKey)
    requires Inv(bs, w, key) && Enabled(bs, w, a) && (a.Begin? || a.Crash?)
    ensures Inv(bs, Apply(bs, w, a), key)
  {
  }

  lemma FinishKeepsInv(bs: seq<Block>, w: World, id: nat, key: CallKey)
    requires Inv(bs, w, key) && Enabled(bs, w, Finish(id))
    ensures Inv(bs, Apply(bs, w, Finish(id)), key)
  {
    assert PassKnows(bs, w.n, w.calls, w.passes[id], key);
  }

  /** Every step of any pass keeps it. */
  lemma StepKeepsInv(bs: seq<Block>, w: World, a: Action, key: CallKey)
    requires OneResult(bs, key) && ResultIsLast(bs, key)
    requires Inv(bs, w, key) && Enabled(bs, w, a) && Respects(a, key)
    ensures Inv(bs, Apply(bs, w, a), key)
  {
    match a
    case Grow => GrowKeepsInv(bs, w, key);
    case Begin(_, _) => BeginKeepsInv(bs, w, a, key);
    case Read(id) => ReadKeepsInv(bs, w, id, key);
    case Batch(id, end) => BatchKeepsInv(bs, w, id, end, key);
    case Finish(id) => FinishKeepsInv(bs, w, id, key);
    case Crash(_) => BeginKeepsInv(bs, w, a, key);
    case Other(rows) => OtherKeepsInv(bs, w, rows, key);
  }

  lemma {:induction false} RunKeepsInv(bs: seq<Block>, w: World, actions: seq<Action>, key: CallKey)
    requires OneResult(bs, key) && ResultIsLast(bs, key) && Inv(bs, w, key) && IsRun(bs, w, actions, key)
    ensures Inv(bs, After(bs, w, actions, key), key)
    decreases |actions|
  {
    if actions != [] {
      StepKeepsInv(bs, w, actions[0], key);
      RunKeepsInv(bs, Apply(bs, w, actions[0]), actions[1..], key);
    }
  }

  /** Whatever passes, batches and crashes interleave: what is stored of a call is
      true of the transcript, and tells all that stands before the cursor. */
  lemma {:induction false} CallIsKnown(bs: seq<Block>, actions: seq<Action>, key: CallKey)
    requires OneResult(bs, key) && ResultIsLast(bs, key) && IsRun(bs, Init, actions, key)
    ensures var w := After(bs, Init, actions, key);
            && IsTrue(bs, w.n, EntryOf(w.calls, key), key) && Knows(bs, w.cursor, EntryOf(w.calls, key), key)
            && (w.cursor == w.n ==> EntryOf(w.calls, key) == Expected(bs, w.n, key))
  {
    RunKeepsInv(bs, Init, actions, key);
    var w := After(bs, Init, actions, key);
    if w.cursor == w.n { KnownAndTrue(bs, w.n, EntryOf(w.calls, key), key); }
  }

  lemma KnownAndTrue(bs: seq<Block>, n: nat, e: Entry, key: CallKey)
    requires IsTrue(bs, n, e, key) && Knows(bs, n, e, key)
    ensures e == Expected(bs, n, key)
  {
  }

  // ----- what the steps do -----

  lemma {:induction false} RunsJoin(bs: seq<Block>, w: World, a: seq<Action>, b: seq<Action>, key: CallKey)
    requires IsRun(bs, w, a, key) && IsRun(bs, After(bs, w, a, key), b, key)
    ensures IsRun(bs, w, a + b, key) && After(bs, w, a + b, key) == After(bs, After(bs, w, a, key), b, key)
    decreases |a|
  {
    if a == [] {
      assert a + b == b;
    } else {
      assert (a + b)[1..] == a[1..] + b;
      RunsJoin(bs, Apply(bs, w, a[0]), a[1..], b, key);
    }
  }

  lemma {:induction false} FileGrows(bs: seq<Block>, w: World, key: CallKey) returns (actions: seq<Action>)
    requires w.n <= |bs|
    ensures IsRun(bs, w, actions, key) && After(bs, w, actions, key) == w.(n := |bs|)
    decreases |bs| - w.n
  {
    actions := [];
    if w.n < |bs| {
      var rest := FileGrows(bs, w.(n := w.n + 1), key);
      actions := [Grow] + rest;
      assert actions[1..] == rest;
    }
  }

  /** The batches still to come, 1,000 rows each, and the cursor. */
  lemma {:induction false} BatchesDo(bs: seq<Block>, w: World, id: nat, key: CallKey) returns (actions: seq<Action>)
    requires id in w.passes && w.passes[id].Writing? && w.passes[id].done <= |w.passes[id].rows|
    ensures IsRun(bs, w, actions, key)
    ensures var p := w.passes[id];
            After(bs, w, actions, key) == w.(
              calls := ApplyRows(w.calls, p.rows[p.done..]), cursor := p.upto, passes := w.passes - {id})
    decreases |w.passes[id].rows| - w.passes[id].done
  {
    var p := w.passes[id];
    if p.done == |p.rows| {
      actions := [Finish(id)];
      assert p.rows[p.done..] == [] && actions[1..] == [];
    } else {
      var end := if p.done + 1000 < |p.rows| then p.done + 1000 else |p.rows|;
      var w' := Apply(bs, w, Batch(id, end));
      var rest := BatchesDo(bs, w', id, key);
      actions := [Batch(id, end)] + rest;
      assert actions[1..] == rest && w'.passes - {id} == w.passes - {id};
      assert p.rows[p.done..] == p.rows[p.done..end] + p.rows[end..];
      ApplyAppend(w.calls, p.rows[p.done..end], p.rows[end..]);
    }
  }

  /** A pass that runs to its end applies all it read and leaves the cursor behind
      the last block. */
  lemma {:induction false} PassDoes(bs: seq<Block>, w: World, id: nat, from: nat, key: CallKey)
    returns (actions: seq<Action>)
    requires id !in w.passes && (from == 0 || from == w.cursor) && from <= w.n <= |bs|
    ensures IsRun(bs, w, actions, key)
    ensures After(bs, w, actions, key) == w.(calls := ApplyRows(w.calls, Emit(bs, from, w.n)), cursor := w.n)
  {
    var w1 := Apply(bs, w, Begin(id, from));
    var w2 := Apply(bs, w1, Read(id));
    var rest := BatchesDo(bs, w2, id, key);
    var tail := [Read(id)] + rest;
    actions := [Begin(id, from)] + tail;
    assert actions[1..] == tail && tail[1..] == rest;
    assert w2.passes - {id} == w.passes && Emit(bs, from, w.n)[0..] == Emit(bs, from, w.n);
    assert IsRun(bs, w1, tail, key) && After(bs, w1, tail, key) == After(bs, w2, rest, key);
  }

  /** One that crashes leaves nothing behind but the rows it wrote. */
  lemma CrashLeaves(bs: seq<Block>, w: World, id: nat)
    requires id in w.passes
    ensures Apply(bs, w, Crash(id)) == w.(passes := w.passes - {id})
  {
  }

  /** A transcript can be written and read to its end. */
  lemma {:induction false} CanCatchUp(bs: seq<Block>, key: CallKey) returns (actions: seq<Action>)
    ensures IsRun(bs, Init, actions, key)
    ensures var w := After(bs, Init, actions, key);
            w.n == w.cursor == |bs| && w.calls == ApplyRows(map[], Emit(bs, 0, |bs|))
  {
    var grown := FileGrows(bs, Init, key);
    var read := PassDoes(bs, After(bs, Init, grown, key), 0, 0, key);
    RunsJoin(bs, Init, grown, read, key);
    actions := grown + read;
  }
}
