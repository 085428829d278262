/** The ingest pass as it is written is a run of the interleaved model, so what
    holds of every run holds of it. */
module IngestRuns {
  import opened Schema
  import opened EventStore
  import opened IngestPass
  import opened ConcurrentIngest

  /** What the disk shows of f is the transcript: a read from an offset returns
      rows faithful to the lines from there on, and the end of the last whole line. */
  ghost predicate Shows(disk: Disk, f: string, ls: seq<Line>) {
    forall from: nat :: disk.parse(f, from).Some? ==>
      Faithful(RowsFrom(ls, from), disk.parse(f, from).value.events) && disk.parse(f, from).value.newOffset == Bytes(ls)
  }

  ghost predicate ShowsFiles(disk: Disk, w: World, files: seq<string>) {
    forall f :: f in files && disk.owned(f) && disk.stat(f).Some? ==> f in w.files && Shows(disk, f, w.files[f])
  }

  function DbOf(w: World): Db { Db(w.events, w.cursors) }

  function WithDb(w: World, db: Db): World { w.(events := db.events, cursors := db.cursors) }

  // ----- one file -----

  /** The steps of a pass and nothing else. */
  predicate OfPass(a: Action, id: nat) {
    (a.Begin? || a.Parse? || a.Batch? || a.Finish?) && a.id == id
  }

  /** Batches of 1,000 until all rows are written, then the cursor. */
  lemma {:induction false} BatchesRun(w: World, id: nat, mtime: int, size: nat, p: string)
    returns (actions: seq<Action>)
    requires id in w.passes && w.passes[id].Writing? && w.passes[id].done <= |w.passes[id].rows|
    ensures IsRun(w, actions, p) && forall a :: a in actions ==> OfPass(a, id)
    ensures var pass := w.passes[id];
            After(w, actions, p) == w.(
              events := UpsertAll(w.events, pass.rows[pass.done..]),
              cursors := w.cursors[pass.path := Cursor(pass.newOffset, mtime, size)],
              passes := w.passes - {id})
    decreases |w.passes[id].rows| - w.passes[id].done
  {
    var pass := w.passes[id];
    if pass.done == |pass.rows| {
      actions := [Finish(id, mtime, size)];
      assert actions[1..] == [];
      assert pass.rows[pass.done..] == [];
    } else {
      var w' := Apply(w, Batch(id));
      var end := Min(pass.done + BATCH, |pass.rows|);
      var rest := BatchesRun(w', id, mtime, size, p);
      actions := [Batch(id)] + rest;
      assert actions[1..] == rest;
      assert pass.rows[pass.done..] == pass.rows[pass.done..end] + pass.rows[end..];
      UpsertAppend(w.events, pass.rows[pass.done..end], pass.rows[end..]);
      assert w'.passes - {id} == w.passes - {id};
    }
  }

  lemma {:induction false} ReadRuns(
      w: World, id: nat, f: string, from: nat, rows: seq<Event>, mtime: int, size: nat, p: string)
    returns (actions: seq<Action>)
    requires Enabled(w, Begin(id, f, from)) && Faithful(RowsFrom(LinesOf(w, f), from), rows)
    ensures IsRun(w, actions, p) && forall a :: a in actions ==> OfPass(a, id)
    ensures After(w, actions, p) == WithDb(w,
              Db(UpsertAll(w.events, rows), w.cursors[f := Cursor(Bytes(LinesOf(w, f)), mtime, size)]))
  {
    var w1 := Apply(w, Begin(id, f, from));
    var w2 := Apply(w1, Parse(id, rows));
    var rest := BatchesRun(w2, id, mtime, size, p);
    assert rows[0..] == rows;
    assert w2.passes - {id} == w.passes;
    var tail := [Parse(id, rows)] + rest;
    actions := [Begin(id, f, from)] + tail;
    assert actions[1..] == tail && tail[1..] == rest;
    assert IsRun(w1, tail, p) && After(w1, tail, p) == After(w2, rest, p);
  }

  /** One file of the pass: Begin, Parse, its batches and the cursor, or nothing. */
  lemma {:induction false} FileIsRun(
      w: World, id: nat, f: string, disk: Disk, trusted: set<string>, forceFull: bool, p: string)
    returns (actions: seq<Action>)
    requires id !in w.passes && ShowsFiles(disk, w, [f])
    ensures IsRun(w, actions, p) && forall a :: a in actions ==> OfPass(a, id)
    ensures After(w, actions, p) == WithDb(w, AfterFile(DbOf(w), f, disk, trusted, forceFull))
  {
    actions := [];
    var stat := disk.stat(f);
    var plan := Plan(CursorOf(w.cursors, f), f in trusted, stat, forceFull);
    if disk.owned(f) && plan.ReadFrom? {
      PlanStarts(CursorOf(w.cursors, f), f in trusted, stat, forceFull);
      assert f in [f];
      var parsed := disk.parse(f, plan.offset);
      if parsed.Some? {
        actions := ReadRuns(w, id, f, plan.offset, parsed.value.events, stat.value.mtime, stat.value.size, p);
      }
    }
  }

  lemma {:induction false} RunsJoin(w: World, a: seq<Action>, b: seq<Action>, p: string)
    requires IsRun(w, a, p) && IsRun(After(w, a, p), b, p)
    ensures IsRun(w, a + b, p) && After(w, a + b, p) == After(After(w, a, p), b, p)
    decreases |a|
  {
    if a == [] {
      assert a + b == b;
    } else {
      assert (a + b)[1..] == a[1..] + b;
      RunsJoin(Apply(w, a[0]), a[1..], b, p);
    }
  }

  /** The whole pass, file by file. */
  lemma {:induction false} PassIsRun(
      w: World, id: nat, files: seq<string>, disk: Disk, trusted: set<string>, forceFull: bool, p: string)
    returns (actions: seq<Action>)
    requires id !in w.passes && ShowsFiles(disk, w, files)
    ensures IsRun(w, actions, p) && forall a :: a in actions ==> OfPass(a, id)
    ensures After(w, actions, p) == WithDb(w, AfterFiles(DbOf(w), files, disk, trusted, forceFull))
    decreases |files|
  {
    actions := [];
    if files != [] {
      assert files[0] in files && forall f :: f in files[1..] ==> f in files;
      var first := FileIsRun(w, id, files[0], disk, trusted, forceFull, p);
      var w' := After(w, first, p);
      var rest := PassIsRun(w', id, files[1..], disk, trusted, forceFull, p);
      RunsJoin(w, first, rest, p);
      actions := first + rest;
    }
  }

  // ----- what one file is left with -----

  /** Every row below f's cursor is stored. */
  ghost predicate CursorHolds(db: Db, f: string, ls: seq<Line>) {
    f in db.cursors ==> db.cursors[f].offset <= Bytes(ls) && HoldsAll(db.events, RowsBelow(ls, db.cursors[f].offset))
  }

  /** A file that is read ends up with its cursor behind its last whole line,
      stamped with what os.Stat said, and every row before it stored; one that is
      not keeps its cursor. */
  lemma {:induction false} FileIsCovered(
      db: Db, f: string, ls: seq<Line>, disk: Disk, trusted: set<string>, forceFull: bool)
    requires Sized(ls) && Shows(disk, f, ls) && CursorHolds(db, f, ls)
    ensures var db' := AfterFile(db, f, disk, trusted, forceFull);
            var cursor := if f in db.cursors then Some(db.cursors[f]) else None;
            var plan := Plan(cursor, f in trusted, disk.stat(f), forceFull);
            && CursorHolds(db', f, ls)
            && (disk.owned(f) && plan.ReadFrom? && disk.parse(f, plan.offset).Some? ==>
                  && disk.stat(f).Some? && f in db'.cursors
                  && db'.cursors[f] == Cursor(Bytes(ls), disk.stat(f).value.mtime, disk.stat(f).value.size)
                  && HoldsAll(db'.events, Rows(ls)))
            && (!(disk.owned(f) && plan.ReadFrom? && disk.parse(f, plan.offset).Some?) ==> db' == db)
            && (forall g :: g != f ==> (g in db'.cursors <==> g in db.cursors))
            && (forall g :: g != f && g in db.cursors ==> db'.cursors[g] == db.cursors[g])
  {
    var cursor := CursorOf(db.cursors, f);
    var plan := Plan(cursor, f in trusted, disk.stat(f), forceFull);
    PlanStarts(cursor, f in trusted, disk.stat(f), forceFull);
    AllBelowTheEnd(ls);
    if disk.owned(f) && plan.ReadFrom? && disk.parse(f, plan.offset).Some? {
      NothingBelowZero(ls);
      ReadCovers(db.events, ls, plan.offset, disk.parse(f, plan.offset).value.events);
    }
  }

  /** Reading on from rows that are all held leaves all rows held. */
  lemma {:induction false} ReadCovers(t: Table, ls: seq<Line>, from: nat, emitted: seq<Event>)
    requires HoldsAll(t, RowsBelow(ls, from)) && Faithful(RowsFrom(ls, from), emitted)
    ensures HoldsAll(UpsertAll(t, emitted), Rows(ls))
  {
    var below, rest, t' := RowsBelow(ls, from), RowsFrom(ls, from), UpsertAll(t, emitted);
    RowsSplit(ls, from);
    UpsertGrows(t, emitted);
    forall k | 0 <= k < |below + rest| ensures Holds(t', (below + rest)[k]) {
      if k < |below| {
        assert Holds(t, below[k]);
      } else {
        assert Dominated(rest[k - |below|], emitted);
        var j :| 0 <= j < |emitted| && KeyOf(emitted[j]) == KeyOf(rest[k - |below|])
                 && emitted[j].output >= rest[k - |below|].output;
        assert Holds(t', emitted[j]);
      }
    }
  }
}
