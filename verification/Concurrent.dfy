/** Several ingest passes over one store, with no lock across a whole pass:
    the live watcher, a full Collect, a second executable. */
module ConcurrentIngest {
  import opened Schema
  import opened EventStore
  import IngestPass

  // ----- transcripts -----

  /** One complete line of a transcript: its length in bytes and the rows it yields. */
  datatype Line = Line(size: nat, rows: seq<Event>)

  predicate Sized(ls: seq<Line>) {
    forall k :: 0 <= k < |ls| ==> ls[k].size > 0
  }

  function Bytes(ls: seq<Line>): nat {
    if ls == [] then 0 else ls[0].size + Bytes(ls[1..])
  }

  function Rows(ls: seq<Line>): seq<Event> {
    if ls == [] then [] else ls[0].rows + Rows(ls[1..])
  }

  /** How many complete lines end at or before a byte offset. */
  function LinesBelow(ls: seq<Line>, offset: nat): nat
    ensures LinesBelow(ls, offset) <= |ls|
  {
    if ls == [] || ls[0].size > offset then 0 else 1 + LinesBelow(ls[1..], offset - ls[0].size)
  }

  /** The rows in the first offset bytes. */
  function RowsBelow(ls: seq<Line>, offset: nat): seq<Event> {
    Rows(ls[..LinesBelow(ls, offset)])
  }

  /** The rows a read from offset to the end finds. */
  function RowsFrom(ls: seq<Line>, offset: nat): seq<Event> {
    Rows(ls[LinesBelow(ls, offset)..])
  }

  lemma {:induction false} RowsAppend(a: seq<Line>, b: seq<Line>)
    ensures Rows(a + b) == Rows(a) + Rows(b)
  {
    if a == [] {
      assert a + b == b;
    } else {
      assert (a + b)[1..] == a[1..] + b;
      RowsAppend(a[1..], b);
    }
  }

  lemma {:induction false} RowsSplit(ls: seq<Line>, offset: nat)
    ensures Rows(ls) == RowsBelow(ls, offset) + RowsFrom(ls, offset)
  {
    var n := LinesBelow(ls, offset);
    assert ls == ls[..n] + ls[n..];
    RowsAppend(ls[..n], ls[n..]);
  }

  /** Appending a line moves nothing that was below an old offset. */
  lemma {:induction false} AppendKeepsBelow(ls: seq<Line>, l: Line, offset: nat)
    requires offset <= Bytes(ls) && l.size > 0
    ensures LinesBelow(ls + [l], offset) == LinesBelow(ls, offset)
    ensures RowsBelow(ls + [l], offset) == RowsBelow(ls, offset)
    ensures Bytes(ls + [l]) == Bytes(ls) + l.size
  {
    if ls == [] {
      assert ls + [l] == [l];
    } else {
      assert (ls + [l])[1..] == ls[1..] + [l];
      if ls[0].size <= offset {
        AppendKeepsBelow(ls[1..], l, offset - ls[0].size);
      } else {
        AppendBytes(ls[1..], l);
      }
    }
    assert (ls + [l])[..LinesBelow(ls, offset)] == ls[..LinesBelow(ls, offset)];
  }

  lemma {:induction false} AppendBytes(ls: seq<Line>, l: Line)
    ensures Bytes(ls + [l]) == Bytes(ls) + l.size
  {
    if ls == [] {
      assert ls + [l] == [l];
    } else {
      assert (ls + [l])[1..] == ls[1..] + [l];
      AppendBytes(ls[1..], l);
    }
  }

  lemma {:induction false} AllBelowTheEnd(ls: seq<Line>)
    ensures LinesBelow(ls, Bytes(ls)) == |ls|
    ensures RowsBelow(ls, Bytes(ls)) == Rows(ls)
  {
    if ls != [] { AllBelowTheEnd(ls[1..]); }
    assert ls[..|ls|] == ls;
  }

  lemma {:induction false} NothingBelowZero(ls: seq<Line>)
    requires Sized(ls)
    ensures LinesBelow(ls, 0) == 0 && RowsBelow(ls, 0) == [] && RowsFrom(ls, 0) == Rows(ls)
  {
    assert ls[0..] == ls;
  }

  // ----- what a parser may return -----

  /** The contract of Parse for the rows of the lines it read: every one of
      them is returned, or another with its key and at least its output; and
      no key or output is made up.  Other columns may depend on the read. */
  ghost predicate Faithful(lines: seq<Event>, emitted: seq<Event>) {
    && (forall i :: 0 <= i < |lines| ==> Dominated(lines[i], emitted))
    && (forall j :: 0 <= j < |emitted| ==> Stands(emitted[j], lines))
  }

  ghost predicate Stands(e: Event, lines: seq<Event>) {
    exists i :: 0 <= i < |lines| && KeyOf(lines[i]) == KeyOf(e) && lines[i].output == e.output
  }

  ghost predicate Dominated(e: Event, emitted: seq<Event>) {
    exists j :: 0 <= j < |emitted| && KeyOf(emitted[j]) == KeyOf(e) && emitted[j].output >= e.output
  }

  // ----- the world -----

  datatype Pass =
    | Reading(path: string, from: nat)                    // the cursor has been read
    | Writing(path: string, from: nat, rows: seq<Event>, done: nat, newOffset: nat)  // parsed; rows[..done] upserted

  datatype World = World(
    files: map<string, seq<Line>>, events: Table, cursors: Cursors,
    passes: map<nat, Pass>, prunes: map<nat, set<string>>)

  datatype Action =
    | Append(path: string, line: Line)
    | Begin(id: nat, path: string, from: nat)   // Cursor, Stat and the choice of where to start
    | Parse(id: nat, rows: seq<Event>)
    | Batch(id: nat)                            // one UpsertEvents transaction
    | Finish(id: nat, mtime: int, size: nat)    // SetCursor
    | Crash(id: nat)
    | ListStale(id: nat, keep: seq<string>)     // DeleteEventsForOtherPaths reads the cursors ...
    | DeleteStale(id: nat)                      // ... and deletes in a second transaction
    | Reset(keys: set<Key>, paths: set<string>) // the collapse reset and the audit purge

  const Init := World(map[], map[], map[], map[], map[])

  function LinesOf(w: World, path: string): seq<Line> {
    if path in w.files then w.files[path] else []
  }

  function Min(a: nat, b: nat): nat { if a < b then a else b }

  ghost predicate Enabled(w: World, a: Action) {
    match a
    case Append(_, line) => line.size > 0
    case Begin(id, path, from) =>
      id !in w.passes && path in w.files && (from == 0 || (path in w.cursors && from == w.cursors[path].offset))
    case Parse(id, rows) =>
      id in w.passes && w.passes[id].Reading?
      && Faithful(RowsFrom(LinesOf(w, w.passes[id].path), w.passes[id].from), rows)
    case Batch(id) => id in w.passes && w.passes[id].Writing? && w.passes[id].done < |w.passes[id].rows|
    case Finish(id, _, _) => id in w.passes && w.passes[id].Writing? && w.passes[id].done == |w.passes[id].rows|
    case Crash(id) => id in w.passes
    case ListStale(id, _) => id !in w.prunes
    case DeleteStale(id) => id in w.prunes
    case Reset(_, _) => true
  }

  ghost function Apply(w: World, a: Action): World
    requires Enabled(w, a)
  {
    match a
    case Append(path, line) => w.(files := w.files[path := LinesOf(w, path) + [line]])
    case Begin(id, path, from) => w.(passes := w.passes[id := Reading(path, from)])
    case Parse(id, rows) =>
      var p := w.passes[id];
      w.(passes := w.passes[id := Writing(p.path, p.from, rows, 0, Bytes(LinesOf(w, p.path)))])
    case Batch(id) =>
      var p := w.passes[id];
      var end := Min(p.done + IngestPass.BATCH, |p.rows|);
      w.(events := UpsertAll(w.events, p.rows[p.done..end]), passes := w.passes[id := p.(done := end)])
    case Finish(id, mtime, size) =>
      var p := w.passes[id];
      w.(cursors := w.cursors[p.path := Cursor(p.newOffset, mtime, size)], passes := w.passes - {id})
    case Crash(id) => w.(passes := w.passes - {id})
    case ListStale(id, keep) => w.(prunes := w.prunes[id := Stale(w.cursors, keep)])
    case DeleteStale(id) =>
      w.(events := Pruned(w.events, w.prunes[id]), cursors := w.cursors - w.prunes[id], prunes := w.prunes - {id})
    case Reset(keys, paths) => w.(events := w.events - keys, cursors := w.cursors - paths)
  }

  /** The steps of the source's plan are steps of this world. */
  lemma PlanIsBegin(w: World, id: nat, path: string, trusted: bool, stat: Option<IngestPass.Stat>, forceFull: bool)
    requires id !in w.passes && path in w.files
    ensures var d := IngestPass.Plan(IngestPass.CursorOf(w.cursors, path), trusted, stat, forceFull);
            d.ReadFrom? ==> Enabled(w, Begin(id, path, d.offset))
  {
    IngestPass.PlanStarts(IngestPass.CursorOf(w.cursors, path), trusted, stat, forceFull);
  }

  /** What transcript p needs of the others: its rows carry its stem as session
      id; every prune keeps it and prunes no path with its stem; and a reset
      that takes rows of its session also takes its cursor, with no read of it
      in flight. */
  ghost predicate Respects(w: World, a: Action, p: string) {
    match a
    case Append(path, line) => path == p ==> forall e :: e in line.rows ==> e.sessionID == Stem(p)
    case ListStale(_, keep) => p in keep && Spares(Stale(w.cursors, keep), p)
    case Reset(keys, paths) =>
      (exists k :: k in keys && k.sessionID == Stem(p)) ==>
        p in paths && forall id :: id in w.passes ==> w.passes[id].path != p
    case _ => true
  }

  ghost predicate IsRun(w: World, actions: seq<Action>, p: string)
    decreases |actions|
  {
    actions == [] || (Enabled(w, actions[0]) && Respects(w, actions[0], p)
      && IsRun(Apply(w, actions[0]), actions[1..], p))
  }

  ghost function After(w: World, actions: seq<Action>, p: string): World
    requires IsRun(w, actions, p)
    decreases |actions|
  {
    if actions == [] then w else After(Apply(w, actions[0]), actions[1..], p)
  }

  // ----- safety -----

  /** Held already, or still to be upserted from `rest`. */
  ghost predicate HeldOrComing(t: Table, e: Event, rest: seq<Event>) {
    Holds(t, e) || Dominated(e, rest)
  }

  ghost predicate PassInv(ls: seq<Line>, t: Table, pass: Pass) {
    && pass.from <= Bytes(ls)
    && (pass.Reading? ==> HoldsAll(t, RowsBelow(ls, pass.from)))
    && (pass.Writing? ==>
          && pass.newOffset <= Bytes(ls) && pass.done <= |pass.rows|
          && forall e :: e in RowsBelow(ls, pass.newOffset) ==> HeldOrComing(t, e, pass.rows[pass.done..]))
  }

  /** A prune list that leaves p and its session alone. */
  ghost predicate Spares(stale: set<string>, p: string) {
    p !in stale && forall q :: q in stale ==> Stem(q) != Stem(p)
  }

  ghost predicate Inv(w: World, p: string) {
    var ls := LinesOf(w, p);
    && Sized(ls)
    && (forall e :: e in Rows(ls) ==> e.sessionID == Stem(p))
    && (p in w.cursors ==> w.cursors[p].offset <= Bytes(ls) && HoldsAll(w.events, RowsBelow(ls, w.cursors[p].offset)))
    && (forall id :: id in w.passes && w.passes[id].path == p ==> PassInv(ls, w.events, w.passes[id]))
    && (forall id :: id in w.prunes ==> Spares(w.prunes[id], p))
  }

  /** A table that keeps what it held of p's session keeps the invariant. */
  lemma {:induction false} PassSurvives(ls: seq<Line>, t: Table, t': Table, pass: Pass, sid: string)
    requires PassInv(ls, t, pass)
    requires forall e :: e in Rows(ls) ==> e.sessionID == sid
    requires forall e: Event :: e.sessionID == sid && Holds(t, e) ==> Holds(t', e)
    ensures PassInv(ls, t', pass)
  {
    if pass.Reading? {
      BelowIsPart(ls, pass.from);
    } else {
      BelowIsPart(ls, pass.newOffset);
      forall e | e in RowsBelow(ls, pass.newOffset) ensures HeldOrComing(t', e, pass.rows[pass.done..]) {
        assert HeldOrComing(t, e, pass.rows[pass.done..]);
      }
    }
  }

  lemma {:induction false} BelowIsPart(ls: seq<Line>, offset: nat)
    ensures forall e :: e in RowsBelow(ls, offset) ==> e in Rows(ls)
  {
    RowsSplit(ls, offset);
  }

  /** A longer transcript moves nothing a pass relies on. */
  lemma PassOutlivesAppend(ls: seq<Line>, l: Line, t: Table, pass: Pass)
    requires PassInv(ls, t, pass) && l.size > 0
    ensures PassInv(ls + [l], t, pass)
  {
    AppendKeepsBelow(ls, l, pass.from);
    if pass.Writing? { AppendKeepsBelow(ls, l, pass.newOffset); }
  }

  lemma AppendKeepsInv(w: World, a: Action, p: string)
    requires Inv(w, p) && Enabled(w, a) && a.Append? && Respects(w, a, p)
    ensures Inv(Apply(w, a), p)
  {
    var ls, w' := LinesOf(w, p), Apply(w, a);
    if a.path == p {
      RowsAppend(ls, [a.line]);
      assert Rows([a.line]) == a.line.rows + Rows([]);
      AppendBytes(ls, a.line);
      if p in w.cursors { AppendKeepsBelow(ls, a.line, w.cursors[p].offset); }
      forall id | id in w.passes && w.passes[id].path == p ensures PassInv(ls + [a.line], w.events, w.passes[id]) {
        PassOutlivesAppend(ls, a.line, w.events, w.passes[id]);
      }
      assert LinesOf(w', p) == ls + [a.line];
    } else {
      assert LinesOf(w', p) == ls;
    }
  }

  lemma BeginKeepsInv(w: World, a: Action, p: string)
    requires Inv(w, p) && Enabled(w, a) && a.Begin?
    ensures Inv(Apply(w, a), p)
  {
    if a.path == p { NothingBelowZero(LinesOf(w, p)); }
  }

  lemma ParseKeepsInv(w: World, a: Action, p: string)
    requires Inv(w, p) && Enabled(w, a) && a.Parse?
    ensures Inv(Apply(w, a), p)
  {
    var ls, w', pass := LinesOf(w, p), Apply(w, a), w.passes[a.id];
    assert LinesOf(w', p) == ls;
    forall id | id in w'.passes && w'.passes[id].path == p ensures PassInv(ls, w'.events, w'.passes[id]) {
      if id == a.id {
        AllBelowTheEnd(ls);
        assert a.rows[0..] == a.rows;
        assert PassInv(ls, w.events, pass);
        RowsSplit(ls, pass.from);
        forall e | e in Rows(ls) ensures HeldOrComing(w.events, e, a.rows) {
        }
      } else {
        assert PassInv(ls, w.events, w.passes[id]);
      }
    }
  }

  /** Upserting the next batch leaves every row held or still coming. */
  lemma {:induction false} BatchStep(t: Table, e: Event, rows: seq<Event>, done: nat, end: nat)
    requires done <= end <= |rows| && HeldOrComing(t, e, rows[done..])
    ensures HeldOrComing(UpsertAll(t, rows[done..end]), e, rows[end..])
  {
    var batch := rows[done..end];
    var t' := UpsertAll(t, batch);
    UpsertGrows(t, batch);
    if !Holds(t, e) {
      var j :| 0 <= j < |rows[done..]| && KeyOf(rows[done..][j]) == KeyOf(e) && rows[done..][j].output >= e.output;
      if j < end - done {
        assert batch[j] == rows[done..][j];
        assert Holds(t', batch[j]);
      } else {
        assert rows[end..][j - (end - done)] == rows[done..][j];
      }
    }
  }

  lemma BatchKeepsInv(w: World, a: Action, p: string)
    requires Inv(w, p) && Enabled(w, a) && a.Batch?
    ensures Inv(Apply(w, a), p)
  {
    var ls, w', pass := LinesOf(w, p), Apply(w, a), w.passes[a.id];
    var end := Min(pass.done + IngestPass.BATCH, |pass.rows|);
    UpsertGrows(w.events, pass.rows[pass.done..end]);
    if p in w.cursors { GrowsKeepsHolding(w.events, w'.events, RowsBelow(ls, w.cursors[p].offset)); }
    forall id | id in w'.passes && w'.passes[id].path == p ensures PassInv(ls, w'.events, w'.passes[id]) {
      if id == a.id {
        forall e | e in RowsBelow(ls, pass.newOffset) ensures HeldOrComing(w'.events, e, pass.rows[end..]) {
          BatchStep(w.events, e, pass.rows, pass.done, end);
        }
      } else {
        PassSurvives(ls, w.events, w'.events, w.passes[id], Stem(p));
      }
    }
  }

  lemma FinishKeepsInv(w: World, a: Action, p: string)
    requires Inv(w, p) && Enabled(w, a) && a.Finish?
    ensures Inv(Apply(w, a), p)
  {
    var pass := w.passes[a.id];
    if pass.path == p {
      var ls := LinesOf(w, p);
      assert PassInv(ls, w.events, pass);
      var below := RowsBelow(ls, pass.newOffset);
      forall k | 0 <= k < |below| ensures Holds(w.events, below[k]) {
        assert HeldOrComing(w.events, below[k], pass.rows[pass.done..]);
      }
    }
  }

  lemma DeleteKeepsInv(w: World, a: Action, p: string)
    requires Inv(w, p) && Enabled(w, a) && a.DeleteStale?
    ensures Inv(Apply(w, a), p)
  {
    var ls, w' := LinesOf(w, p), Apply(w, a);
    forall e: Event | e.sessionID == Stem(p) && Holds(w.events, e) ensures Holds(w'.events, e) {
    }
    if p in w.cursors {
      BelowIsPart(ls, w.cursors[p].offset);
    }
    forall id | id in w'.passes && w'.passes[id].path == p ensures PassInv(ls, w'.events, w'.passes[id]) {
      PassSurvives(ls, w.events, w'.events, w.passes[id], Stem(p));
    }
  }

  lemma ResetKeepsInv(w: World, a: Action, p: string)
    requires Inv(w, p) && Enabled(w, a) && a.Reset? && Respects(w, a, p)
    ensures Inv(Apply(w, a), p)
  {
    var ls, w' := LinesOf(w, p), Apply(w, a);
    if exists k :: k in a.keys && k.sessionID == Stem(p) {
      assert p !in w'.cursors;
    } else {
      if p in w.cursors {
        BelowIsPart(ls, w.cursors[p].offset);
        var below := RowsBelow(ls, w.cursors[p].offset);
        forall k | 0 <= k < |below| ensures Holds(w'.events, below[k]) {
          assert Holds(w.events, below[k]) && below[k] in Rows(ls);
        }
      }
      forall id | id in w'.passes && w'.passes[id].path == p ensures PassInv(ls, w'.events, w'.passes[id]) {
        PassSurvives(ls, w.events, w'.events, w.passes[id], Stem(p));
      }
    }
  }

  lemma StepKeepsInv(w: World, a: Action, p: string)
    requires Inv(w, p) && Enabled(w, a) && Respects(w, a, p)
    ensures Inv(Apply(w, a), p)
  {
    match a
    case Append(_, _) => AppendKeepsInv(w, a, p);
    case Begin(_, _, _) => BeginKeepsInv(w, a, p);
    case Parse(_, _) => ParseKeepsInv(w, a, p);
    case Batch(_) => BatchKeepsInv(w, a, p);
    case Finish(_, _, _) => FinishKeepsInv(w, a, p);
    case Crash(_) =>
    case ListStale(_, _) =>
    case DeleteStale(_) => DeleteKeepsInv(w, a, p);
    case Reset(_, _) => ResetKeepsInv(w, a, p);
  }

  lemma {:induction false} RunKeepsInv(w: World, actions: seq<Action>, p: string)
    requires Inv(w, p) && IsRun(w, actions, p)
    ensures Inv(After(w, actions, p), p)
    decreases |actions|
  {
    if actions != [] {
      StepKeepsInv(w, actions[0], p);
      RunKeepsInv(Apply(w, actions[0]), actions[1..], p);
    }
  }

  /** Whatever passes, batches, crashes, prunes and resets interleave, and
      whichever pass writes its offset last: every row in the first cursor(p)
      bytes of p is in the store with at least its output. */
  lemma {:induction false} CursorIsSafe(actions: seq<Action>, p: string, e: Event)
    requires IsRun(Init, actions, p)
    ensures var w := After(Init, actions, p);
            p in w.cursors && e in RowsBelow(LinesOf(w, p), w.cursors[p].offset) ==> Holds(w.events, e)
  {
    RunKeepsInv(Init, actions, p);
    var w := After(Init, actions, p);
    if p in w.cursors && e in RowsBelow(LinesOf(w, p), w.cursors[p].offset) {
      var below := RowsBelow(LinesOf(w, p), w.cursors[p].offset);
      var k :| 0 <= k < |below| && below[k] == e;
      assert Holds(w.events, below[k]);
    }
  }
}
