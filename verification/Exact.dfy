/** With a parser that returns one row for every row of the lines it reads, the
    store always holds exactly what one read of some prefix would leave, as far
    as the parser tells the same of a row in every read. */
module ExactIngest {
  import opened Schema
  import opened EventStore
  import opened ConcurrentIngest
  import IngestPass

  /** The rows of one session. */
  function SessionPart(t: Table, sid: string): Table {
    map k | k in t && k.sessionID == sid :: t[k]
  }

  lemma {:induction false} UpsertOwn(t: Table, es: seq<Event>, sid: string)
    requires forall e :: e in es ==> e.sessionID == sid
    ensures SessionPart(UpsertAll(t, es), sid) == UpsertAll(SessionPart(t, sid), es)
    decreases |es|
  {
    if es != [] {
      assert es[0] in es;
      assert SessionPart(Upsert(t, es[0]), sid) == Upsert(SessionPart(t, sid), es[0]);
      UpsertOwn(Upsert(t, es[0]), es[1..], sid);
    }
  }

  lemma {:induction false} UpsertOthers(t: Table, es: seq<Event>, sid: string)
    requires forall e :: e in es ==> e.sessionID != sid
    ensures SessionPart(UpsertAll(t, es), sid) == SessionPart(t, sid)
    decreases |es|
  {
    if es != [] {
      assert es[0] in es;
      assert SessionPart(Upsert(t, es[0]), sid) == SessionPart(t, sid);
      UpsertOthers(Upsert(t, es[0]), es[1..], sid);
    }
  }

  // ----- what every read tells alike -----

  /** The part of a row that does not depend on the read. */
  type View = Event -> Event

  /** It keeps the key and the output. */
  ghost predicate IsView(view: View) {
    forall e :: KeyOf(view(e)) == KeyOf(e) && view(e).output == e.output
  }

  function Seen(view: View, es: seq<Event>): (seen: seq<Event>)
    ensures |seen| == |es| && forall i :: 0 <= i < |es| ==> seen[i] == view(es[i])
  {
    seq(|es|, i requires 0 <= i < |es| => view(es[i]))
  }

  function SeenTable(view: View, t: Table): Table { map k | k in t :: view(t[k]) }

  lemma SeenUpsert(view: View, t: Table, e: Event)
    requires IsView(view)
    ensures SeenTable(view, Upsert(t, e)) == Upsert(SeenTable(view, t), view(e))
  {
  }

  /** Upserting does not look at what the view leaves out. */
  lemma {:induction false} SeenUpserts(view: View, t: Table, es: seq<Event>)
    requires IsView(view)
    ensures SeenTable(view, UpsertAll(t, es)) == UpsertAll(SeenTable(view, t), Seen(view, es))
    decreases |es|
  {
    if es != [] {
      SeenUpsert(view, t, es[0]);
      SeenUpserts(view, Upsert(t, es[0]), es[1..]);
      assert Seen(view, es)[1..] == Seen(view, es[1..]);
    }
  }

  lemma SeenJoin(view: View, a: seq<Event>, b: seq<Event>)
    ensures Seen(view, a + b) == Seen(view, a) + Seen(view, b)
  {
  }

  function Max(a: nat, b: nat): nat { if a < b then b else a }

  /** Reading on from anywhere inside what has been read is the same as having
      read straight through. */
  lemma Replay(rows: seq<Event>, c: nat, i: nat, j: nat)
    requires i <= c <= |rows| && i <= j <= |rows|
    ensures UpsertAll(UpsertAll(map[], rows[..c]), rows[i..j]) == UpsertAll(map[], rows[..Max(c, j)])
  {
    var t := UpsertAll(map[], rows[..c]);
    UpsertGrows(map[], rows[..c]);
    var again := rows[i..if j < c then j else c];
    forall k | 0 <= k < |again| ensures Holds(t, again[k]) {
      assert again[k] == rows[..c][i + k];
    }
    UpsertHeld(t, again);
    if c < j {
      assert rows[i..j] == again + rows[c..j];
      UpsertAppend(t, again, rows[c..j]);
      assert rows[..j] == rows[..c] + rows[c..j];
      UpsertAppend(map[], rows[..c], rows[c..j]);
    }
  }

  /** What exactness asks on top of Respects: nobody else writes rows of p's
      session, no reset takes any, and a read of p returns the rows as they
      stand, as far as the view goes. */
  ghost predicate Alone(w: World, a: Action, p: string, view: View) {
    && Respects(w, a, p)
    && match a
       case Append(path, line) => path != p ==> forall e :: e in line.rows ==> e.sessionID != Stem(p)
       case Parse(id, rows) =>
         id in w.passes && w.passes[id].path == p ==>
           Seen(view, rows) == Seen(view, RowsFrom(LinesOf(w, p), w.passes[id].from))
       case Reset(keys, _) => forall k :: k in keys ==> k.sessionID != Stem(p)
       case _ => true
  }

  ghost predicate IsAloneRun(w: World, actions: seq<Action>, p: string, view: View)
    decreases |actions|
  {
    actions == []
    || (Enabled(w, actions[0]) && Alone(w, actions[0], p, view)
      && IsAloneRun(Apply(w, actions[0]), actions[1..], p, view))
  }

  ghost function AfterAlone(w: World, actions: seq<Action>, p: string, view: View): World
    requires IsAloneRun(w, actions, p, view)
    decreases |actions|
  {
    if actions == [] then w else AfterAlone(Apply(w, actions[0]), actions[1..], p, view)
  }

  // ----- the invariant -----

  /** A pass over p has read a stretch of its rows and is inside or next to
      the c rows applied so far. */
  ghost predicate InStep(ls: seq<Line>, c: nat, pass: Pass, view: View) {
    && pass.from <= Bytes(ls) && |RowsBelow(ls, pass.from)| <= c
    && (pass.Writing? ==>
          && pass.newOffset <= Bytes(ls) && pass.done <= |pass.rows|
          && Seen(view, RowsBelow(ls, pass.newOffset)) == Seen(view, RowsBelow(ls, pass.from)) + Seen(view, pass.rows)
          && |RowsBelow(ls, pass.from)| + pass.done <= c)
  }

  ghost predicate Foreign(es: seq<Event>, sid: string) {
    forall e :: e in es ==> e.sessionID != sid
  }

  /** p's part of the store, seen through the view, is one straight read of its
      first c rows. */
  ghost predicate Exact(w: World, p: string, c: nat, view: View) {
    var ls := LinesOf(w, p);
    && Sized(ls)
    && (forall e :: e in Rows(ls) ==> e.sessionID == Stem(p))
    && c <= |Rows(ls)|
    && SeenTable(view, SessionPart(w.events, Stem(p))) == UpsertAll(map[], Seen(view, Rows(ls))[..c])
    && (p in w.cursors ==> w.cursors[p].offset <= Bytes(ls) && |RowsBelow(ls, w.cursors[p].offset)| <= c)
    && (forall id :: id in w.passes && w.passes[id].path == p ==> InStep(ls, c, w.passes[id], view))
    && (forall id :: id in w.passes && w.passes[id].path != p && w.passes[id].Writing? ==>
      Foreign(w.passes[id].rows, Stem(p)))
    && (forall q :: q in w.files && q != p ==> Foreign(Rows(w.files[q]), Stem(p)))
    && (forall id :: id in w.prunes ==> Spares(w.prunes[id], p))
  }

  lemma InStepAppend(ls: seq<Line>, l: Line, c: nat, pass: Pass, view: View)
    requires InStep(ls, c, pass, view) && l.size > 0
    ensures InStep(ls + [l], c, pass, view)
  {
    AppendKeepsBelow(ls, l, pass.from);
    if pass.Writing? { AppendKeepsBelow(ls, l, pass.newOffset); }
  }

  lemma {:induction false} RowsOfAppend(ls: seq<Line>, l: Line)
    ensures Rows(ls + [l]) == Rows(ls) + l.rows
  {
    RowsAppend(ls, [l]);
    assert Rows([l]) == l.rows + Rows([]);
  }

  lemma AppendOwnKeeps(w: World, a: Action, p: string, c: nat, view: View)
    requires Exact(w, p, c, view) && Enabled(w, a) && a.Append? && Alone(w, a, p, view) && a.path == p
    ensures Exact(Apply(w, a), p, c, view)
  {
    var ls, w' := LinesOf(w, p), Apply(w, a);
    RowsOfAppend(ls, a.line);
    AppendBytes(ls, a.line);
    assert LinesOf(w', p) == ls + [a.line];
    SeenJoin(view, Rows(ls), a.line.rows);
    assert (Seen(view, Rows(ls)) + Seen(view, a.line.rows))[..c] == Seen(view, Rows(ls))[..c];
    if p in w.cursors { AppendKeepsBelow(ls, a.line, w.cursors[p].offset); }
    forall id | id in w.passes && w.passes[id].path == p ensures InStep(ls + [a.line], c, w.passes[id], view) {
      InStepAppend(ls, a.line, c, w.passes[id], view);
    }
  }

  lemma AppendOtherKeeps(w: World, a: Action, p: string, c: nat, view: View)
    requires Exact(w, p, c, view) && Enabled(w, a) && a.Append? && Alone(w, a, p, view) && a.path != p
    ensures Exact(Apply(w, a), p, c, view)
  {
    var w' := Apply(w, a);
    assert LinesOf(w', p) == LinesOf(w, p);
    RowsOfAppend(LinesOf(w, a.path), a.line);
    assert Foreign(Rows(LinesOf(w, a.path)), Stem(p));
  }

  lemma ParseOwnKeeps(w: World, a: Action, p: string, c: nat, view: View)
    requires Exact(w, p, c, view) && Enabled(w, a) && a.Parse? && Alone(w, a, p, view) && w.passes[a.id].path == p
    ensures Exact(Apply(w, a), p, c, view)
  {
    var ls, w', pass := LinesOf(w, p), Apply(w, a), w.passes[a.id];
    assert LinesOf(w', p) == ls;
    AllBelowTheEnd(ls);
    RowsSplit(ls, pass.from);
    SeenJoin(view, RowsBelow(ls, pass.from), RowsFrom(ls, pass.from));
    assert InStep(ls, c, pass, view);
    assert InStep(ls, c, w'.passes[a.id], view);
  }

  lemma StandsForeign(lines: seq<Event>, emitted: seq<Event>, sid: string)
    requires Foreign(lines, sid) && Faithful(lines, emitted)
    ensures Foreign(emitted, sid)
  {
    forall e | e in emitted ensures e.sessionID != sid {
      var j :| 0 <= j < |emitted| && emitted[j] == e;
      assert Stands(emitted[j], lines);
    }
  }

  lemma ParseOtherKeeps(w: World, a: Action, p: string, c: nat, view: View)
    requires Exact(w, p, c, view) && Enabled(w, a) && a.Parse? && w.passes[a.id].path != p
    ensures Exact(Apply(w, a), p, c, view)
  {
    var w', pass := Apply(w, a), w.passes[a.id];
    var lines := LinesOf(w, pass.path);
    assert LinesOf(w', p) == LinesOf(w, p);
    RowsSplit(lines, pass.from);
    assert Foreign(Rows(lines), Stem(p));
    assert Foreign(RowsFrom(lines, pass.from), Stem(p));
    StandsForeign(RowsFrom(lines, pass.from), a.rows, Stem(p));
  }

  /** The batch a pass over p upserts continues or repeats the straight read. */
  lemma BatchContinues(ls: seq<Line>, t: Table, pass: Pass, end: nat, c: nat, sid: string, view: View) returns (c': nat)
    requires IsView(view) && (forall e :: e in Rows(ls) ==> e.sessionID == sid) && c <= |Rows(ls)|
    requires SeenTable(view, SessionPart(t, sid)) == UpsertAll(map[], Seen(view, Rows(ls))[..c])
    requires InStep(ls, c, pass, view) && pass.Writing? && pass.done <= end <= |pass.rows|
    ensures c <= c' <= |Rows(ls)| && |RowsBelow(ls, pass.from)| + end <= c'
    ensures SeenTable(view, SessionPart(UpsertAll(t, pass.rows[pass.done..end]), sid))
        == UpsertAll(map[], Seen(view, Rows(ls))[..c'])
  {
    RowsSplit(ls, pass.newOffset);
    c' := GotContinues(t, Rows(ls), RowsBelow(ls, pass.newOffset), RowsFrom(ls, pass.newOffset),
                       RowsBelow(ls, pass.from), pass.rows, pass.done, end, c, sid, view);
  }

  lemma GotContinues(t: Table, rows: seq<Event>, upto: seq<Event>, rest: seq<Event>, below: seq<Event>, got: seq<Event>,
                     lo: nat, hi: nat, c: nat, sid: string, view: View) returns (c': nat)
    requires IsView(view) && (forall e :: e in rows ==> e.sessionID == sid)
    requires rows == upto + rest && Seen(view, upto) == Seen(view, below) + Seen(view, got)
    requires lo <= hi <= |got| && |below| + lo <= c <= |rows|
    requires SeenTable(view, SessionPart(t, sid)) == UpsertAll(map[], Seen(view, rows)[..c])
    ensures c <= c' <= |rows| && |below| + hi <= c'
    ensures SeenTable(view, SessionPart(UpsertAll(t, got[lo..hi]), sid)) == UpsertAll(map[], Seen(view, rows)[..c'])
  {
    var i, j := |below| + lo, |below| + hi;
    SliceInside(rows, upto, rest, below, got, i, j, view);
    SliceContinues(t, rows, got[lo..hi], c, i, j, sid, view);
    c' := Max(c, j);
  }

  lemma {:induction false} SliceContinues(
      t: Table, rows: seq<Event>, batch: seq<Event>, c: nat, i: nat, j: nat, sid: string, view: View)
    requires IsView(view) && (forall e :: e in rows ==> e.sessionID == sid)
    requires c <= |rows| && i <= c && i <= j <= |rows| && Seen(view, batch) == Seen(view, rows)[i..j]
    requires SeenTable(view, SessionPart(t, sid)) == UpsertAll(map[], Seen(view, rows)[..c])
    ensures SeenTable(view, SessionPart(UpsertAll(t, batch), sid)) == UpsertAll(map[], Seen(view, rows)[..Max(c, j)])
  {
    SliceIsOwn(rows, batch, i, j, sid, view);
    UpsertOwn(t, batch, sid);
    SeenUpserts(view, SessionPart(t, sid), batch);
    Replay(Seen(view, rows), c, i, j);
  }

  lemma SliceIsOwn(rows: seq<Event>, batch: seq<Event>, i: nat, j: nat, sid: string, view: View)
    requires IsView(view) && (forall e :: e in rows ==> e.sessionID == sid)
    requires i <= j <= |rows| && Seen(view, batch) == Seen(view, rows)[i..j]
    ensures forall e :: e in batch ==> e.sessionID == sid
  {
    assert |batch| == j - i;
    forall k | 0 <= k < |batch| ensures batch[k].sessionID == sid {
      assert view(batch[k]) == Seen(view, rows)[i..j][k] == view(rows[i + k]);
      assert KeyOf(batch[k]) == KeyOf(rows[i + k]);
      assert rows[i + k] in rows;
    }
  }

  lemma SliceInside(
      rows: seq<Event>, upto: seq<Event>, rest: seq<Event>, below: seq<Event>, got: seq<Event>, i: nat, j: nat,
      view: View)
    requires rows == upto + rest && Seen(view, upto) == Seen(view, below) + Seen(view, got)
    requires |below| <= i <= j <= |below| + |got|
    ensures j <= |rows| && Seen(view, got[i - |below|..j - |below|]) == Seen(view, rows)[i..j]
  {
    assert |Seen(view, upto)| == |below| + |got|;
    forall k | i <= k < j ensures view(got[k - |below|]) == view(rows[k]) {
      assert Seen(view, upto)[k] == Seen(view, got)[k - |below|];
    }
  }

  lemma BatchOwnKeeps(w: World, a: Action, p: string, c: nat, view: View) returns (c': nat)
    requires IsView(view) && Exact(w, p, c, view) && Enabled(w, a) && a.Batch? && w.passes[a.id].path == p
    ensures c <= c' && Exact(Apply(w, a), p, c', view)
  {
    var ls, w', pass := LinesOf(w, p), Apply(w, a), w.passes[a.id];
    assert InStep(ls, c, pass, view);
    c' := BatchContinues(ls, w.events, pass, Min(pass.done + IngestPass.BATCH, |pass.rows|), c, Stem(p), view);
    assert LinesOf(w', p) == ls;
    forall id | id in w'.passes && w'.passes[id].path == p ensures InStep(ls, c', w'.passes[id], view) {
      assert InStep(ls, c, w.passes[id], view);
    }
  }

  lemma BatchOtherKeeps(w: World, a: Action, p: string, c: nat, view: View)
    requires Exact(w, p, c, view) && Enabled(w, a) && a.Batch? && w.passes[a.id].path != p
    ensures Exact(Apply(w, a), p, c, view)
  {
    var w' := Apply(w, a);
    assert LinesOf(w', p) == LinesOf(w, p);
    OtherBatch(w.events, w.passes[a.id], p);
  }

  lemma OtherBatch(t: Table, pass: Pass, p: string)
    requires pass.Writing? && pass.done <= |pass.rows| && Foreign(pass.rows, Stem(p))
    ensures var batch := pass.rows[pass.done..Min(pass.done + IngestPass.BATCH, |pass.rows|)];
            SessionPart(UpsertAll(t, batch), Stem(p)) == SessionPart(t, Stem(p))
  {
    UpsertOthers(t, pass.rows[pass.done..Min(pass.done + IngestPass.BATCH, |pass.rows|)], Stem(p));
  }

  lemma DeleteKeeps(w: World, a: Action, p: string, c: nat, view: View)
    requires Exact(w, p, c, view) && Enabled(w, a) && (a.DeleteStale? || a.Reset?) && Alone(w, a, p, view)
    ensures Exact(Apply(w, a), p, c, view)
  {
    var w' := Apply(w, a);
    assert LinesOf(w', p) == LinesOf(w, p);
    if a.DeleteStale? { assert Spares(w.prunes[a.id], p); }
    assert SessionPart(w'.events, Stem(p)) == SessionPart(w.events, Stem(p));
  }

  lemma OtherKeeps(w: World, a: Action, p: string, c: nat, view: View)
    requires Exact(w, p, c, view) && Enabled(w, a) && Alone(w, a, p, view)
    requires a.Begin? || a.Finish? || a.Crash? || a.ListStale?
    ensures Exact(Apply(w, a), p, c, view)
  {
    var ls, w' := LinesOf(w, p), Apply(w, a);
    assert LinesOf(w', p) == ls;
    if a.Begin? && a.path == p { NothingBelowZero(ls); }
    if a.Finish? && w.passes[a.id].path == p { FinishedBelow(ls, c, w.passes[a.id], view); }
  }

  lemma FinishedBelow(ls: seq<Line>, c: nat, pass: Pass, view: View)
    requires InStep(ls, c, pass, view) && pass.Writing? && pass.done == |pass.rows|
    ensures |RowsBelow(ls, pass.newOffset)| <= c
  {
    assert |Seen(view, RowsBelow(ls, pass.newOffset))| == |RowsBelow(ls, pass.from)| + |pass.rows|;
  }

  lemma StepKeepsExact(w: World, a: Action, p: string, c: nat, view: View) returns (c': nat)
    requires IsView(view) && Exact(w, p, c, view) && Enabled(w, a) && Alone(w, a, p, view)
    ensures c <= c' && Exact(Apply(w, a), p, c', view)
  {
    c' := c;
    match a
    case Append(path, _) =>
      if path == p { AppendOwnKeeps(w, a, p, c, view); } else { AppendOtherKeeps(w, a, p, c, view); }
    case Parse(id, _) =>
      if w.passes[id].path == p { ParseOwnKeeps(w, a, p, c, view); } else { ParseOtherKeeps(w, a, p, c, view); }
    case Batch(id) =>
      if w.passes[id].path == p { c' := BatchOwnKeeps(w, a, p, c, view); } else { BatchOtherKeeps(w, a, p, c, view); }
    case DeleteStale(_) => DeleteKeeps(w, a, p, c, view);
    case Reset(_, _) => DeleteKeeps(w, a, p, c, view);
    case _ => OtherKeeps(w, a, p, c, view);
  }

  lemma {:induction false} RunKeepsExact(
      w: World, actions: seq<Action>, p: string, c: nat, view: View) returns (c': nat)
    requires IsView(view) && Exact(w, p, c, view) && IsAloneRun(w, actions, p, view)
    ensures c <= c' && Exact(AfterAlone(w, actions, p, view), p, c', view)
    decreases |actions|
  {
    c' := c;
    if actions != [] {
      var c1 := StepKeepsExact(w, actions[0], p, c, view);
      c' := RunKeepsExact(Apply(w, actions[0]), actions[1..], p, c1, view);
    }
  }

  /** However the reads of p were cut, batched, repeated, crashed or raced, its
      rows in the store are exactly those of one read of its first c rows from
      byte 0, as far as the view goes, and every cursor written so far lies
      within them. */
  lemma StoreIsOneStraightRead(actions: seq<Action>, p: string, view: View) returns (c: nat)
    requires IsView(view) && IsAloneRun(Init, actions, p, view)
    ensures var w := AfterAlone(Init, actions, p, view);
            && c <= |Rows(LinesOf(w, p))|
            && SeenTable(view, SessionPart(w.events, Stem(p))) == UpsertAll(map[], Seen(view, Rows(LinesOf(w, p)))[..c])
            && (p in w.cursors ==> |RowsBelow(LinesOf(w, p), w.cursors[p].offset)| <= c)
  {
    assert Exact(Init, p, 0, view);
    c := RunKeepsExact(Init, actions, p, 0, view);
  }

  /** When the cursor stands at the end of the transcript, the store is one read
      of the whole file from byte 0: per key, the first line in file order that
      reaches the largest output; and re-reading everything changes nothing. */
  lemma {:induction false} CaughtUpIsOneRead(actions: seq<Action>, p: string, view: View)
    requires IsView(view) && IsAloneRun(Init, actions, p, view)
    requires var w := AfterAlone(Init, actions, p, view);
             p in w.cursors && w.cursors[p].offset == Bytes(LinesOf(w, p))
    ensures var w := AfterAlone(Init, actions, p, view);
            var rows := Seen(view, Rows(LinesOf(w, p)));
            var own := SeenTable(view, SessionPart(w.events, Stem(p)));
            && own == UpsertAll(map[], rows)
            && (forall k :: k in own ==> Best(rows, k, own[k]))
            && UpsertAll(w.events, Rows(LinesOf(w, p))) == w.events
  {
    var w := AfterAlone(Init, actions, p, view);
    var rows := Rows(LinesOf(w, p));
    var c := StoreIsOneStraightRead(actions, p, view);
    AllBelowTheEnd(LinesOf(w, p));
    assert Seen(view, rows)[..c] == Seen(view, rows);
    StoredIsFirstLargest(Seen(view, rows));
    UpsertGrows(map[], Seen(view, rows));
    forall k | 0 <= k < |rows| ensures Holds(w.events, rows[k]) {
      assert Holds(SeenTable(view, SessionPart(w.events, Stem(p))), Seen(view, rows)[k]);
    }
    UpsertHeld(w.events, rows);
  }
}
