/** For every parser that keeps its contract, de-duplicating ones included: a
    caught-up transcript has the keys and outputs of one read of it. */
module OutputIngest {
  import opened Schema
  import opened EventStore
  import opened ConcurrentIngest
  import opened ExactIngest
  import IngestPass

  /** Nobody else writes rows of p's session. */
  ghost predicate KeepsOut(a: Action, p: string) {
    a.Append? && a.path != p ==> Foreign(a.line.rows, Stem(p))
  }

  /** Every row is held, and every entry stands in the rows. */
  ghost predicate HoldsJust(t: Table, rows: seq<Event>) {
    && (forall i :: 0 <= i < |rows| ==> Holds(t, rows[i]))
    && (forall k :: k in t ==> KeyOf(t[k]) == k && Stands(t[k], rows))
  }

  predicate SameOutputs(t: Table, t': Table) {
    t.Keys == t'.Keys && forall k :: k in t ==> t[k].output == t'[k].output
  }

  lemma JustOnce(t: Table, t': Table, rows: seq<Event>)
    requires HoldsJust(t, rows) && HoldsJust(t', rows)
    ensures forall k :: k in t ==> k in t' && t[k].output <= t'[k].output
  {
    forall k | k in t ensures k in t' && t[k].output <= t'[k].output {
      assert Stands(t[k], rows);
      var i :| 0 <= i < |rows| && KeyOf(rows[i]) == k && rows[i].output == t[k].output;
      assert Holds(t', rows[i]);
    }
  }

  lemma JustSame(t: Table, t': Table, rows: seq<Event>)
    requires HoldsJust(t, rows) && HoldsJust(t', rows)
    ensures SameOutputs(t, t')
  {
    JustOnce(t, t', rows);
    JustOnce(t', t, rows);
  }

  /** What one read leaves of these rows. */
  lemma {:induction false} OneReadHoldsJust(rows: seq<Event>, emitted: seq<Event>)
    requires Faithful(rows, emitted)
    ensures HoldsJust(UpsertAll(map[], emitted), rows)
  {
    var t := UpsertAll(map[], emitted);
    UpsertGrows(map[], emitted);
    forall i | 0 <= i < |rows| ensures Holds(t, rows[i]) {
      assert Dominated(rows[i], emitted);
      var j :| 0 <= j < |emitted| && KeyOf(emitted[j]) == KeyOf(rows[i]) && emitted[j].output >= rows[i].output;
      assert Holds(t, emitted[j]);
    }
    forall k | k in t ensures KeyOf(t[k]) == k && Stands(t[k], rows) {
      UpsertOrigin(map[], emitted, k);
      var j :| 0 <= j < |emitted| && emitted[j] == t[k];
      assert Stands(emitted[j], rows);
    }
  }

  // ----- the invariant -----

  ghost predicate AllStand(es: seq<Event>, rows: seq<Event>) {
    forall e :: e in es ==> Stands(e, rows)
  }

  /** Whatever is stored of p's session, or on its way, stands in p's rows. */
  ghost predicate Grounded(w: World, p: string) {
    var rows := Rows(LinesOf(w, p));
    && (forall k :: k in w.events ==> EntryStands(w.events[k], k, rows, Stem(p)))
    && (forall id :: id in w.passes && w.passes[id].Writing? ==>
          if w.passes[id].path == p then AllStand(w.passes[id].rows, rows) else Foreign(w.passes[id].rows, Stem(p)))
    && (forall q :: q in w.files && q != p ==> Foreign(Rows(w.files[q]), Stem(p)))
  }

  ghost predicate EntryStands(e: Event, k: Key, rows: seq<Event>, sid: string) {
    KeyOf(e) == k && (k.sessionID == sid ==> Stands(e, rows))
  }

  lemma StandsMore(e: Event, rows: seq<Event>, more: seq<Event>)
    requires Stands(e, rows)
    ensures Stands(e, rows + more)
  {
    var i :| 0 <= i < |rows| && KeyOf(rows[i]) == KeyOf(e) && rows[i].output == e.output;
    assert (rows + more)[i] == rows[i];
  }

  lemma StandsIn(e: Event, part: seq<Event>, rows: seq<Event>)
    requires Stands(e, part) && forall d :: d in part ==> d in rows
    ensures Stands(e, rows)
  {
    var i :| 0 <= i < |part| && KeyOf(part[i]) == KeyOf(e) && part[i].output == e.output;
    assert part[i] in part;
    var j :| 0 <= j < |rows| && rows[j] == part[i];
  }

  lemma AppendGrounded(w: World, a: Action, p: string)
    requires Grounded(w, p) && Enabled(w, a) && a.Append? && KeepsOut(a, p)
    ensures Grounded(Apply(w, a), p)
  {
    var w', rows := Apply(w, a), Rows(LinesOf(w, p));
    if a.path == p {
      RowsOfAppend(LinesOf(w, p), a.line);
      forall e | Stands(e, rows) ensures Stands(e, rows + a.line.rows) { StandsMore(e, rows, a.line.rows); }
    } else {
      RowsOfAppend(LinesOf(w, a.path), a.line);
      assert Foreign(Rows(LinesOf(w, a.path)), Stem(p));
      assert LinesOf(w', p) == LinesOf(w, p);
    }
  }

  lemma ParseGrounded(w: World, a: Action, p: string)
    requires Grounded(w, p) && Enabled(w, a) && a.Parse?
    ensures Grounded(Apply(w, a), p)
  {
    var w', pass := Apply(w, a), w.passes[a.id];
    var ls := LinesOf(w, pass.path);
    assert LinesOf(w', p) == LinesOf(w, p);
    RowsSplit(ls, pass.from);
    if pass.path == p {
      forall e | e in a.rows ensures Stands(e, Rows(ls)) {
        var j :| 0 <= j < |a.rows| && a.rows[j] == e;
        StandsIn(a.rows[j], RowsFrom(ls, pass.from), Rows(ls));
      }
    } else {
      assert Foreign(Rows(ls), Stem(p));
      assert Foreign(RowsFrom(ls, pass.from), Stem(p));
      StandsForeign(RowsFrom(ls, pass.from), a.rows, Stem(p));
    }
  }

  lemma {:induction false} BatchEntries(t: Table, es: seq<Event>, rows: seq<Event>, sid: string)
    requires forall k :: k in t ==> EntryStands(t[k], k, rows, sid)
    requires AllStand(es, rows) || Foreign(es, sid)
    ensures forall k :: k in UpsertAll(t, es) ==> EntryStands(UpsertAll(t, es)[k], k, rows, sid)
  {
    forall k | k in UpsertAll(t, es) ensures EntryStands(UpsertAll(t, es)[k], k, rows, sid) {
      UpsertOrigin(t, es, k);
    }
  }

  lemma BatchGrounded(w: World, a: Action, p: string)
    requires Grounded(w, p) && Enabled(w, a) && a.Batch?
    ensures Grounded(Apply(w, a), p)
  {
    var w', pass := Apply(w, a), w.passes[a.id];
    assert LinesOf(w', p) == LinesOf(w, p);
    var batch := pass.rows[pass.done..Min(pass.done + IngestPass.BATCH, |pass.rows|)];
    assert forall e :: e in batch ==> e in pass.rows;
    BatchEntries(w.events, batch, Rows(LinesOf(w, p)), Stem(p));
  }

  /** The other steps only take rows away, if they touch any. */
  lemma OtherGrounded(w: World, a: Action, p: string)
    requires Grounded(w, p) && Enabled(w, a) && !a.Append? && !a.Parse? && !a.Batch?
    ensures Grounded(Apply(w, a), p)
  {
    var w' := Apply(w, a);
    assert LinesOf(w', p) == LinesOf(w, p);
    assert forall k :: k in w'.events ==> k in w.events && w'.events[k] == w.events[k];
    assert forall id :: id in w'.passes && w'.passes[id].Writing? ==> id in w.passes && w'.passes[id] == w.passes[id];
  }

  lemma {:induction false} RunGrounded(w: World, actions: seq<Action>, p: string)
    requires Grounded(w, p) && IsRun(w, actions, p) && forall a :: a in actions ==> KeepsOut(a, p)
    ensures Grounded(After(w, actions, p), p)
    decreases |actions|
  {
    if actions != [] {
      var a := actions[0];
      assert a in actions;
      if a.Append? { AppendGrounded(w, a, p); }
      else if a.Parse? { ParseGrounded(w, a, p); }
      else if a.Batch? { BatchGrounded(w, a, p); }
      else { OtherGrounded(w, a, p); }
      assert forall b :: b in actions[1..] ==> b in actions;
      RunGrounded(Apply(w, a), actions[1..], p);
    }
  }

  /** Whatever passes, batches, crashes, prunes and resets interleaved: when the
      cursor stands at the end of the transcript, the store holds of its session
      exactly the keys and outputs that one read of the whole file leaves. */
  lemma {:induction false} CaughtUpOutputs(actions: seq<Action>, p: string, once: seq<Event>)
    requires IsRun(Init, actions, p) && forall a :: a in actions ==> KeepsOut(a, p)
    requires var w := After(Init, actions, p);
             p in w.cursors && w.cursors[p].offset == Bytes(LinesOf(w, p)) && Faithful(Rows(LinesOf(w, p)), once)
    ensures SameOutputs(SessionPart(After(Init, actions, p).events, Stem(p)), UpsertAll(map[], once))
  {
    var w := After(Init, actions, p);
    var rows := Rows(LinesOf(w, p));
    RunGrounded(Init, actions, p);
    RunKeepsInv(Init, actions, p);
    AllBelowTheEnd(LinesOf(w, p));
    forall i | 0 <= i < |rows| ensures Holds(SessionPart(w.events, Stem(p)), rows[i]) {
      CursorIsSafe(actions, p, rows[i]);
    }
    forall k | k in SessionPart(w.events, Stem(p)) ensures Stands(w.events[k], rows) {
      assert EntryStands(w.events[k], k, rows, Stem(p));
    }
    OneReadHoldsJust(rows, once);
    JustSame(SessionPart(w.events, Stem(p)), UpsertAll(map[], once), rows);
  }
}
