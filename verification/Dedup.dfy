/** The Claude adapter drops duplicate turns within one read before it returns
    them: of the lines of one request the LAST with the largest output stays,
    while the store keeps the FIRST it sees.  Here every line has its key;
    ClaudeReads says when that is so. */
module ClaudeDedup {
  import opened Schema
  import opened EventStore
  import opened ConcurrentIngest

  /** calls and order of Parse's loop. */
  datatype Turns = Turns(calls: Table, order: seq<Key>)

  function AddLine(t: Turns, e: Event): Turns {
    var k := KeyOf(e);
    if k !in t.calls then Turns(t.calls[k := e], t.order + [k])
    else if e.output >= t.calls[k].output then t.(calls := t.calls[k := e])
    else t
  }

  function AddLines(rows: seq<Event>): Turns {
    if rows == [] then Turns(map[], []) else AddLine(AddLines(rows[..|rows| - 1]), rows[|rows| - 1])
  }

  predicate WellFormed(t: Turns) {
    forall i :: 0 <= i < |t.order| ==> t.order[i] in t.calls
  }

  lemma {:induction false} AddLinesWellFormed(rows: seq<Event>)
    ensures WellFormed(AddLines(rows))
  {
    if rows != [] { AddLinesWellFormed(rows[..|rows| - 1]); }
  }

  /** What one read over these lines returns. */
  function Dedup(rows: seq<Event>): seq<Event> {
    AddLinesWellFormed(rows);
    var t := AddLines(rows);
    seq(|t.order|, i requires 0 <= i < |t.order| => t.calls[t.order[i]])
  }

  // ----- one read -----

  /** e is a row of key k with the largest output among rows' k. */
  ghost predicate IsLargest(rows: seq<Event>, k: Key, e: Event) {
    && e in rows && KeyOf(e) == k
    && forall j :: 0 <= j < |rows| && KeyOf(rows[j]) == k ==> rows[j].output <= e.output
  }

  /** t holds a largest row for every key of rows, and nothing else. */
  ghost predicate LargestTable(t: Table, rows: seq<Event>) {
    && (forall j :: 0 <= j < |rows| ==> KeyOf(rows[j]) in t)
    && (forall k :: k in t ==> IsLargest(rows, k, t[k]))
  }

  ghost predicate Ordered(t: Turns) {
    && WellFormed(t)
    && (forall k :: k in t.calls ==> k in t.order)
  }

  lemma {:induction false} DedupIsLargest(rows: seq<Event>)
    ensures LargestTable(AddLines(rows).calls, rows) && Ordered(AddLines(rows))
  {
    if rows != [] {
      var init, e := rows[..|rows| - 1], rows[|rows| - 1];
      DedupIsLargest(init);
      assert rows == init + [e];
      AddLineLargest(AddLines(init), init, e);
      AddLineOrdered(AddLines(init), e);
    }
  }

  lemma AddLineLargest(t: Turns, rows: seq<Event>, e: Event)
    requires LargestTable(t.calls, rows)
    ensures LargestTable(AddLine(t, e).calls, rows + [e])
  {
    var calls := AddLine(t, e).calls;
    forall j | 0 <= j < |rows + [e]| ensures KeyOf((rows + [e])[j]) in calls {
      if j < |rows| { assert (rows + [e])[j] == rows[j];
    }
    }
    forall k | k in calls ensures IsLargest(rows + [e], k, calls[k]) {
      LargestOneMore(rows, e, k, t.calls);
    }
  }

  lemma AddLineOrdered(t: Turns, e: Event)
    requires Ordered(t)
    ensures Ordered(AddLine(t, e))
  {
    assert t.order <= AddLine(t, e).order;
  }

  lemma LargestOneMore(rows: seq<Event>, e: Event, k: Key, t: Table)
    requires LargestTable(t, rows)
    ensures k in t && !(k == KeyOf(e) && e.output >= t[k].output) ==> IsLargest(rows + [e], k, t[k])
    ensures k == KeyOf(e) && (k in t ==> e.output >= t[k].output) ==> IsLargest(rows + [e], k, e)
  {
    forall j | 0 <= j < |rows + [e]| ensures j < |rows| ==> (rows + [e])[j] == rows[j] && KeyOf(rows[j]) in t {
    }
    assert (rows + [e])[|rows|] == e;
    if k in t { assert IsLargest(rows, k, t[k]); }
  }

  lemma {:induction false} DedupHasLargest(rows: seq<Event>, k: Key)
    requires k in AddLines(rows).calls
    ensures exists i :: 0 <= i < |Dedup(rows)| && Dedup(rows)[i] == AddLines(rows).calls[k]
  {
    DedupIsLargest(rows);
    var t := AddLines(rows);
    var i :| 0 <= i < |t.order| && t.order[i] == k;
    assert Dedup(rows)[i] == t.calls[k];
  }

  /** What is returned are lines of the read, of every key one of its largest. */
  ghost predicate Chosen(lines: seq<Event>, emitted: seq<Event>) {
    && (forall i :: 0 <= i < |lines| ==> Dominated(lines[i], emitted))
    && (forall j :: 0 <= j < |emitted| ==> emitted[j] in lines)
  }

  /** So the adapter keeps Parse's contract. */
  lemma ChosenIsFaithful(lines: seq<Event>, emitted: seq<Event>)
    requires Chosen(lines, emitted)
    ensures Faithful(lines, emitted)
  {
    forall j | 0 <= j < |emitted| ensures Stands(emitted[j], lines) {
      var i :| 0 <= i < |lines| && lines[i] == emitted[j];
    }
  }

  lemma DedupChosen(rows: seq<Event>)
    ensures Chosen(rows, Dedup(rows))
  {
    DedupIsLargest(rows);
    var t := AddLines(rows);
    forall i | 0 <= i < |rows| ensures Dominated(rows[i], Dedup(rows)) {
      DedupHasLargest(rows, KeyOf(rows[i]));
    }
    forall j | 0 <= j < |Dedup(rows)| ensures Dedup(rows)[j] in rows {
      assert t.order[j] in t.calls;
    }
  }

  // ----- many reads -----

  /** The read leaves every row held ... */
  lemma {:induction false} ReadHolds(t: Table, before: seq<Event>, lines: seq<Event>, emitted: seq<Event>, e: Event)
    requires LargestTable(t, before) && Chosen(lines, emitted) && (e in before || e in lines)
    ensures Holds(UpsertAll(t, emitted), e)
  {
    UpsertGrows(t, emitted);
    if e in before {
      var j :| 0 <= j < |before| && before[j] == e;
      assert KeyOf(before[j]) in t && IsLargest(before, KeyOf(e), t[KeyOf(e)]);
    } else {
      var j :| 0 <= j < |lines| && lines[j] == e;
      DominatedIsHeld(t, lines[j], emitted);
    }
  }

  lemma {:induction false} DominatedIsHeld(t: Table, e: Event, emitted: seq<Event>)
    requires Dominated(e, emitted)
    ensures Holds(UpsertAll(t, emitted), e)
  {
    UpsertGrows(t, emitted);
    var i :| 0 <= i < |emitted| && KeyOf(emitted[i]) == KeyOf(e) && emitted[i].output >= e.output;
    assert Holds(UpsertAll(t, emitted), emitted[i]);
  }

  /** ... and stores only rows it has met. */
  lemma {:induction false} ReadStores(t: Table, before: seq<Event>, lines: seq<Event>, emitted: seq<Event>, k: Key)
    requires LargestTable(t, before) && Chosen(lines, emitted) && k in UpsertAll(t, emitted)
    ensures var e := UpsertAll(t, emitted)[k]; KeyOf(e) == k && (e in before || e in lines)
  {
    UpsertOrigin(t, emitted, k);
    var e := UpsertAll(t, emitted)[k];
    if k in t && e == t[k] {
      assert IsLargest(before, k, t[k]);
    } else {
      var j :| 0 <= j < |emitted| && emitted[j] == e;
      assert emitted[j] in lines;
    }
  }

  /** One more read, starting anywhere inside what has been read, with any
      parser that keeps the contract. */
  lemma {:induction false} ReadKeepsLargest(
      t: Table, before: seq<Event>, after: seq<Event>, lines: seq<Event>, emitted: seq<Event>)
    requires LargestTable(t, before) && Chosen(lines, emitted)
    requires forall e :: e in after <==> e in before || e in lines
    ensures LargestTable(UpsertAll(t, emitted), after)
  {
    var t' := UpsertAll(t, emitted);
    forall j | 0 <= j < |after| ensures Holds(t', after[j]) {
      assert after[j] in after;
      ReadHolds(t, before, lines, emitted, after[j]);
    }
    forall k | k in t' ensures IsLargest(after, k, t'[k]) {
      ReadStores(t, before, lines, emitted, k);
    }
  }

  lemma SameOutputs(t: Table, t': Table, rows: seq<Event>)
    requires LargestTable(t, rows) && LargestTable(t', rows)
    ensures forall k :: k in t ==> k in t' && t[k].output <= t'[k].output
  {
    forall k | k in t ensures k in t' && t[k].output <= t'[k].output {
      assert IsLargest(rows, k, t[k]);
      var j :| 0 <= j < |rows| && rows[j] == t[k];
      assert KeyOf(rows[j]) in t' && IsLargest(rows, k, t'[k]);
    }
  }

  /** No request has two different lines that share its largest output. */
  ghost predicate TieFree(rows: seq<Event>) {
    forall k, e, e' :: IsLargest(rows, k, e) && IsLargest(rows, k, e') ==> e == e'
  }

  /** A read that ends at a line with its key's largest output stores that line. */
  lemma LastLineWins(rows: seq<Event>, e: Event)
    requires forall j :: 0 <= j < |rows| && KeyOf(rows[j]) == KeyOf(e) ==> rows[j].output <= e.output
    ensures KeyOf(e) in UpsertAll(map[], Dedup(rows + [e])) && UpsertAll(map[], Dedup(rows + [e]))[KeyOf(e)] == e
  {
    var all := rows + [e];
    assert all[..|all| - 1] == rows;
    DedupIsLargest(rows);
    var t := AddLines(all);
    assert t.calls[KeyOf(e)] == e;
    DedupIsLargest(all);
    DedupHasLargest(all, KeyOf(e));
    OneOfEach(all);
    var es := Dedup(all);
    var i :| 0 <= i < |es| && es[i] == e;
    UpsertGrows(map[], es);
    assert Holds(UpsertAll(map[], es), es[i]);
    UpsertOrigin(map[], es, KeyOf(e));
    var stored := UpsertAll(map[], es)[KeyOf(e)];
    var j :| 0 <= j < |es| && es[j] == stored;
    assert t.order[j] in t.calls && IsLargest(all, t.order[j], t.calls[t.order[j]]);
  }

  /** Each returned event is the one kept for its own key. */
  lemma {:induction false} OneOfEach(rows: seq<Event>)
    ensures forall i :: 0 <= i < |Dedup(rows)| ==>
      KeyOf(Dedup(rows)[i]) in AddLines(rows).calls && Dedup(rows)[i] == AddLines(rows).calls[KeyOf(Dedup(rows)[i])]
  {
    DedupIsLargest(rows);
    var t := AddLines(rows);
    forall i | 0 <= i < |Dedup(rows)|
      ensures KeyOf(Dedup(rows)[i]) in t.calls && Dedup(rows)[i] == t.calls[KeyOf(Dedup(rows)[i])]
    {
      assert t.order[i] in t.calls && IsLargest(rows, t.order[i], t.calls[t.order[i]]);
    }
  }

  lemma {:induction false} UpsertKeeps(t: Table, es: seq<Event>, k: Key)
    requires k in t && forall j :: 0 <= j < |es| && KeyOf(es[j]) == k ==> es[j].output <= t[k].output
    ensures k in UpsertAll(t, es) && UpsertAll(t, es)[k] == t[k]
    decreases |es|
  {
    if es != [] {
      assert Upsert(t, es[0])[k] == t[k];
      forall j | 0 <= j < |es[1..]| && KeyOf(es[1..][j]) == k ensures es[1..][j].output <= t[k].output {
        assert es[1..][j] == es[j + 1];
      }
      UpsertKeeps(Upsert(t, es[0]), es[1..], k);
    }
  }
}
