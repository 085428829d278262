/** What is stored of a Claude transcript when its reads are cut anywhere and
    repeated, against one read of the whole file. */
module ClaudeCuts {
  import opened Schema
  import opened Strings
  import opened EventStore
  import opened ConcurrentIngest
  import opened Histories
  import opened ClaudeDedup
  import opened ClaudeReads

  // ----- parts of the transcript -----

  lemma {:induction false} UsageAppend(a: seq<Record>, b: seq<Record>)
    ensures UsageLines(a + b) == UsageLines(a) + UsageLines(b)
    decreases |b|
  {
    if b == [] {
      assert a + b == a;
    } else {
      var init, last := b[..|b| - 1], b[|b| - 1];
      assert (a + b)[..|a + b| - 1] == a + init;
      UsageAppend(a, init);
    }
  }

  /** How many usage lines stand before line i. */
  function Before(ls: seq<Record>, i: nat): nat
    requires i <= |ls|
  {
    |UsageLines(ls[..i])|
  }

  lemma {:induction false} UsageSplit(ls: seq<Record>, i: nat)
    requires i <= |ls|
    ensures UsageLines(ls) == UsageLines(ls[..i]) + UsageLines(ls[i..])
  {
    assert ls == ls[..i] + ls[i..];
    UsageAppend(ls[..i], ls[i..]);
  }

  lemma {:induction false} UsageSlice(ls: seq<Record>, f: nat, u: nat)
    requires f <= u <= |ls|
    ensures Before(ls, f) <= Before(ls, u) <= |UsageLines(ls)|
    ensures UsageLines(ls[f..u]) == UsageLines(ls)[Before(ls, f)..Before(ls, u)]
  {
    UsageSplit(ls, u);
    UsageSplit(ls[..u], f);
    assert ls[..u][..f] == ls[..f] && ls[..u][f..] == ls[f..u];
  }

  lemma {:induction false} UsageAt(ls: seq<Record>, i: nat)
    requires i < |ls| && Counts(ls[i])
    ensures Before(ls, i) < |UsageLines(ls)| && UsageLines(ls)[Before(ls, i)] == TurnOf(ls[i])
    ensures Before(ls, i + 1) == Before(ls, i) + 1
  {
    UsageNext(ls, i);
    UsageSlice(ls, i, i + 1);
    UsageSplit(ls, i + 1);
  }

  lemma BeforeMonotone(ls: seq<Record>, i: nat, j: nat)
    requires i <= j <= |ls|
    ensures Before(ls, i) <= Before(ls, j)
    ensures i < j && Counts(ls[i]) ==> Before(ls, i) < Before(ls, j)
  {
    UsageSlice(ls, i, j);
    if i < j && Counts(ls[i]) {
      UsageAt(ls, i);
      UsageSlice(ls, i + 1, j);
    }
  }

  /** Every usage line is some line. */
  lemma {:induction false} UsageFrom(ls: seq<Record>, m: nat, n: nat) returns (i: nat)
    requires n <= |ls| && m < Before(ls, n)
    ensures i < n && Counts(ls[i]) && Before(ls, i) == m
    decreases n
  {
    assert ls[..0] == [];
    UsageNext(ls, n - 1);
    if m < Before(ls, n - 1) { i := UsageFrom(ls, m, n - 1); } else { i := n - 1; }
  }

  // ----- the rows of a line -----

  /** The turn of line i, with its key in a read from the start. */
  function TurnAt(sid: string, ls: seq<Record>, i: nat): Event
    requires i < |ls| && Counts(ls[i])
  {
    UsageAt(ls, i);
    Keyed(sid, UsageLines(ls))[Before(ls, i)]
  }

  /** What line i adds to a read from the start. */
  function LineRows(sid: string, ls: seq<Record>, i: nat): seq<Event>
    requires i < |ls|
  {
    (if ls[i].tools then [OrphanRow(ToolKey(sid, ls[i], i))] else [])
    + (if Counts(ls[i]) then [TurnAt(sid, ls, i)] else [])
  }

  function Joined(parts: seq<seq<Event>>, f: nat, u: nat): seq<Event>
    requires f <= u <= |parts|
  {
    if f == u then [] else Joined(parts, f, u - 1) + parts[u - 1]
  }

  lemma {:induction false} JoinedIn(parts: seq<seq<Event>>, f: nat, u: nat, e: Event)
    requires f <= u <= |parts|
    ensures e in Joined(parts, f, u) <==> exists i :: f <= i < u && e in parts[i]
  {
    if f < u { JoinedIn(parts, f, u - 1, e); }
  }

  function PerLine(sid: string, ls: seq<Record>): (parts: seq<seq<Event>>)
    ensures |parts| == |ls| && forall i :: 0 <= i < |ls| ==> parts[i] == LineRows(sid, ls, i)
  {
    seq(|ls|, i requires 0 <= i < |ls| => LineRows(sid, ls, i))
  }

  /** The rows of lines f to u. */
  function RowsOf(sid: string, ls: seq<Record>, f: nat, u: nat): seq<Event>
    requires f <= u <= |ls|
  {
    Joined(PerLine(sid, ls), f, u)
  }

  predicate InLine(sid: string, ls: seq<Record>, i: nat, e: Event) { i < |ls| && e in LineRows(sid, ls, i) }

  lemma {:induction false} RowsOfLines(sid: string, ls: seq<Record>, f: nat, u: nat, e: Event)
    requires f <= u <= |ls|
    ensures e in RowsOf(sid, ls, f, u) <==> exists i: nat :: f <= i < u && InLine(sid, ls, i, e)
  {
    var parts := PerLine(sid, ls);
    JoinedIn(parts, f, u, e);
    assert forall i: nat :: i < |ls| ==> (InLine(sid, ls, i, e) <==> e in parts[i]);
  }

  lemma {:induction false} RowsOfJoin(sid: string, ls: seq<Record>, c: nat, f: nat, u: nat, c': nat, e: Event)
    requires f <= c <= |ls| && f <= u <= |ls| && c' == if c < u then u else c
    ensures e in RowsOf(sid, ls, 0, c') <==> e in RowsOf(sid, ls, 0, c) || e in RowsOf(sid, ls, f, u)
  {
    RowsOfLines(sid, ls, 0, c', e);
    RowsOfLines(sid, ls, 0, c, e);
    RowsOfLines(sid, ls, f, u, e);
  }

  // ----- when keys do not depend on the read -----

  /** Every line with tool calls but the first of the transcript has an id. */
  predicate ToolsIdentified(ls: seq<Record>) {
    forall i :: 0 < i < |ls| && ls[i].tools ==> ls[i].id.Some?
  }

  /** No usage line behind the first and no line with tool calls behind the
      transcript's first line lacks an id. */
  predicate Steady(ls: seq<Record>) { Identified(UsageLines(ls)) && ToolsIdentified(ls) }

  lemma {:induction false} ToolKeysAre(sid: string, vs: seq<Record>, k: Key)
    ensures k in ToolKeys(sid, vs) <==> exists i :: 0 <= i < |vs| && vs[i].tools && ToolKey(sid, vs[i], i) == k
  {
    if vs != [] {
      var init := vs[..|vs| - 1];
      ToolKeysAre(sid, init, k);
      assert forall i :: 0 <= i < |init| ==> init[i] == vs[i];
    }
  }

  lemma {:induction false} SliceToolKeys(sid: string, ls: seq<Record>, f: nat, u: nat, k: Key)
    requires ToolsIdentified(ls) && f <= u <= |ls|
    ensures k in ToolKeys(sid, ls[f..u]) <==> exists i :: f <= i < u && ls[i].tools && ToolKey(sid, ls[i], i) == k
  {
    var vs := ls[f..u];
    ToolKeysAre(sid, vs, k);
    if i :| 0 <= i < |vs| && vs[i].tools && ToolKey(sid, vs[i], i) == k {
      assert ls[f + i].tools && ToolKey(sid, ls[f + i], f + i) == k;
    }
    if i :| f <= i < u && ls[i].tools && ToolKey(sid, ls[i], i) == k {
      assert vs[i - f].tools && ToolKey(sid, vs[i - f], i - f) == k;
    }
  }

  lemma {:induction false} SliceKeyed(sid: string, ls: seq<Record>, f: nat, u: nat)
    requires Identified(UsageLines(ls)) && f <= u <= |ls|
    ensures Before(ls, f) <= Before(ls, u) <= |UsageLines(ls)|
    ensures Keyed(sid, UsageLines(ls[f..u])) == Keyed(sid, UsageLines(ls))[Before(ls, f)..Before(ls, u)]
  {
    UsageSlice(ls, f, u);
    KeyedSlice(sid, UsageLines(ls), Before(ls, f), Before(ls, u));
  }

  lemma {:induction false} TurnInside(sid: string, ls: seq<Record>, f: nat, u: nat, i: nat)
    requires f <= i < u <= |ls| && Counts(ls[i])
    ensures Before(ls, f) <= Before(ls, i) < Before(ls, u) <= |UsageLines(ls)|
    ensures TurnAt(sid, ls, i) in Keyed(sid, UsageLines(ls))[Before(ls, f)..Before(ls, u)]
  {
    BeforeMonotone(ls, f, i);
    BeforeMonotone(ls, i, u);
    UsageSlice(ls, u, u);
    assert Keyed(sid, UsageLines(ls))[Before(ls, f)..Before(ls, u)][Before(ls, i) - Before(ls, f)]
      == TurnAt(sid, ls, i);
  }

  lemma TurnFrom(sid: string, ls: seq<Record>, f: nat, u: nat, e: Event) returns (i: nat)
    requires f <= u <= |ls| && Before(ls, f) <= Before(ls, u) <= |UsageLines(ls)|
    requires e in Keyed(sid, UsageLines(ls))[Before(ls, f)..Before(ls, u)]
    ensures f <= i < u && Counts(ls[i]) && e == TurnAt(sid, ls, i)
  {
    var m: nat :| Before(ls, f) <= m < Before(ls, u) && Keyed(sid, UsageLines(ls))[m] == e;
    i := UsageFrom(ls, m, u);
    if i < f { BeforeMonotone(ls, i, f); }
  }

  /** The turns of a read are the turns of its lines. */
  lemma {:induction false} SliceTurns(sid: string, ls: seq<Record>, f: nat, u: nat, e: Event)
    requires Identified(UsageLines(ls)) && f <= u <= |ls|
    ensures e in Keyed(sid, UsageLines(ls[f..u]))
        <==> exists i :: f <= i < u && Counts(ls[i]) && e == TurnAt(sid, ls, i)
  {
    SliceKeyed(sid, ls, f, u);
    if e in Keyed(sid, UsageLines(ls[f..u])) { var _ := TurnFrom(sid, ls, f, u, e); }
    if i :| f <= i < u && Counts(ls[i]) && e == TurnAt(sid, ls, i) { TurnInside(sid, ls, f, u, i); }
  }

  // ----- what a read returns -----

  lemma {:induction false} CallKeys(rows: seq<Event>, k: Key)
    ensures k in AddLines(rows).calls <==> exists j :: 0 <= j < |rows| && KeyOf(rows[j]) == k
  {
    DedupIsLargest(rows);
    if k in AddLines(rows).calls {
      assert IsLargest(rows, k, AddLines(rows).calls[k]);
      var j :| 0 <= j < |rows| && rows[j] == AddLines(rows).calls[k];
    }
  }

  lemma DedupIn(rows: seq<Event>, e: Event)
    requires e in Dedup(rows)
    ensures e in rows
  {
    DedupChosen(rows);
    var j :| 0 <= j < |Dedup(rows)| && Dedup(rows)[j] == e;
  }

  lemma TailIs(tail: seq<Event>, orphans: set<Key>, e: Event)
    requires ListsOrphans(tail, orphans) && e in tail
    ensures KeyOf(e) in orphans && e == OrphanRow(KeyOf(e))
  {
    var j :| 0 <= j < |tail| && tail[j] == e;
    assert tail[j] == OrphanRow(KeyOf(tail[j]));
  }

  /** A returned row is a turn of the read or the row of an orphan. */
  lemma {:induction false} ReturnedIs(sid: string, vs: seq<Record>, events: seq<Event>, e: Event)
    requires Returns(sid, vs, events) && e in events
    ensures e in Keyed(sid, UsageLines(vs)) || (KeyOf(e) in Orphans(sid, vs) && e == OrphanRow(KeyOf(e)))
  {
    var turns := Dedup(Keyed(sid, UsageLines(vs)));
    assert events == turns + events[|turns|..];
    if e in turns { DedupIn(Keyed(sid, UsageLines(vs)), e); } else { TailIs(events[|turns|..], Orphans(sid, vs), e); }
  }

  lemma {:induction false} ReturnsTurns(sid: string, vs: seq<Record>, events: seq<Event>)
    requires Returns(sid, vs, events)
    ensures forall e :: e in Dedup(Keyed(sid, UsageLines(vs))) ==> e in events
    ensures forall k :: k in Orphans(sid, vs) ==> OrphanRow(k) in events
  {
    var turns := Dedup(Keyed(sid, UsageLines(vs)));
    assert events == turns + events[|turns|..];
  }

  lemma DedupDominates(rows: seq<Event>, events: seq<Event>, e: Event)
    requires e in rows && forall d :: d in Dedup(rows) ==> d in events
    ensures Dominated(e, events)
  {
    DedupChosen(rows);
    var i :| 0 <= i < |rows| && rows[i] == e;
    assert Dominated(rows[i], Dedup(rows));
    var j :| 0 <= j < |Dedup(rows)| && KeyOf(Dedup(rows)[j]) == KeyOf(e) && Dedup(rows)[j].output >= e.output;
    InEvents(Dedup(rows)[j], e, events);
  }

  /** Each turn of a read is returned, or another of its key with at least its output. */
  lemma {:induction false} TurnDominated(sid: string, vs: seq<Record>, events: seq<Event>, e: Event)
    requires Returns(sid, vs, events) && e in Keyed(sid, UsageLines(vs))
    ensures Dominated(e, events)
  {
    ReturnsTurns(sid, vs, events);
    DedupDominates(Keyed(sid, UsageLines(vs)), events, e);
  }

  lemma InEvents(d: Event, e: Event, events: seq<Event>)
    requires d in events && KeyOf(d) == KeyOf(e) && d.output >= e.output
    ensures Dominated(e, events)
  {
    var j :| 0 <= j < |events| && events[j] == d;
  }

  lemma {:induction false} TurnsNonnegative(sid: string, us: seq<Usage>, e: Event)
    requires e in Keyed(sid, us)
    ensures e.output >= 0
  {
    var i :| 0 <= i < |us| && Keyed(sid, us)[i] == e;
    KeyedAt(sid, us, i);
  }

  /** So is the row of each request with tool calls. */
  lemma {:induction false} ToolDominated(sid: string, vs: seq<Record>, events: seq<Event>, k: Key)
    requires Returns(sid, vs, events) && k in ToolKeys(sid, vs)
    ensures Dominated(OrphanRow(k), events)
  {
    if k in TurnKeys(sid, vs) {
      var rows := Keyed(sid, UsageLines(vs));
      CallKeys(rows, k);
      var j :| 0 <= j < |rows| && KeyOf(rows[j]) == k;
      TurnsNonnegative(sid, UsageLines(vs), rows[j]);
      TurnDominated(sid, vs, events, rows[j]);
      var i :| 0 <= i < |events| && KeyOf(events[i]) == k && events[i].output >= rows[j].output;
    } else {
      ReturnsTurns(sid, vs, events);
      InEvents(OrphanRow(k), OrphanRow(k), events);
    }
  }

  /** With steady keys a read returns, of the rows of its lines, for every key
      one of the largest. */
  lemma {:induction false} ReadChosen(sid: string, ls: seq<Record>, f: nat, u: nat, events: seq<Event>)
    requires Steady(ls) && f <= u <= |ls| && Returns(sid, ls[f..u], events)
    ensures Chosen(RowsOf(sid, ls, f, u), events)
  {
    var rows := RowsOf(sid, ls, f, u);
    forall j | 0 <= j < |rows| ensures Dominated(rows[j], events) {
      assert rows[j] in rows;
      LineDominated(sid, ls, f, u, events, rows[j]);
    }
    forall j | 0 <= j < |events| ensures events[j] in rows {
      assert events[j] in events;
      ReturnedFromLine(sid, ls, f, u, events, events[j]);
    }
  }

  lemma {:induction false} LineDominated(sid: string, ls: seq<Record>, f: nat, u: nat, events: seq<Event>, e: Event)
    requires Steady(ls) && f <= u <= |ls| && Returns(sid, ls[f..u], events) && e in RowsOf(sid, ls, f, u)
    ensures Dominated(e, events)
  {
    RowsOfLines(sid, ls, f, u, e);
    var i: nat :| f <= i < u && InLine(sid, ls, i, e);
    if Counts(ls[i]) && e == TurnAt(sid, ls, i) {
      SliceTurns(sid, ls, f, u, e);
      TurnDominated(sid, ls[f..u], events, e);
    } else {
      var k := ToolKey(sid, ls[i], i);
      SliceToolKeys(sid, ls, f, u, k);
      ToolDominated(sid, ls[f..u], events, k);
    }
  }

  lemma {:induction false} ReturnedFromLine(sid: string, ls: seq<Record>, f: nat, u: nat, events: seq<Event>, e: Event)
    requires Steady(ls) && f <= u <= |ls| && Returns(sid, ls[f..u], events) && e in events
    ensures e in RowsOf(sid, ls, f, u)
  {
    RowsOfLines(sid, ls, f, u, e);
    ReturnedIs(sid, ls[f..u], events, e);
    if e in Keyed(sid, UsageLines(ls[f..u])) {
      SliceTurns(sid, ls, f, u, e);
      var i :| f <= i < u && Counts(ls[i]) && e == TurnAt(sid, ls, i);
      assert InLine(sid, ls, i, e);
    } else {
      SliceToolKeys(sid, ls, f, u, KeyOf(e));
      var i :| f <= i < u && ls[i].tools && ToolKey(sid, ls[i], i) == KeyOf(e);
      assert InLine(sid, ls, i, e);
    }
  }

  // ----- the contract of Parse -----

  /** What a read from line p returns keeps the contract for the rows that a read
      from the start finds in the lines from p on. */
  ghost predicate KeepsContract(sid: string, ls: seq<Record>, p: nat)
    requires p <= |ls|
  {
    forall events :: Returns(sid, ls[p..], events) ==> Faithful(RowsOf(sid, ls, p, |ls|), events)
  }

  lemma {:induction false} OrphansListed(s: set<Key>) returns (tail: seq<Event>)
    ensures ListsOrphans(tail, s)
    decreases |s|
  {
    tail := [];
    if s != {} {
      var k :| k in s;
      tail := OrphansListed(s - {k});
      OneMoreOrphan(tail, s - {k}, k);
      tail := tail + [OrphanRow(k)];
      assert s - {k} + {k} == s;
    }
  }

  lemma SomeRead(sid: string, vs: seq<Record>) returns (events: seq<Event>)
    ensures Returns(sid, vs, events)
  {
    var turns := Dedup(Keyed(sid, UsageLines(vs)));
    var tail := OrphansListed(Orphans(sid, vs));
    events := turns + tail;
    assert events[|turns|..] == tail;
  }

  predicate LooksLikeToolRow(name: string) { |name| >= 8 && name[..8] == "_toolrow" }

  /** No id is spelled like a key that stands for a missing one. */
  predicate NamesApart(ls: seq<Record>) {
    forall i :: 0 <= i < |ls| && ls[i].id.Some? ==> !LooksLikeRow(ls[i].id.value) && !LooksLikeToolRow(ls[i].id.value)
  }

  lemma ToolRowNames(m: nat, n: nat)
    ensures ToolRowName(m) == ToolRowName(n) ==> m == n
    ensures ToolRowName(m) != RowName(n) && LooksLikeToolRow(ToolRowName(m)) && !LooksLikeRow(ToolRowName(m))
  {
    assert ToolRowName(m)[8..] == Digits(m + 1) && ToolRowName(n)[8..] == Digits(n + 1);
    if ToolRowName(m) == ToolRowName(n) { DigitsDiffer(m + 1, n + 1); }
    assert ToolRowName(m)[1] == 't' && RowName(n)[1] == 'r';
  }

  lemma {:induction false} TurnRequest(sid: string, ls: seq<Record>, i: nat)
    requires i < |ls| && Counts(ls[i])
    ensures Before(ls, i) < |UsageLines(ls)|
    ensures TurnAt(sid, ls, i).requestID == IdOf(TurnOf(ls[i]), CountAt(sid, UsageLines(ls), Before(ls, i)))
    ensures KeyOf(TurnAt(sid, ls, i)) == Key("anthropic", sid, TurnAt(sid, ls, i).requestID)
    ensures TurnAt(sid, ls, i).model != "" && TurnAt(sid, ls, i).output == ls[i].usage.value.output
  {
    UsageAt(ls, i);
    KeyedAt(sid, UsageLines(ls), Before(ls, i));
  }

  lemma {:induction false} UsageNames(ls: seq<Record>)
    requires NamesApart(ls)
    ensures TurnNamesApart(UsageLines(ls))
  {
    forall m | 0 <= m < |UsageLines(ls)| && UsageLines(ls)[m].id.Some?
      ensures !LooksLikeRow(UsageLines(ls)[m].id.value)
    {
      assert ls[..|ls|] == ls;
      var i := UsageFrom(ls, m, |ls|);
      UsageAt(ls, i);
    }
  }

  /** Behind the first usage line no row is called row 0 by a read from the start. */
  lemma NoLaterRowZero(sid: string, ls: seq<Record>, i: nat, e: Event)
    requires NamesApart(ls) && i < |ls| && Before(ls, i) > 0 && e in LineRows(sid, ls, i)
    ensures e.requestID != RowName(0)
  {
    RowNameLooks(0);
    if Counts(ls[i]) && e == TurnAt(sid, ls, i) {
      UsageNames(ls);
      UsageAt(ls, i);
      LaterRowName(sid, UsageLines(ls), Before(ls, i));
    } else {
      ToolRowNames(i, 0);
    }
  }

  /** A read that starts at a usage line without an id returns a row 0. */
  lemma ReturnsRowZero(sid: string, ls: seq<Record>, p: nat) returns (e: Event)
    requires p < |ls| && Counts(ls[p]) && ls[p].id.None?
    ensures e in Keyed(sid, UsageLines(ls[p..])) && e.requestID == RowName(0)
  {
    UsageSplit(ls, p);
    UsageAt(ls, p);
    var us := UsageLines(ls);
    assert us[Before(ls, p)..] == UsageLines(ls[p..]);
    FirstIsRowZero(sid, us, Before(ls, p));
    e := Keyed(sid, UsageLines(ls[p..]))[0];
  }

  lemma TurnBreaks(sid: string, ls: seq<Record>, p: nat)
    requires NamesApart(ls) && p < |ls| && Counts(ls[p]) && ls[p].id.None? && Before(ls, p) > 0
    ensures !KeepsContract(sid, ls, p)
  {
    var events := SomeRead(sid, ls[p..]);
    var e := ReturnsRowZero(sid, ls, p);
    TurnDominated(sid, ls[p..], events, e);
    var j :| 0 <= j < |events| && KeyOf(events[j]) == KeyOf(e);
    forall m | 0 <= m < |RowsOf(sid, ls, p, |ls|)| ensures KeyOf(RowsOf(sid, ls, p, |ls|)[m]) != KeyOf(e) {
      var row := RowsOf(sid, ls, p, |ls|)[m];
      RowsOfLines(sid, ls, p, |ls|, row);
      var i: nat :| p <= i < |ls| && InLine(sid, ls, i, row);
      BeforeMonotone(ls, p, i);
      NoLaterRowZero(sid, ls, i, row);
    }
    assert !Stands(events[j], RowsOf(sid, ls, p, |ls|));
  }

  /** Behind the first line no row is called tool row 1 by a read from the start. */
  lemma NoLaterToolRow(sid: string, ls: seq<Record>, i: nat, e: Event)
    requires NamesApart(ls) && 0 < i < |ls| && e in LineRows(sid, ls, i)
    ensures e.requestID != ToolRowName(0)
  {
    ToolRowNames(i, 0);
    ToolRowNames(0, 0);
    if Counts(ls[i]) && e == TurnAt(sid, ls, i) {
      TurnRequest(sid, ls, i);
      ToolRowNames(0, CountAt(sid, UsageLines(ls), Before(ls, i)));
    }
  }

  lemma ToolBreaks(sid: string, ls: seq<Record>, p: nat)
    requires NamesApart(ls) && 0 < p < |ls| && ls[p].tools && ls[p].id.None?
    ensures !KeepsContract(sid, ls, p)
  {
    var events := SomeRead(sid, ls[p..]);
    var k := ToolKey(sid, ls[p], 0);
    ToolKeysAre(sid, ls[p..], k);
    assert ls[p..][0] == ls[p];
    ToolDominated(sid, ls[p..], events, k);
    var j :| 0 <= j < |events| && KeyOf(events[j]) == k;
    forall m | 0 <= m < |RowsOf(sid, ls, p, |ls|)| ensures KeyOf(RowsOf(sid, ls, p, |ls|)[m]) != k {
      var row := RowsOf(sid, ls, p, |ls|)[m];
      RowsOfLines(sid, ls, p, |ls|, row);
      var i: nat :| p <= i < |ls| && InLine(sid, ls, i, row);
      NoLaterToolRow(sid, ls, i, row);
    }
    assert !Stands(events[j], RowsOf(sid, ls, p, |ls|));
  }

  /** The adapter keeps the contract of Parse for every read of a transcript if
      and only if no usage line behind the first, and no line with tool calls
      behind the transcript's first line, lacks an id. */
  lemma ContractKeptIff(sid: string, ls: seq<Record>)
    requires NamesApart(ls)
    ensures (forall p :: 0 <= p <= |ls| ==> KeepsContract(sid, ls, p)) <==> Steady(ls)
  {
    if Steady(ls) {
      forall p, events | 0 <= p <= |ls| && Returns(sid, ls[p..], events)
        ensures Faithful(RowsOf(sid, ls, p, |ls|), events)
      {
        assert ls[p..|ls|] == ls[p..];
        ReadChosen(sid, ls, p, |ls|, events);
        ChosenIsFaithful(RowsOf(sid, ls, p, |ls|), events);
      }
    } else if !ToolsIdentified(ls) {
      var p :| 0 < p < |ls| && ls[p].tools && ls[p].id.None?;
      ToolBreaks(sid, ls, p);
    } else {
      var m :| 0 < m < |UsageLines(ls)| && UsageLines(ls)[m].id.None?;
      assert ls[..|ls|] == ls;
      var p := UsageFrom(ls, m, |ls|);
      UsageAt(ls, p);
      TurnBreaks(sid, ls, p);
    }
  }
}
