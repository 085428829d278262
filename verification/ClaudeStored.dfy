/** The stored rows of a Claude transcript under histories of reads. */
module ClaudeStored {
  import opened Schema
  import opened Strings
  import opened EventStore
  import opened ConcurrentIngest
  import opened Histories
  import opened ClaudeDedup
  import opened ClaudeReads
  import opened ClaudeCuts

  // ----- one read into the store -----

  function WithOrphans(t: Table, orphans: set<Key>): Table {
    map k | k in t.Keys + orphans ::
      if k in orphans && (k !in t || t[k].output < 0) then OrphanRow(k) else t[k]
  }

  /** The table after one read of these lines. */
  function ReadInto(sid: string, t: Table, vs: seq<Record>): Table {
    WithOrphans(UpsertAll(t, Dedup(Keyed(sid, UsageLines(vs)))), Orphans(sid, vs))
  }

  function KeysOf(es: seq<Event>): set<Key> { set e | e in es :: KeyOf(e) }

  lemma {:induction false} UpsertOrphans(t: Table, tail: seq<Event>)
    requires forall i :: 0 <= i < |tail| ==> tail[i] == OrphanRow(KeyOf(tail[i]))
    ensures UpsertAll(t, tail) == WithOrphans(t, KeysOf(tail))
    decreases |tail|
  {
    if tail != [] {
      UpsertOrphans(Upsert(t, tail[0]), tail[1..]);
      OrphanFirst(t, KeyOf(tail[0]), KeysOf(tail[1..]));
      assert KeysOf(tail) == KeysOf(tail[1..]) + {KeyOf(tail[0])} by { assert tail == [tail[0]] + tail[1..]; }
    }
  }

  lemma OrphanFirst(t: Table, k: Key, s: set<Key>)
    ensures WithOrphans(Upsert(t, OrphanRow(k)), s) == WithOrphans(t, s + {k})
  {
  }

  /** However the map of tool counts is walked, the read has this effect. */
  lemma {:induction false} ReadIntoIs(sid: string, t: Table, vs: seq<Record>, events: seq<Event>)
    requires Returns(sid, vs, events)
    ensures UpsertAll(t, events) == ReadInto(sid, t, vs)
  {
    var turns := Dedup(Keyed(sid, UsageLines(vs)));
    var tail := events[|turns|..];
    assert events == turns + tail;
    UpsertAppend(t, turns, tail);
    UpsertOrphans(UpsertAll(t, turns), tail);
    TailKeys(tail, Orphans(sid, vs));
  }

  lemma TailKeys(tail: seq<Event>, orphans: set<Key>)
    requires ListsOrphans(tail, orphans)
    ensures KeysOf(tail) == orphans
  {
    forall k ensures k in KeysOf(tail) <==> k in orphans {
      if e :| e in tail && KeyOf(e) == k { TailIs(tail, orphans, e);
    }
      if k in orphans { assert KeyOf(OrphanRow(k)) == k; }
    }
  }

  // ----- many reads -----

  function Stored(sid: string, t: Table, ls: seq<Record>, history: seq<Read>, c: nat): Table
    requires Contiguous(history, c, |ls|)
    decreases |history|
  {
    if history == [] then t
    else
      var r := history[0];
      Stored(sid, ReadInto(sid, t, ls[r.from..r.upto]), ls, history[1..], Reached(c, r))
  }

  /** One read of the whole file. */
  function Straight(sid: string, ls: seq<Record>): Table { ReadInto(sid, map[], ls) }

  lemma {:induction false} StraightIsOneRead(sid: string, ls: seq<Record>)
    ensures Complete(OneRead(|ls|), |ls|)
    ensures Stored(sid, map[], ls, OneRead(|ls|), 0) == Straight(sid, ls)
  {
    OneReadIsComplete(|ls|);
    assert ls[0..|ls|] == ls;
  }

  lemma {:induction false} StoredAtCut(sid: string, ls: seq<Record>, p: nat)
    requires p <= |ls|
    ensures Complete(CutAt(|ls|, p), |ls|)
    ensures Stored(sid, map[], ls, CutAt(|ls|, p), 0) == ReadInto(sid, ReadInto(sid, map[], ls[..p]), ls[p..])
  {
    CutIsComplete(|ls|, p);
    assert ls[0..p] == ls[..p] && ls[p..|ls|] == ls[p..];
    var t := ReadInto(sid, map[], ls[..p]);
    assert Stored(sid, t, ls, [Read(p, |ls|)], p) == ReadInto(sid, t, ls[p..]);
  }

  // ----- largest rows -----

  /** One more read keeps the table of largest rows. */
  lemma {:induction false} ReadLargest(sid: string, t: Table, ls: seq<Record>, c: nat, r: Read)
    requires Steady(ls) && r.from <= c <= |ls| && r.from <= r.upto <= |ls| && LargestTable(t, RowsOf(sid, ls, 0, c))
    ensures LargestTable(ReadInto(sid, t, ls[r.from..r.upto]), RowsOf(sid, ls, 0, Reached(c, r)))
  {
    var events := SomeRead(sid, ls[r.from..r.upto]);
    ReadChosen(sid, ls, r.from, r.upto, events);
    ReadIntoIs(sid, t, ls[r.from..r.upto], events);
    forall e ensures e in RowsOf(sid, ls, 0, Reached(c, r))
      <==> e in RowsOf(sid, ls, 0, c) || e in RowsOf(sid, ls, r.from, r.upto)
    {
      RowsOfJoin(sid, ls, c, r.from, r.upto, Reached(c, r), e);
    }
    ReadKeepsLargest(t, RowsOf(sid, ls, 0, c), RowsOf(sid, ls, 0, Reached(c, r)), RowsOf(sid, ls, r.from, r.upto),
      events);
  }

  lemma {:induction false} StoredLargest(sid: string, t: Table, ls: seq<Record>, history: seq<Read>, c: nat)
    requires Steady(ls) && c <= |ls| && Contiguous(history, c, |ls|) && LargestTable(t, RowsOf(sid, ls, 0, c))
    ensures c <= Covered(history, c) <= |ls|
    ensures LargestTable(Stored(sid, t, ls, history, c), RowsOf(sid, ls, 0, Covered(history, c)))
    decreases |history|
  {
    if history != [] {
      var r := history[0];
      ReadLargest(sid, t, ls, c, r);
      StoredLargest(sid, ReadInto(sid, t, ls[r.from..r.upto]), ls, history[1..], Reached(c, r));
    }
  }

  lemma {:induction false} CompleteLargest(sid: string, ls: seq<Record>, history: seq<Read>)
    requires Steady(ls) && Complete(history, |ls|)
    ensures LargestTable(Stored(sid, map[], ls, history, 0), RowsOf(sid, ls, 0, |ls|))
  {
    StoredLargest(sid, map[], ls, history, 0);
  }

  lemma {:induction false} StraightLargest(sid: string, ls: seq<Record>)
    requires Steady(ls)
    ensures LargestTable(Straight(sid, ls), RowsOf(sid, ls, 0, |ls|))
  {
    StraightIsOneRead(sid, ls);
    CompleteLargest(sid, ls, OneRead(|ls|));
  }

  /** With steady keys, which requests are stored, and with which output, does not
      depend on how the reads were cut or how often lines were read again. */
  lemma {:induction false} OutputsIgnoreReads(sid: string, ls: seq<Record>, history: seq<Read>)
    requires Steady(ls) && Complete(history, |ls|)
    ensures var t, t' := Stored(sid, map[], ls, history, 0), Straight(sid, ls);
            t.Keys == t'.Keys && forall k :: k in t ==> t[k].output == t'[k].output
  {
    CompleteLargest(sid, ls, history);
    StraightLargest(sid, ls);
    SameOutputs(Stored(sid, map[], ls, history, 0), Straight(sid, ls), RowsOf(sid, ls, 0, |ls|));
    SameOutputs(Straight(sid, ls), Stored(sid, map[], ls, history, 0), RowsOf(sid, ls, 0, |ls|));
  }

  // ----- keys -----

  lemma {:induction false} UpsertKeys(t: Table, es: seq<Event>, k: Key)
    ensures k in UpsertAll(t, es) <==> k in t || exists i :: 0 <= i < |es| && KeyOf(es[i]) == k
    decreases |es|
  {
    if es != [] {
      UpsertKeys(Upsert(t, es[0]), es[1..], k);
      if i :| 0 <= i < |es| && KeyOf(es[i]) == k { if i > 0 { assert es[1..][i - 1] == es[i]; } }
      if i :| 0 <= i < |es[1..]| && KeyOf(es[1..][i]) == k { assert es[i + 1] == es[1..][i]; }
    }
  }

  lemma {:induction false} DedupKeys(t: Table, rows: seq<Event>, k: Key)
    ensures k in UpsertAll(t, Dedup(rows)) <==> k in t || k in AddLines(rows).calls
  {
    UpsertKeys(t, Dedup(rows), k);
    CallKeys(rows, k);
    DedupChosen(rows);
    if i :| 0 <= i < |rows| && KeyOf(rows[i]) == k { assert Dominated(rows[i], Dedup(rows)); }
    if i :| 0 <= i < |Dedup(rows)| && KeyOf(Dedup(rows)[i]) == k { assert Dedup(rows)[i] in rows; }
  }

  /** One read adds exactly the keys of its usage lines and its tool calls. */
  lemma {:induction false} ReadKeys(sid: string, t: Table, vs: seq<Record>, k: Key)
    ensures k in ReadInto(sid, t, vs) <==> k in t || k in TurnKeys(sid, vs) || k in ToolKeys(sid, vs)
  {
    DedupKeys(t, Keyed(sid, UsageLines(vs)), k);
  }

  lemma {:induction false} NotInCut(sid: string, ls: seq<Record>, p: nat, k: Key)
    requires p <= |ls|
    requires k !in TurnKeys(sid, ls[..p]) && k !in ToolKeys(sid, ls[..p])
    requires k !in TurnKeys(sid, ls[p..]) && k !in ToolKeys(sid, ls[p..])
    ensures k !in Stored(sid, map[], ls, CutAt(|ls|, p), 0)
  {
    StoredAtCut(sid, ls, p);
    ReadKeys(sid, map[], ls[..p], k);
    ReadKeys(sid, ReadInto(sid, map[], ls[..p]), ls[p..], k);
  }

  lemma SliceNamesApart(ls: seq<Record>, f: nat, u: nat)
    requires NamesApart(ls) && f <= u <= |ls|
    ensures NamesApart(ls[f..u])
  {
  }

  /** A row name is no tool key, and a tool row name is no turn's key. */
  lemma {:induction false} RowNameNoTool(sid: string, vs: seq<Record>, n: nat)
    requires NamesApart(vs)
    ensures Key("anthropic", sid, RowName(n)) !in ToolKeys(sid, vs)
  {
    var k := Key("anthropic", sid, RowName(n));
    ToolKeysAre(sid, vs, k);
    RowNameLooks(n);
    forall i: nat ensures ToolRowName(i) != RowName(n) { ToolRowNames(i, n); }
  }

  lemma ToolNameNoTurn(sid: string, vs: seq<Record>, n: nat)
    requires NamesApart(vs)
    ensures Key("anthropic", sid, ToolRowName(n)) !in TurnKeys(sid, vs)
  {
    var us, k := UsageLines(vs), Key("anthropic", sid, ToolRowName(n));
    CallKeys(Keyed(sid, us), k);
    if j :| 0 <= j < |us| && KeyOf(Keyed(sid, us)[j]) == k {
      assert vs[..|vs|] == vs;
      var i := UsageFrom(vs, j, |vs|);
      TurnRequest(sid, vs, i);
      ToolRowNames(n, CountAt(sid, us, j));
    }
  }

  /** Cut in front of its last usage line without an id, a transcript loses the
      key that one read gives that line ... */
  lemma CutLosesTurnKey(sid: string, ls: seq<Record>, m: nat) returns (p: nat, k: Key)
    requires NamesApart(ls) && 0 < m < |UsageLines(ls)| && UsageLines(ls)[m].id.None?
    requires forall i :: m < i < |UsageLines(ls)| ==> UsageLines(ls)[i].id.Some?
    ensures p <= |ls| && k in Straight(sid, ls) && Complete(CutAt(|ls|, p), |ls|)
    ensures k !in Stored(sid, map[], ls, CutAt(|ls|, p), 0)
  {
    var us := UsageLines(ls);
    assert ls[..|ls|] == ls;
    p := UsageFrom(ls, m, |ls|);
    k := KeyOf(Keyed(sid, us)[m]);
    KeyedAt(sid, us, m);
    CallKeys(Keyed(sid, us), k);
    ReadKeys(sid, map[], ls, k);
    UsageSplit(ls, p);
    assert us[..m] == UsageLines(ls[..p]) && us[m..] == UsageLines(ls[p..]);
    UsageNames(ls);
    NotBefore(sid, us, m, k);
    NotAfter(sid, us, m, k);
    CallKeys(Keyed(sid, us[..m]), k);
    CallKeys(Keyed(sid, us[m..]), k);
    NoToolInParts(sid, ls, p, CountAt(sid, us, m));
    StoredAtCut(sid, ls, p);
    NotInCut(sid, ls, p, k);
  }

  lemma {:induction false} NoToolInParts(sid: string, ls: seq<Record>, p: nat, n: nat)
    requires NamesApart(ls) && p <= |ls|
    ensures Key("anthropic", sid, RowName(n)) !in ToolKeys(sid, ls[..p])
    ensures Key("anthropic", sid, RowName(n)) !in ToolKeys(sid, ls[p..])
  {
    SliceNamesApart(ls, 0, p);
    SliceNamesApart(ls, p, |ls|);
    assert ls[0..p] == ls[..p] && ls[p..|ls|] == ls[p..];
    RowNameNoTool(sid, ls[..p], n);
    RowNameNoTool(sid, ls[p..], n);
  }

  lemma NoTurnInParts(sid: string, ls: seq<Record>, p: nat, n: nat)
    requires NamesApart(ls) && p <= |ls|
    ensures Key("anthropic", sid, ToolRowName(n)) !in TurnKeys(sid, ls[..p])
    ensures Key("anthropic", sid, ToolRowName(n)) !in TurnKeys(sid, ls[p..])
  {
    SliceNamesApart(ls, 0, p);
    SliceNamesApart(ls, p, |ls|);
    assert ls[0..p] == ls[..p] && ls[p..|ls|] == ls[p..];
    ToolNameNoTurn(sid, ls[..p], n);
    ToolNameNoTurn(sid, ls[p..], n);
  }

  /** ... and so it does cut in front of its last line with tool calls and no id. */
  lemma CutLosesToolKey(sid: string, ls: seq<Record>, p: nat) returns (k: Key)
    requires NamesApart(ls) && 0 < p < |ls| && ls[p].tools && ls[p].id.None?
    requires forall i :: p < i < |ls| && ls[i].tools ==> ls[i].id.Some?
    ensures k in Straight(sid, ls) && Complete(CutAt(|ls|, p), |ls|)
    ensures k !in Stored(sid, map[], ls, CutAt(|ls|, p), 0)
  {
    k := ToolKey(sid, ls[p], p);
    ToolKeysAre(sid, ls, k);
    ReadKeys(sid, map[], ls, k);
    NoTurnInParts(sid, ls, p, p);
    NotEarlierTool(sid, ls, p, k);
    NotLaterTool(sid, ls, p, k);
    StoredAtCut(sid, ls, p);
    NotInCut(sid, ls, p, k);
  }

  lemma {:induction false} NotEarlierTool(sid: string, ls: seq<Record>, p: nat, k: Key)
    requires NamesApart(ls) && p < |ls| && k == Key("anthropic", sid, ToolRowName(p))
    ensures k !in ToolKeys(sid, ls[..p])
  {
    ToolKeysAre(sid, ls[..p], k);
    ToolRowNames(p, 0);
    forall i: nat ensures ToolRowName(i) == ToolRowName(p) ==> i == p { ToolRowNames(i, p); }
  }

  lemma {:induction false} NotLaterTool(sid: string, ls: seq<Record>, p: nat, k: Key)
    requires NamesApart(ls) && 0 < p < |ls| && k == Key("anthropic", sid, ToolRowName(p))
    requires forall i :: p < i < |ls| && ls[i].tools ==> ls[i].id.Some?
    ensures k !in ToolKeys(sid, ls[p..])
  {
    ToolKeysAre(sid, ls[p..], k);
    ToolRowNames(p, 0);
    assert forall i :: 0 <= i < |ls[p..]| ==> ls[p..][i] == ls[p + i];
    forall i: nat ensures ToolRowName(i) == ToolRowName(p) ==> i == p { ToolRowNames(i, p); }
  }

  lemma {:induction false} LastToolWithoutId(ls: seq<Record>, n: nat) returns (p: nat)
    requires n <= |ls| && (exists i :: 0 < i < n && ls[i].tools && ls[i].id.None?)
    requires forall i :: n <= i < |ls| && ls[i].tools ==> ls[i].id.Some?
    ensures 0 < p < |ls| && ls[p].tools && ls[p].id.None?
    ensures forall i :: p < i < |ls| && ls[i].tools ==> ls[i].id.Some?
  {
    if ls[n - 1].tools && ls[n - 1].id.None? { p := n - 1; } else { p := LastToolWithoutId(ls, n - 1); }
  }

  /** The keys stored do not depend on the reads if and only if no usage line
      behind the first, and no line with tool calls behind the transcript's first
      line, lacks an id. */
  lemma {:induction false} KeysIgnoreReadsIff(sid: string, ls: seq<Record>)
    requires NamesApart(ls)
    ensures (forall history :: Complete(history, |ls|) ==>
               Stored(sid, map[], ls, history, 0).Keys == Straight(sid, ls).Keys)
      <==> Steady(ls)
  {
    if Steady(ls) {
      forall history | Complete(history, |ls|)
        ensures Stored(sid, map[], ls, history, 0).Keys == Straight(sid, ls).Keys
      {
        OutputsIgnoreReads(sid, ls, history);
      }
    } else {
      var p, k := UnsteadyShows(sid, ls);
    }
  }

  lemma UnsteadyShows(sid: string, ls: seq<Record>) returns (p: nat, k: Key)
    requires NamesApart(ls) && !Steady(ls)
    ensures p <= |ls| && Complete(CutAt(|ls|, p), |ls|)
    ensures k in Straight(sid, ls).Keys && k !in Stored(sid, map[], ls, CutAt(|ls|, p), 0).Keys
  {
    if ToolsIdentified(ls) {
      var m := LastUnidentified(UsageLines(ls), |UsageLines(ls)|);
      p, k := CutLosesTurnKey(sid, ls, m);
    } else {
      p := LastToolWithoutId(ls, |ls|);
      k := CutLosesToolKey(sid, ls, p);
    }
  }

  // ----- rows -----

  /** Line i carries tool calls of a request whose usage comes later, first in
      line j, and never counts any output. */
  predicate Shadows(ls: seq<Record>, i: nat, j: nat) {
    && i < j < |ls| && ls[i].id.Some? && ls[j].id == ls[i].id
    && ls[i].tools && !Counts(ls[i]) && Counts(ls[j])
    && (forall h :: 0 <= h < |ls| && Counts(ls[h]) && ls[h].id == ls[j].id ==> j <= h && ls[h].usage.value.output == 0)
  }

  /** No request without output has a line with tool calls before its usage. */
  predicate NothingShadowed(ls: seq<Record>) {
    forall i: nat, j: nat :: i < j < |ls| ==> !Shadows(ls, i, j)
  }

  predicate NoOutput(ls: seq<Record>, id: Option<string>) {
    forall h :: 0 <= h < |ls| && Counts(ls[h]) && ls[h].id == id ==> ls[h].usage.value.output == 0
  }

  /** The key of usage line i. */
  function KeyAt(sid: string, ls: seq<Record>, i: nat): Key
    requires i < |ls| && Counts(ls[i])
  {
    KeyOf(TurnAt(sid, ls, i))
  }

  lemma SteadyKey(sid: string, ls: seq<Record>, i: nat)
    requires Steady(ls) && i < |ls| && Counts(ls[i])
    ensures KeyAt(sid, ls, i) == Key("anthropic", sid, if ls[i].id.Some? then ls[i].id.value else RowName(0))
    ensures ls[i].id.None? ==> Before(ls, i) == 0
  {
    TurnRequest(sid, ls, i);
    UsageAt(ls, i);
    assert UsageLines(ls)[..0] == [];
  }

  lemma SameKeySameId(sid: string, ls: seq<Record>, i: nat, j: nat)
    requires Steady(ls) && NamesApart(ls) && i < |ls| && j < |ls| && Counts(ls[i]) && Counts(ls[j])
    ensures KeyAt(sid, ls, i) == KeyAt(sid, ls, j) <==> ls[i].id == ls[j].id
  {
    SteadyKey(sid, ls, i);
    SteadyKey(sid, ls, j);
    RowNameLooks(0);
  }

  /** A tool key is a turn's key only through the request's own id. */
  lemma ToolKeySameId(sid: string, ls: seq<Record>, h: nat, i: nat)
    requires Steady(ls) && NamesApart(ls) && h < |ls| && i < |ls| && Counts(ls[i])
    ensures ToolKey(sid, ls[h], h) == KeyAt(sid, ls, i) <==> ls[h].id.Some? && ls[h].id == ls[i].id
  {
    SteadyKey(sid, ls, i);
    RowNameLooks(0);
    ToolRowNames(h, 0);
  }

  lemma ZeroRow(sid: string, ls: seq<Record>, i: nat, h: nat, e: Event)
    requires Steady(ls) && NamesApart(ls) && i < |ls| && h < |ls| && Counts(ls[i]) && NoOutput(ls, ls[i].id)
    requires e in LineRows(sid, ls, h) && KeyOf(e) == KeyAt(sid, ls, i)
    ensures e.output == 0
  {
    if Counts(ls[h]) && e == TurnAt(sid, ls, h) {
      SameKeySameId(sid, ls, h, i);
      TurnRequest(sid, ls, h);
    }
  }

  /** A read that brings nothing larger leaves the row of k alone. */
  lemma {:induction false} ReadLeaves(sid: string, t: Table, ls: seq<Record>, f: nat, u: nat, k: Key)
    requires Steady(ls) && f <= u <= |ls| && k in t
    requires forall e :: e in RowsOf(sid, ls, f, u) && KeyOf(e) == k ==> e.output <= t[k].output
    ensures k in ReadInto(sid, t, ls[f..u]) && ReadInto(sid, t, ls[f..u])[k] == t[k]
  {
    var events := SomeRead(sid, ls[f..u]);
    ReadChosen(sid, ls, f, u, events);
    ReadIntoIs(sid, t, ls[f..u], events);
    UpsertKeeps(t, events, k);
  }

  lemma {:induction false} ZeroRowsOf(sid: string, ls: seq<Record>, i: nat, f: nat, u: nat, e: Event)
    requires Steady(ls) && NamesApart(ls) && i < |ls| && Counts(ls[i]) && NoOutput(ls, ls[i].id)
    requires f <= u <= |ls| && e in RowsOf(sid, ls, f, u) && KeyOf(e) == KeyAt(sid, ls, i)
    ensures e.output == 0
  {
    RowsOfLines(sid, ls, f, u, e);
    var h: nat :| f <= h < u && InLine(sid, ls, h, e);
    ZeroRow(sid, ls, i, h, e);
  }

  /** k is stored as a turn, not as an orphan. */
  predicate HoldsTurn(t: Table, k: Key) { k in t && t[k].model != "" }

  lemma {:induction false} TurnStays(sid: string, t: Table, ls: seq<Record>, c: nat, f: nat, u: nat, i: nat)
    requires Steady(ls) && NamesApart(ls) && i < |ls| && Counts(ls[i]) && NoOutput(ls, ls[i].id)
    requires f <= u <= |ls| && c <= |ls| && LargestTable(t, RowsOf(sid, ls, 0, c)) && HoldsTurn(t, KeyAt(sid, ls, i))
    ensures HoldsTurn(ReadInto(sid, t, ls[f..u]), KeyAt(sid, ls, i))
  {
    var k := KeyAt(sid, ls, i);
    assert IsLargest(RowsOf(sid, ls, 0, c), k, t[k]);
    ZeroRowsOf(sid, ls, i, 0, c, t[k]);
    forall e | e in RowsOf(sid, ls, f, u) && KeyOf(e) == k ensures e.output <= t[k].output {
      ZeroRowsOf(sid, ls, i, f, u, e);
    }
    ReadLeaves(sid, t, ls, f, u, k);
  }

  /** A read that meets a usage line of a new key stores a turn. */
  lemma NewTurn(sid: string, t: Table, ls: seq<Record>, f: nat, u: nat, i: nat)
    requires Steady(ls) && f <= i < u <= |ls| && Counts(ls[i]) && KeyAt(sid, ls, i) !in t
    ensures HoldsTurn(ReadInto(sid, t, ls[f..u]), KeyAt(sid, ls, i))
  {
    var k, vs := KeyAt(sid, ls, i), ls[f..u];
    var events := SomeRead(sid, vs);
    ReadIntoIs(sid, t, vs, events);
    InTurnKeys(sid, ls, f, u, i);
    ReadKeys(sid, t, vs, k);
    UpsertOrigin(t, events, k);
    var e := UpsertAll(t, events)[k];
    ReturnedIs(sid, vs, events, e);
    SliceTurns(sid, ls, f, u, e);
    var h :| f <= h < u && Counts(ls[h]) && e == TurnAt(sid, ls, h);
    TurnRequest(sid, ls, h);
  }

  lemma InTurnKeys(sid: string, ls: seq<Record>, f: nat, u: nat, i: nat)
    requires Steady(ls) && f <= i < u <= |ls| && Counts(ls[i])
    ensures KeyAt(sid, ls, i) in TurnKeys(sid, ls[f..u])
  {
    var rows := Keyed(sid, UsageLines(ls[f..u]));
    SliceTurns(sid, ls, f, u, TurnAt(sid, ls, i));
    var j :| 0 <= j < |rows| && rows[j] == TurnAt(sid, ls, i);
    CallKeys(rows, KeyAt(sid, ls, i));
  }

  lemma {:induction false} FirstUsage(ls: seq<Record>, id: Option<string>, n: nat) returns (j: nat)
    requires n < |ls| && Counts(ls[n]) && ls[n].id == id
    ensures j <= n && Counts(ls[j]) && ls[j].id == id
    ensures forall h :: 0 <= h < |ls| && Counts(ls[h]) && ls[h].id == id ==> j <= h
    decreases n
  {
    if h :| 0 <= h < n && Counts(ls[h]) && ls[h].id == id { j := FirstUsage(ls, id, h); } else { j := n; }
  }

  /** Before its first usage line, the key of an unshadowed request is not stored. */
  lemma {:induction false} NotYetStored(sid: string, t: Table, ls: seq<Record>, c: nat, i: nat)
    requires Steady(ls) && NamesApart(ls) && NothingShadowed(ls)
    requires c <= i < |ls| && Counts(ls[i]) && NoOutput(ls, ls[i].id) && LargestTable(t, RowsOf(sid, ls, 0, c))
    requires forall h :: 0 <= h < c && Counts(ls[h]) ==> ls[h].id != ls[i].id
    ensures KeyAt(sid, ls, i) !in t
  {
    var k := KeyAt(sid, ls, i);
    if k in t {
      assert IsLargest(RowsOf(sid, ls, 0, c), k, t[k]);
      RowsOfLines(sid, ls, 0, c, t[k]);
      var h: nat :| 0 <= h < c && InLine(sid, ls, h, t[k]);
      if Counts(ls[h]) { SameKeySameId(sid, ls, h, i); }
      ToolKeySameId(sid, ls, h, i);
      var j := FirstUsage(ls, ls[i].id, i);
      assert Shadows(ls, h, j);
    }
  }

  /** Every request without output whose usage was read is stored as a turn. */
  ghost predicate TurnsHeld(sid: string, t: Table, ls: seq<Record>, c: nat)
    requires c <= |ls|
  {
    forall i :: 0 <= i < c && Counts(ls[i]) && NoOutput(ls, ls[i].id) ==> HoldsTurn(t, KeyAt(sid, ls, i))
  }

  lemma {:induction false} ReadHoldsTurns(sid: string, t: Table, ls: seq<Record>, c: nat, r: Read)
    requires Steady(ls) && NamesApart(ls) && NothingShadowed(ls)
    requires r.from <= c <= |ls| && r.from <= r.upto <= |ls| && LargestTable(t, RowsOf(sid, ls, 0, c))
        && TurnsHeld(sid, t, ls, c)
    ensures TurnsHeld(sid, ReadInto(sid, t, ls[r.from..r.upto]), ls, Reached(c, r))
  {
    forall i | 0 <= i < Reached(c, r) && Counts(ls[i]) && NoOutput(ls, ls[i].id)
      ensures HoldsTurn(ReadInto(sid, t, ls[r.from..r.upto]), KeyAt(sid, ls, i))
    {
      if h :| 0 <= h < c && Counts(ls[h]) && ls[h].id == ls[i].id {
        SameKeySameId(sid, ls, h, i);
        TurnStays(sid, t, ls, c, r.from, r.upto, i);
      } else {
        NotYetStored(sid, t, ls, c, i);
        NewTurn(sid, t, ls, r.from, r.upto, i);
      }
    }
  }

  lemma {:induction false} StoredHoldsTurns(sid: string, t: Table, ls: seq<Record>, history: seq<Read>, c: nat)
    requires Steady(ls) && NamesApart(ls) && NothingShadowed(ls)
    requires c <= |ls| && Contiguous(history, c, |ls|) && LargestTable(t, RowsOf(sid, ls, 0, c))
        && TurnsHeld(sid, t, ls, c)
    ensures c <= Covered(history, c) <= |ls|
    ensures TurnsHeld(sid, Stored(sid, t, ls, history, c), ls, Covered(history, c))
    decreases |history|
  {
    if history != [] {
      var r := history[0];
      ReadLargest(sid, t, ls, c, r);
      ReadHoldsTurns(sid, t, ls, c, r);
      StoredHoldsTurns(sid, ReadInto(sid, t, ls[r.from..r.upto]), ls, history[1..], Reached(c, r));
    }
  }

  /** A transcript's turns with the keys a read from the start gives them. */
  function AllTurns(sid: string, ls: seq<Record>): seq<Event> { Keyed(sid, UsageLines(ls)) }

  lemma TurnOfAll(sid: string, ls: seq<Record>, e: Event) returns (i: nat)
    requires e in AllTurns(sid, ls)
    ensures i < |ls| && Counts(ls[i]) && e == TurnAt(sid, ls, i) && e in RowsOf(sid, ls, 0, |ls|)
  {
    var m :| 0 <= m < |AllTurns(sid, ls)| && AllTurns(sid, ls)[m] == e;
    assert ls[..|ls|] == ls;
    i := UsageFrom(ls, m, |ls|);
    assert InLine(sid, ls, i, e);
    RowsOfLines(sid, ls, 0, |ls|, e);
  }

  /** A largest row that is a turn is a largest turn. */
  lemma {:induction false} LargestTurn(sid: string, ls: seq<Record>, k: Key, e: Event)
    requires IsLargest(RowsOf(sid, ls, 0, |ls|), k, e) && e.model != ""
    ensures IsLargest(AllTurns(sid, ls), k, e)
  {
    var turns, rows := AllTurns(sid, ls), RowsOf(sid, ls, 0, |ls|);
    RowsOfLines(sid, ls, 0, |ls|, e);
    var i: nat :| 0 <= i < |ls| && InLine(sid, ls, i, e);
    UsageAt(ls, i);
    assert turns[Before(ls, i)] == e;
    forall j | 0 <= j < |turns| && KeyOf(turns[j]) == k ensures turns[j].output <= e.output {
      assert turns[j] in turns;
      var h := TurnOfAll(sid, ls, turns[j]);
    }
  }

  /** In the end a request with a usage line is stored as a turn. */
  lemma {:induction false} TurnInTheEnd(sid: string, t: Table, ls: seq<Record>, i: nat)
    requires Steady(ls) && NamesApart(ls) && i < |ls| && Counts(ls[i])
    requires LargestTable(t, RowsOf(sid, ls, 0, |ls|)) && TurnsHeld(sid, t, ls, |ls|)
    ensures HoldsTurn(t, KeyAt(sid, ls, i))
  {
    if !NoOutput(ls, ls[i].id) {
      var h :| 0 <= h < |ls| && Counts(ls[h]) && ls[h].id == ls[i].id && ls[h].usage.value.output != 0;
      SameKeySameId(sid, ls, h, i);
      OutputMakesTurn(sid, t, ls, h);
    }
  }

  lemma HeldLargest(t: Table, rows: seq<Event>, e: Event)
    requires LargestTable(t, rows) && e in rows
    ensures KeyOf(e) in t && t[KeyOf(e)].output >= e.output && t[KeyOf(e)] in rows
  {
    var j :| 0 <= j < |rows| && rows[j] == e;
    assert KeyOf(rows[j]) in t && IsLargest(rows, KeyOf(e), t[KeyOf(e)]);
  }

  lemma {:induction false} OutputMakesTurn(sid: string, t: Table, ls: seq<Record>, h: nat)
    requires h < |ls| && Counts(ls[h]) && ls[h].usage.value.output > 0 && LargestTable(t, RowsOf(sid, ls, 0, |ls|))
    ensures HoldsTurn(t, KeyAt(sid, ls, h))
  {
    var rows, e := RowsOf(sid, ls, 0, |ls|), TurnAt(sid, ls, h);
    TurnRequest(sid, ls, h);
    assert InLine(sid, ls, h, e);
    RowsOfLines(sid, ls, 0, |ls|, e);
    HeldLargest(t, rows, e);
    OutputIsTurn(sid, ls, t[KeyOf(e)]);
  }

  lemma {:induction false} OutputIsTurn(sid: string, ls: seq<Record>, e: Event)
    requires e in RowsOf(sid, ls, 0, |ls|) && e.output > 0
    ensures e.model != ""
  {
    RowsOfLines(sid, ls, 0, |ls|, e);
    var i: nat :| 0 <= i < |ls| && InLine(sid, ls, i, e);
    if Counts(ls[i]) { TurnRequest(sid, ls, i); }
  }

  lemma {:induction false} SameRow(sid: string, t: Table, t': Table, ls: seq<Record>, k: Key)
    requires Steady(ls) && NamesApart(ls) && TieFree(AllTurns(sid, ls)) && k in t && k in t'
    requires LargestTable(t, RowsOf(sid, ls, 0, |ls|)) && TurnsHeld(sid, t, ls, |ls|)
    requires LargestTable(t', RowsOf(sid, ls, 0, |ls|)) && TurnsHeld(sid, t', ls, |ls|)
    ensures t[k] == t'[k]
  {
    if i :| 0 <= i < |ls| && Counts(ls[i]) && KeyAt(sid, ls, i) == k {
      TurnInTheEnd(sid, t, ls, i);
      TurnInTheEnd(sid, t', ls, i);
      LargestTurn(sid, ls, k, t[k]);
      LargestTurn(sid, ls, k, t'[k]);
    } else {
      OnlyOrphan(sid, ls, k, t[k]);
      OnlyOrphan(sid, ls, k, t'[k]);
    }
  }

  lemma {:induction false} OnlyOrphan(sid: string, ls: seq<Record>, k: Key, e: Event)
    requires e in RowsOf(sid, ls, 0, |ls|) && KeyOf(e) == k
    requires forall i :: 0 <= i < |ls| && Counts(ls[i]) ==> KeyAt(sid, ls, i) != k
    ensures e == OrphanRow(k)
  {
    RowsOfLines(sid, ls, 0, |ls|, e);
  }

  lemma {:induction false} EndOfReads(sid: string, ls: seq<Record>, history: seq<Read>)
    requires Steady(ls) && NamesApart(ls) && NothingShadowed(ls) && Complete(history, |ls|)
    ensures LargestTable(Stored(sid, map[], ls, history, 0), RowsOf(sid, ls, 0, |ls|))
    ensures TurnsHeld(sid, Stored(sid, map[], ls, history, 0), ls, |ls|)
  {
    CompleteLargest(sid, ls, history);
    StoredHoldsTurns(sid, map[], ls, history, 0);
  }

  lemma {:induction false} SameRows(sid: string, t: Table, t': Table, ls: seq<Record>)
    requires Steady(ls) && NamesApart(ls) && TieFree(AllTurns(sid, ls)) && t.Keys == t'.Keys
    requires LargestTable(t, RowsOf(sid, ls, 0, |ls|)) && TurnsHeld(sid, t, ls, |ls|)
    requires LargestTable(t', RowsOf(sid, ls, 0, |ls|)) && TurnsHeld(sid, t', ls, |ls|)
    ensures t == t'
  {
    forall k | k in t ensures t[k] == t'[k] { SameRow(sid, t, t', ls, k); }
  }

  lemma {:induction false} RowsKept(sid: string, ls: seq<Record>, history: seq<Read>)
    requires Steady(ls) && NamesApart(ls) && TieFree(AllTurns(sid, ls)) && NothingShadowed(ls)
        && Complete(history, |ls|)
    ensures Stored(sid, map[], ls, history, 0) == Straight(sid, ls)
  {
    OutputsIgnoreReads(sid, ls, history);
    StraightIsOneRead(sid, ls);
    EndOfReads(sid, ls, history);
    EndOfReads(sid, ls, OneRead(|ls|));
    SameRows(sid, Stored(sid, map[], ls, history, 0), Straight(sid, ls), ls);
  }

  /** Once stored as an orphan, a request without output stays one. */
  lemma {:induction false} OrphanStays(sid: string, t: Table, ls: seq<Record>, history: seq<Read>, c: nat, j: nat)
    requires Steady(ls) && NamesApart(ls) && j < |ls| && Counts(ls[j]) && NoOutput(ls, ls[j].id)
    requires c <= |ls| && Contiguous(history, c, |ls|) && KeyAt(sid, ls, j) in t
    requires t[KeyAt(sid, ls, j)] == OrphanRow(KeyAt(sid, ls, j))
    ensures KeyAt(sid, ls, j) in Stored(sid, t, ls, history, c)
    ensures Stored(sid, t, ls, history, c)[KeyAt(sid, ls, j)] == OrphanRow(KeyAt(sid, ls, j))
    decreases |history|
  {
    if history != [] {
      var k, r := KeyAt(sid, ls, j), history[0];
      forall e | e in RowsOf(sid, ls, r.from, r.upto) && KeyOf(e) == k ensures e.output <= t[k].output {
        ZeroRowsOf(sid, ls, j, r.from, r.upto, e);
      }
      ReadLeaves(sid, t, ls, r.from, r.upto, k);
      OrphanStays(sid, ReadInto(sid, t, ls[r.from..r.upto]), ls, history[1..], Reached(c, r), j);
    }
  }

  /** A shadowed turn is lost once a read ends behind the line with the tool
      calls, however often the file is read after that. */
  lemma ShadowedIsLost(sid: string, ls: seq<Record>, i: nat, j: nat, more: seq<Read>)
    requires Steady(ls) && NamesApart(ls) && Shadows(ls, i, j) && Contiguous(more, i + 1, |ls|)
    ensures var history := [Read(0, i + 1)] + more; var k := KeyAt(sid, ls, j);
            && Contiguous(history, 0, |ls|)
            && k in Stored(sid, map[], ls, history, 0) && Stored(sid, map[], ls, history, 0)[k] == OrphanRow(k)
  {
    var history, t := [Read(0, i + 1)] + more, ReadInto(sid, map[], ls[0..i + 1]);
    assert ls[0..i + 1] == ls[..i + 1];
    assert history[1..] == more && Reached(0, history[0]) == i + 1;
    OrphanFirstStored(sid, ls, i, j);
    OrphanStays(sid, t, ls, more, i + 1, j);
  }

  /** One read stores it. */
  lemma StraightHoldsTurn(sid: string, ls: seq<Record>, j: nat)
    requires Steady(ls) && j < |ls| && Counts(ls[j])
    ensures HoldsTurn(Straight(sid, ls), KeyAt(sid, ls, j))
  {
    NewTurn(sid, map[], ls, 0, |ls|, j);
    assert ls[0..|ls|] == ls;
  }

  lemma OrphanFirstStored(sid: string, ls: seq<Record>, i: nat, j: nat)
    requires Steady(ls) && NamesApart(ls) && Shadows(ls, i, j)
    ensures var k, t := KeyAt(sid, ls, j), ReadInto(sid, map[], ls[..i + 1]); k in t && t[k] == OrphanRow(k)
  {
    var k, vs := KeyAt(sid, ls, j), ls[0..i + 1];
    assert vs == ls[..i + 1];
    ToolKeySameId(sid, ls, i, j);
    SliceToolKeys(sid, ls, 0, i + 1, k);
    CallKeys(Keyed(sid, UsageLines(vs)), k);
    if m :| 0 <= m < |Keyed(sid, UsageLines(vs))| && KeyOf(Keyed(sid, UsageLines(vs))[m]) == k {
      SliceTurns(sid, ls, 0, i + 1, Keyed(sid, UsageLines(vs))[m]);
      var h :| 0 <= h < i + 1 && Counts(ls[h]) && Keyed(sid, UsageLines(vs))[m] == TurnAt(sid, ls, h);
      SameKeySameId(sid, ls, h, j);
    }
    DedupKeys(map[], Keyed(sid, UsageLines(vs)), k);
  }

  /** A tie shows when the file is cut behind the line that one read does not store. */
  lemma TieShown(sid: string, ls: seq<Record>, k: Key, e: Event) returns (p: nat)
    requires Steady(ls) && IsLargest(AllTurns(sid, ls), k, e)
    ensures p <= |ls| && Complete(CutAt(|ls|, p), |ls|)
    ensures k in Stored(sid, map[], ls, CutAt(|ls|, p), 0) && Stored(sid, map[], ls, CutAt(|ls|, p), 0)[k] == e
  {
    var i := TurnOfAll(sid, ls, e);
    p := i + 1;
    LastTurnStored(sid, ls, k, i);
    var t := ReadInto(sid, map[], ls[..p]);
    assert ls[p..|ls|] == ls[p..];
    forall d | d in RowsOf(sid, ls, p, |ls|) && KeyOf(d) == k ensures d.output <= e.output {
      NoLargerRow(sid, ls, k, e, p, d);
    }
    ReadLeaves(sid, t, ls, p, |ls|, k);
    StoredAtCut(sid, ls, p);
  }

  lemma {:induction false} NoLargerRow(sid: string, ls: seq<Record>, k: Key, e: Event, p: nat, d: Event)
    requires IsLargest(AllTurns(sid, ls), k, e) && p <= |ls| && d in RowsOf(sid, ls, p, |ls|) && KeyOf(d) == k
    ensures d.output <= e.output
  {
    TurnsNonnegative(sid, UsageLines(ls), e);
    RowsOfLines(sid, ls, p, |ls|, d);
    var h: nat :| p <= h < |ls| && InLine(sid, ls, h, d);
    if Counts(ls[h]) && d == TurnAt(sid, ls, h) {
      UsageAt(ls, h);
      assert AllTurns(sid, ls)[Before(ls, h)] == d;
    }
  }

  /** A read that ends at a largest turn stores it. */
  lemma LastTurnStored(sid: string, ls: seq<Record>, k: Key, i: nat)
    requires Steady(ls) && i < |ls| && Counts(ls[i]) && IsLargest(AllTurns(sid, ls), k, TurnAt(sid, ls, i))
    ensures var t := ReadInto(sid, map[], ls[..i + 1]); k in t && t[k] == TurnAt(sid, ls, i)
  {
    var turns, m, vs := AllTurns(sid, ls), Before(ls, i), ls[0..i + 1];
    assert vs == ls[..i + 1];
    UsageAt(ls, i);
    SliceKeyed(sid, ls, 0, i + 1);
    assert UsageLines(ls[..0]) == [];
    assert Keyed(sid, UsageLines(vs)) == turns[..m + 1] == turns[..m] + [turns[m]];
    LastLineWins(turns[..m], turns[m]);
    InTurnKeys(sid, ls, 0, i + 1, i);
  }

  /** The stored rows, in the columns modelled, do not depend on the reads if and
      only if, besides, no request has two different usage lines that share its
      largest output, and no request without output has a line with tool calls
      before its usage. */
  lemma {:induction false} RowsIgnoreReadsIff(sid: string, ls: seq<Record>)
    requires NamesApart(ls)
    ensures (forall history :: Complete(history, |ls|) ==> Stored(sid, map[], ls, history, 0) == Straight(sid, ls))
      <==> Steady(ls) && TieFree(AllTurns(sid, ls)) && NothingShadowed(ls)
  {
    if Steady(ls) && TieFree(AllTurns(sid, ls)) && NothingShadowed(ls) {
      forall history | Complete(history, |ls|) ensures Stored(sid, map[], ls, history, 0) == Straight(sid, ls) {
        RowsKept(sid, ls, history);
      }
    } else {
      var p := DependenceShows(sid, ls);
    }
  }

  lemma DependenceShows(sid: string, ls: seq<Record>) returns (p: nat)
    requires NamesApart(ls) && !(Steady(ls) && TieFree(AllTurns(sid, ls)) && NothingShadowed(ls))
    ensures p <= |ls| && Complete(CutAt(|ls|, p), |ls|)
    ensures Stored(sid, map[], ls, CutAt(|ls|, p), 0) != Straight(sid, ls)
  {
    var k: Key;
    if !Steady(ls) {
      p, k := UnsteadyShows(sid, ls);
    } else if !NothingShadowed(ls) {
      var i: nat, j: nat :| i < j < |ls| && Shadows(ls, i, j);
      p := i + 1;
      CutIsComplete(|ls|, p);
      ShadowedIsLost(sid, ls, i, j, [Read(p, |ls|)]);
      StraightHoldsTurn(sid, ls, j);
    } else {
      var e, e';
      k, e, e' :| IsLargest(AllTurns(sid, ls), k, e) && IsLargest(AllTurns(sid, ls), k, e') && e != e';
      p := TieShown(sid, ls, k, if k in Straight(sid, ls) && Straight(sid, ls)[k] == e then e' else e);
    }
  }

  // ----- a turn that is lost for good -----

  /** Two lines of one request: its tool call, then its usage without output. */
  const LATE_USAGE: seq<Record> := [
    Record(Some("r"), true, None), Record(Some("r"), false, Some(Call(1, "opus", 1000, 0, 0, 0)))]

  lemma LateUsageLines()
    ensures UsageLines(LATE_USAGE) == [TurnOf(LATE_USAGE[1])] && Before(LATE_USAGE, 1) == 0
    ensures NamesApart(LATE_USAGE) && Steady(LATE_USAGE) && Shadows(LATE_USAGE, 0, 1)
  {
    assert LATE_USAGE[..1][..0] == [] && LATE_USAGE[..1] == [LATE_USAGE[0]];
    UsageNext(LATE_USAGE, 0);
    UsageNext(LATE_USAGE, 1);
    assert LATE_USAGE[..2] == LATE_USAGE;
  }

  /** One read stores the turn with its 1000 tokens.  Once a read has ended
      between the lines it is never stored, however often the file is read. */
  lemma {:induction false} LateUsageIsLost(sid: string, more: seq<Read>)
    requires Contiguous(more, 1, 2)
    ensures Steady(LATE_USAGE) && NamesApart(LATE_USAGE) && TieFree(AllTurns(sid, LATE_USAGE))
    ensures var k := Key("anthropic", sid, "r");
            && HoldsTurn(Straight(sid, LATE_USAGE), k) && Straight(sid, LATE_USAGE)[k].Tokens() == 1000
            && Contiguous([Read(0, 1)] + more, 0, 2)
            && k in Stored(sid, map[], LATE_USAGE, [Read(0, 1)] + more, 0)
            && !Stored(sid, map[], LATE_USAGE, [Read(0, 1)] + more, 0)[k].IsTurn()
  {
    LateUsageLines();
    SteadyKey(sid, LATE_USAGE, 1);
    ShadowedIsLost(sid, LATE_USAGE, 0, 1, more);
    StraightHoldsTurn(sid, LATE_USAGE, 1);
    OneTurn(sid, LATE_USAGE, 1);
  }

  /** With one usage line, one read stores its turn. */
  lemma {:induction false} OneTurn(sid: string, ls: seq<Record>, j: nat)
    requires Steady(ls) && j < |ls| && Counts(ls[j]) && UsageLines(ls) == [TurnOf(ls[j])]
    ensures TieFree(AllTurns(sid, ls))
    ensures KeyAt(sid, ls, j) in Straight(sid, ls)
        && Straight(sid, ls)[KeyAt(sid, ls, j)] == Filled(sid, TurnOf(ls[j]), 0)
  {
    var turns, k := AllTurns(sid, ls), KeyAt(sid, ls, j);
    UsageAt(ls, j);
    KeyedAt(sid, UsageLines(ls), 0);
    assert turns == [Filled(sid, TurnOf(ls[j]), 0)];
    StraightHoldsTurn(sid, ls, j);
    StraightLargest(sid, ls);
    assert IsLargest(RowsOf(sid, ls, 0, |ls|), k, Straight(sid, ls)[k]);
    LargestTurn(sid, ls, k, Straight(sid, ls)[k]);
  }
}
