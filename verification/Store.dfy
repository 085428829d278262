/** The events and cursors tables.  A transaction is one change of a map. */
module EventStore {
  import opened Schema

  datatype Key = Key(vendor: string, sessionID: string, requestID: string)

  type Table = map<Key, Event>

  function KeyOf(e: Event): Key { Key(e.vendor, e.sessionID, e.requestID) }

  /** ON CONFLICT ... DO UPDATE ... WHERE excluded.output > events.output. */
  function Upsert(t: Table, e: Event): Table {
    if KeyOf(e) in t && e.output <= t[KeyOf(e)].output then t else t[KeyOf(e) := e]
  }

  function UpsertAll(t: Table, es: seq<Event>): Table
    decreases |es|
  {
    if es == [] then t else UpsertAll(Upsert(t, es[0]), es[1..])
  }

  lemma {:induction false} UpsertAppend(t: Table, a: seq<Event>, b: seq<Event>)
    ensures UpsertAll(t, a + b) == UpsertAll(UpsertAll(t, a), b)
    decreases |a|
  {
    if a == [] {
      assert a + b == b;
    } else {
      assert (a + b)[1..] == a[1..] + b;
      UpsertAppend(Upsert(t, a[0]), a[1..], b);
    }
  }

  /** The store holds e's key with at least e's output. */
  predicate Holds(t: Table, e: Event) {
    KeyOf(e) in t && t[KeyOf(e)].output >= e.output
  }

  predicate HoldsAll(t: Table, es: seq<Event>) {
    forall k :: 0 <= k < |es| ==> Holds(t, es[k])
  }

  /** No key is lost and no output falls. */
  predicate Grows(t: Table, t': Table) {
    forall k :: k in t ==> k in t' && t'[k].output >= t[k].output
  }

  lemma {:induction false} UpsertGrows(t: Table, es: seq<Event>)
    ensures Grows(t, UpsertAll(t, es)) && HoldsAll(UpsertAll(t, es), es)
    decreases |es|
  {
    if es != [] {
      UpsertGrows(Upsert(t, es[0]), es[1..]);
      assert Holds(Upsert(t, es[0]), es[0]);
      forall k | 0 <= k < |es| ensures Holds(UpsertAll(t, es), es[k]) {
        if k > 0 { assert es[k] == es[1..][k - 1];
      }
      }
    }
  }

  lemma GrowsKeepsHolding(t: Table, t': Table, es: seq<Event>)
    requires Grows(t, t') && HoldsAll(t, es)
    ensures HoldsAll(t', es)
  {
    forall k | 0 <= k < |es| ensures Holds(t', es[k]) {
      assert Holds(t, es[k]);
    }
  }

  /** A stored row was there before or is one of those upserted. */
  lemma {:induction false} UpsertOrigin(t: Table, es: seq<Event>, k: Key)
    requires k in UpsertAll(t, es)
    ensures (k in t && UpsertAll(t, es)[k] == t[k]) || (UpsertAll(t, es)[k] in es && KeyOf(UpsertAll(t, es)[k]) == k)
    decreases |es|
  {
    if es != [] { UpsertOrigin(Upsert(t, es[0]), es[1..], k); }
  }

  /** Upserting what is held already is a no-op. */
  lemma {:induction false} UpsertHeld(t: Table, es: seq<Event>)
    requires HoldsAll(t, es)
    ensures UpsertAll(t, es) == t
    decreases |es|
  {
    if es != [] {
      assert Holds(t, es[0]);
      forall k | 0 <= k < |es[1..]| ensures Holds(t, es[1..][k]) {
        assert es[1..][k] == es[k + 1];
      }
      UpsertHeld(t, es[1..]);
    }
  }

  /** Applying the same rows a second time changes nothing. */
  lemma {:induction false} UpsertIdempotent(t: Table, es: seq<Event>)
    ensures UpsertAll(UpsertAll(t, es), es) == UpsertAll(t, es)
  {
    UpsertGrows(t, es);
    UpsertHeld(UpsertAll(t, es), es);
  }

  /** i is the first row of es that reaches the largest output of its key. */
  predicate FirstLargest(es: seq<Event>, i: nat)
    requires i < |es|
  {
    && (forall j :: 0 <= j < |es| && KeyOf(es[j]) == KeyOf(es[i]) ==> es[j].output <= es[i].output)
    && (forall j :: 0 <= j < i && KeyOf(es[j]) == KeyOf(es[i]) ==> es[j].output < es[i].output)
  }

  /** e is the first row of es that reaches the largest output of key k. */
  ghost predicate Best(es: seq<Event>, k: Key, e: Event) {
    exists i :: 0 <= i < |es| && es[i] == e && KeyOf(e) == k && FirstLargest(es, i)
  }

  lemma BestKept(es: seq<Event>, k: Key, best: Event, e: Event)
    requires Best(es, k, best) && (KeyOf(e) == k ==> e.output <= best.output)
    ensures Best(es + [e], k, best)
  {
    var i :| 0 <= i < |es| && es[i] == best && KeyOf(best) == k && FirstLargest(es, i);
    assert (es + [e])[i] == best;
    forall j | 0 <= j < |es + [e]| && KeyOf((es + [e])[j]) == k ensures (es + [e])[j].output <= best.output {
      if j < |es| { assert (es + [e])[j] == es[j];
    }
    }
    forall j | 0 <= j < i && KeyOf((es + [e])[j]) == k ensures (es + [e])[j].output < best.output {
      assert (es + [e])[j] == es[j];
    }
    assert FirstLargest(es + [e], i);
  }

  lemma BestReplaced(es: seq<Event>, e: Event)
    requires forall j :: 0 <= j < |es| && KeyOf(es[j]) == KeyOf(e) ==> es[j].output < e.output
    ensures Best(es + [e], KeyOf(e), e)
  {
    assert (es + [e])[|es|] == e;
    forall j | 0 <= j < |es| && KeyOf((es + [e])[j]) == KeyOf(e) ensures (es + [e])[j].output < e.output {
      assert (es + [e])[j] == es[j];
    }
    assert FirstLargest(es + [e], |es|);
  }

  /** What a table holds after one read of es from nothing: for every key met,
      the first row that reaches that key's largest output, and nothing else. */
  lemma {:induction false} StoredIsFirstLargest(es: seq<Event>)
    ensures forall i :: 0 <= i < |es| ==> KeyOf(es[i]) in UpsertAll(map[], es)
    ensures forall k :: k in UpsertAll(map[], es) ==> Best(es, k, UpsertAll(map[], es)[k])
    decreases |es|
  {
    if es != [] {
      var init, e := es[..|es| - 1], es[|es| - 1];
      assert es == init + [e];
      StoredIsFirstLargest(init);
      StoredOneMore(init, e);
    }
  }

  lemma {:induction false} StoredOneMore(es: seq<Event>, e: Event)
    requires forall i :: 0 <= i < |es| ==> KeyOf(es[i]) in UpsertAll(map[], es)
    requires forall k :: k in UpsertAll(map[], es) ==> Best(es, k, UpsertAll(map[], es)[k])
    ensures forall i :: 0 <= i < |es + [e]| ==> KeyOf((es + [e])[i]) in UpsertAll(map[], es + [e])
    ensures forall k :: k in UpsertAll(map[], es + [e]) ==> Best(es + [e], k, UpsertAll(map[], es + [e])[k])
  {
    var before := UpsertAll(map[], es);
    var after := Upsert(before, e);
    UpsertAppend(map[], es, [e]);
    assert UpsertAll(map[], es + [e]) == after;
    forall i | 0 <= i < |es + [e]| ensures KeyOf((es + [e])[i]) in after {
      if i < |es| { assert (es + [e])[i] == es[i];
    }
    }
    forall k | k in after ensures Best(es + [e], k, after[k]) {
      if k != KeyOf(e) || (k in before && e.output <= before[k].output) {
        BestKept(es, k, before[k], e);
      } else {
        forall j | 0 <= j < |es| && KeyOf(es[j]) == k ensures es[j].output < e.output {
        }
        BestReplaced(es, e);
      }
    }
  }

  // ----- paths and pruning -----

  predicate IsSeparator(c: char) { c == '/' || c == '\\' }

  function TrimSeparators(path: string): string {
    if path != [] && IsSeparator(path[|path| - 1]) then TrimSeparators(path[..|path| - 1]) else path
  }

  /** What follows the last separator. */
  function AfterLast(path: string): string {
    if forall k :: 0 <= k < |path| ==> !IsSeparator(path[k]) then path else AfterLast(path[1..])
  }

  /** filepath.Base, without volume names. */
  function Base(path: string): string {
    if path == [] then "."
    else if TrimSeparators(path) == [] then "\\"
    else AfterLast(TrimSeparators(path))
  }

  /** The name before its last dot; the whole name when it has none. */
  function WithoutExtension(name: string): string {
    if '.' !in name then name
    else if name[|name| - 1] == '.' then name[..|name| - 1]
    else WithoutExtension(name[..|name| - 1])
  }

  /** sessionIDFromPath. */
  function Stem(path: string): string { WithoutExtension(Base(path)) }

  predicate Separators(s: string) { forall k :: 0 <= k < |s| ==> IsSeparator(s[k]) }

  predicate SeparatorFree(s: string) { forall k :: 0 <= k < |s| ==> !IsSeparator(s[k]) }

  lemma {:induction false} TrimTail(s: string, tail: string)
    requires Separators(tail) && (s == [] || !IsSeparator(s[|s| - 1]))
    ensures TrimSeparators(s + tail) == s
    decreases |tail|
  {
    if tail == [] {
      assert s + tail == s;
    } else {
      assert (s + tail)[..|s + tail| - 1] == s + tail[..|tail| - 1];
      TrimTail(s, tail[..|tail| - 1]);
    }
  }

  lemma {:induction false} AfterDirectory(dir: string, name: string)
    requires SeparatorFree(name) && (dir == [] || IsSeparator(dir[|dir| - 1]))
    ensures AfterLast(dir + name) == name
  {
    if dir == [] {
      assert dir + name == name;
    } else {
      assert IsSeparator((dir + name)[|dir| - 1]);
      assert (dir + name)[1..] == dir[1..] + name;
      AfterDirectory(dir[1..], name);
    }
  }

  /** The base of a path is its last name, whatever separators follow it. */
  lemma BaseIs(dir: string, name: string, tail: string)
    requires name != [] && SeparatorFree(name) && Separators(tail) && (dir == [] || IsSeparator(dir[|dir| - 1]))
    ensures Base(dir + name + tail) == name
  {
    TrimTail(dir + name, tail);
    AfterDirectory(dir, name);
  }

  lemma BaseOfNothing(tail: string)
    requires Separators(tail)
    ensures Base(tail) == if |tail| == 0 then "." else "\\"
  {
    TrimTail("", tail);
    assert "" + tail == tail;
  }

  /** The stem of a name ends before its last dot. */
  lemma {:induction false} ExtensionIs(stem: string, extension: string)
    requires '.' !in extension
    ensures WithoutExtension(stem + "." + extension) == stem
    ensures WithoutExtension(extension) == extension
    decreases |extension|
  {
    var name := stem + "." + extension;
    assert name[|stem|] == '.';
    if extension == [] {
      assert name[..|name| - 1] == stem;
    } else {
      var init := extension[..|extension| - 1];
      assert name[|name| - 1] == extension[|extension| - 1] && extension[|extension| - 1] in extension;
      assert name[..|name| - 1] == stem + "." + init;
      ExtensionIs(stem, init);
    }
  }

  datatype Cursor = Cursor(offset: nat, mtime: int, size: nat)

  type Cursors = map<string, Cursor>

  /** The rows DeleteEventsForOtherPaths drops for one stale path. */
  predicate Doomed(k: Key, stale: set<string>) {
    k.sessionID != "" && exists p :: p in stale && Stem(p) == k.sessionID
  }

  function Pruned(t: Table, stale: set<string>): Table {
    map k | k in t && !Doomed(k, stale) :: t[k]
  }

  /** The paths with a cursor that the caller does not keep. */
  function Stale(c: Cursors, keepPaths: seq<string>): set<string> {
    set p | p in c && p !in keepPaths
  }

  /** A row goes exactly when it has a session id that is the stem of some stale
      path; the others stay as they are. */
  lemma PrunedIff(t: Table, c: Cursors, keepPaths: seq<string>, k: Key)
    ensures k in Pruned(t, Stale(c, keepPaths))
       <==> k in t && (|k.sessionID| > 0 ==> forall p :: p in c && p !in keepPaths ==> Stem(p) != k.sessionID)
    ensures k in Pruned(t, Stale(c, keepPaths)) ==> Pruned(t, Stale(c, keepPaths))[k] == t[k]
  {
  }

  /** DELETE FROM events WHERE session_id = ?. */
  function WithoutSession(t: Table, sessionID: string): Table {
    map k | k in t && k.sessionID != sessionID :: t[k]
  }

  /** The store as the source keeps it: two tables changed in place. */
  class Store {
    var events: Table
    var cursors: Cursors

    constructor ()
      ensures events == map[] && cursors == map[]
    {
      events, cursors := map[], map[];
    }

    method UpsertEvents(es: seq<Event>)
      modifies this`events
      ensures events == UpsertAll(old(events), es)
    {
      var i := 0;
      while i < |es|
        invariant 0 <= i <= |es|
        invariant UpsertAll(events, es[i..]) == UpsertAll(old(events), es)
      {
        var e := es[i];
        assert es[i..][1..] == es[i + 1..];
        if !(KeyOf(e) in events && e.output <= events[KeyOf(e)].output) {
          events := events[KeyOf(e) := e];
        }
        i := i + 1;
      }
    }

    method SetCursor(path: string, offset: nat, mtime: int, size: nat)
      modifies this`cursors
      ensures cursors == old(cursors)[path := Cursor(offset, mtime, size)]
    {
      cursors := cursors[path := Cursor(offset, mtime, size)];
    }

    /** One stale path of the prune: its session's rows and its cursor. */
    method DeletePath(p: string)
      modifies this
      ensures events == if Stem(p) == "" then old(events) else WithoutSession(old(events), Stem(p))
      ensures cursors == old(cursors) - {p}
    {
      var sessionID := Stem(p);
      if sessionID != "" {
        events := WithoutSession(events, sessionID);
      }
      cursors := cursors - {p};
    }

    /** Lists the cursors that are not kept, then deletes each one's rows and cursor. */
    method DeleteEventsForOtherPaths(keepPaths: seq<string>)
      modifies this
      ensures events == Pruned(old(events), Stale(old(cursors), keepPaths))
      ensures cursors == old(cursors) - Stale(old(cursors), keepPaths)
      ensures forall p :: p in cursors <==> p in old(cursors) && p in keepPaths
    {
      ghost var stale, gone: set<string> := Stale(cursors, keepPaths), {};
      var left := Stale(cursors, keepPaths);
      while left != {}
        invariant left + gone == stale
        invariant events == Pruned(old(events), gone)
        invariant cursors == old(cursors) - gone
        decreases |left|
      {
        var p :| p in left;
        DeletePath(p);
        left, gone := left - {p}, gone + {p};
      }
      assert gone == stale;
    }
  }
}
