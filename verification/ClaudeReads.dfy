/** A Claude transcript as one read returns it: the turns of its usage lines and
    a row without tokens for every request whose tool calls met no usage line in
    that read.  A line without a request id or uuid is keyed by its place in the
    read. */
module ClaudeReads {
  import opened Schema
  import opened Strings
  import opened EventStore
  import opened ConcurrentIngest
  import opened ClaudeDedup

  /** The usage of one line. */
  datatype Call = Call(at: int, model: string, input: int, cacheW: int, cacheR: int, output: nat)

  /** One line that holds a JSON object: its requestId, else its uuid, if it has
      either; whether it is an assistant's with a named tool_use block; and the
      usage, if it is an assistant's that has one. */
  datatype Record = Record(id: Option<string>, tools: bool, usage: Option<Call>)

  /** A usage line whose model counts. */
  datatype Usage = Usage(id: Option<string>, call: Call)

  predicate Counts(r: Record) {
    r.usage.Some? && r.usage.value.model != "" && r.usage.value.model != "<synthetic>"
  }

  function TurnOf(r: Record): Usage
    requires Counts(r)
  {
    Usage(r.id, r.usage.value)
  }

  function UsageLines(ls: seq<Record>): seq<Usage> {
    if ls == [] then []
    else
      var last := ls[|ls| - 1];
      UsageLines(ls[..|ls| - 1]) + (if Counts(last) then [TurnOf(last)] else [])
  }

  /** A line adds a turn exactly when it has a usage and a model that is neither
      empty nor "<synthetic>". */
  lemma {:induction false} LineAdds(ls: seq<Record>, r: Record)
    ensures r.usage == None ==> UsageLines(ls + [r]) == UsageLines(ls)
    ensures r.usage != None ==>
      var c := r.usage.value;
      UsageLines(ls + [r])
      == if |c.model| == 0 || c.model == "<synthetic>" then UsageLines(ls) else UsageLines(ls) + [Usage(r.id, c)]
  {
    assert (ls + [r])[..|ls|] == ls;
    assert UsageLines(ls) + [] == UsageLines(ls);
  }

  // ----- turns -----

  /** The key of the usage line that meets n keys before it in its read. */
  function RowName(n: nat): string { "_row" + Digits(n) }

  function IdOf(u: Usage, n: nat): string { if u.id.Some? then u.id.value else RowName(n) }

  function Positive(n: int): Option<int> { if n > 0 then Some(n) else None }

  function Filled(sid: string, u: Usage, n: nat): Event {
    var c := u.call;
    Event("anthropic", sid, IdOf(u, n), "", c.at, c.model, c.input, Positive(c.cacheW), Positive(c.cacheR), c.output)
  }

  /** Its columns are the line's, the caches only where there is any. */
  lemma {:induction false} FilledIs(sid: string, u: Usage, n: nat)
    ensures var c, r := u.call, Filled(sid, u, n);
      && r.vendor == "anthropic" && r.sessionID == sid && r.parentID == "" && r.at == c.at && r.model == c.model
      && r.requestID == (if u.id == None then "_row" + Digits(n) else u.id.value)
      && r.input == c.input && r.output == c.output
      && r.cacheWrite == (if c.cacheW > 0 then Some(c.cacheW) else None)
      && r.cacheRead == (if c.cacheR > 0 then Some(c.cacheR) else None)
      && (c.cacheW >= 0 && c.cacheR >= 0 ==> AllTokens(r) == c.input + c.cacheW + c.cacheR + c.output)
  {
  }

  /** The usage lines of one read with their keys: len(order) is how many keys
      the read has met. */
  function Keyed(sid: string, us: seq<Usage>): (rows: seq<Event>)
    ensures |rows| == |us|
  {
    if us == [] then []
    else
      var before := Keyed(sid, us[..|us| - 1]);
      before + [Filled(sid, us[|us| - 1], |AddLines(before).order|)]
  }

  // ----- requests with tool calls only -----

  /** The tool key of the i-th line of a read without an id. */
  function ToolRowName(i: nat): string { "_toolrow" + Digits(i + 1) }

  function ToolKey(sid: string, r: Record, i: nat): Key {
    Key("anthropic", sid, if r.id.Some? then r.id.value else ToolRowName(i))
  }

  /** The keys of toolCounts. */
  function ToolKeys(sid: string, ls: seq<Record>): set<Key> {
    if ls == [] then {}
    else
      var n := |ls| - 1;
      ToolKeys(sid, ls[..n]) + (if ls[n].tools then {ToolKey(sid, ls[n], n)} else {})
  }

  function TurnKeys(sid: string, ls: seq<Record>): set<Key> { AddLines(Keyed(sid, UsageLines(ls))).calls.Keys }

  /** The requests whose tool calls met no usage line. */
  function Orphans(sid: string, ls: seq<Record>): set<Key> { ToolKeys(sid, ls) - TurnKeys(sid, ls) }

  function OrphanRow(k: Key): Event { Event(k.vendor, k.sessionID, k.requestID, "", 0, "", 0, None, None, 0) }

  /** It is no turn, and has neither tokens nor time. */
  lemma OrphanRowIs(k: Key)
    ensures var r := OrphanRow(k); KeyOf(r) == k && OnlyCounts(r) && AllTokens(r) == 0 && r.at == 0 && r.parentID == ""
  {
  }

  /** tail holds the orphans' rows, one each, in any order. */
  ghost predicate ListsOrphans(tail: seq<Event>, orphans: set<Key>) {
    && (forall i :: 0 <= i < |tail| ==> tail[i] == OrphanRow(KeyOf(tail[i])))
    && (forall i, j :: 0 <= i < j < |tail| ==> KeyOf(tail[i]) != KeyOf(tail[j]))
    && (forall k :: k in orphans <==> OrphanRow(k) in tail)
  }

  /** What one read of these lines may return: the turns in order, then the
      orphans in the order of some walk of the map. */
  ghost predicate Returns(sid: string, ls: seq<Record>, events: seq<Event>) {
    var turns := Dedup(Keyed(sid, UsageLines(ls)));
    turns <= events && ListsOrphans(events[|turns|..], Orphans(sid, ls))
  }

  // ----- the two loops -----

  /** calls, order and the keys of toolCounts, filled line by line ... */
  method CollectTurns(sid: string, ls: seq<Record>) returns (calls: Table, order: seq<Key>, toolKeys: set<Key>)
    ensures Turns(calls, order) == AddLines(Keyed(sid, UsageLines(ls)))
    ensures toolKeys == ToolKeys(sid, ls)
  {
    calls, order, toolKeys := map[], [], {};
    for i := 0 to |ls|
      invariant Turns(calls, order) == AddLines(Keyed(sid, UsageLines(ls[..i])))
      invariant toolKeys == ToolKeys(sid, ls[..i])
    {
      NextLine(sid, ls, i);
      var r := ls[i];
      if r.tools {
        toolKeys := toolKeys + {ToolKey(sid, r, i)};
      }
      if Counts(r) {
        var e := Filled(sid, TurnOf(r), |order|);
        var k := KeyOf(e);
        if k !in calls {
          calls := calls[k := e];
          order := order + [k];
        } else if e.output >= calls[k].output {
          calls := calls[k := e];
        }
      }
    }
    assert ls[..|ls|] == ls;
  }

  lemma {:induction false} NextLine(sid: string, ls: seq<Record>, i: nat)
    requires i < |ls|
    ensures ToolKeys(sid, ls[..i + 1])
        == ToolKeys(sid, ls[..i]) + (if ls[i].tools then {ToolKey(sid, ls[i], i)} else {})
    ensures var t := AddLines(Keyed(sid, UsageLines(ls[..i])));
            AddLines(Keyed(sid, UsageLines(ls[..i + 1])))
            == if Counts(ls[i]) then AddLine(t, Filled(sid, TurnOf(ls[i]), |t.order|)) else t
  {
    assert ls[..i + 1][..i] == ls[..i];
    UsageNext(ls, i);
    if Counts(ls[i]) { NextTurn(sid, UsageLines(ls[..i]), TurnOf(ls[i])); }
  }

  lemma UsageNext(ls: seq<Record>, i: nat)
    requires i < |ls|
    ensures UsageLines(ls[..i + 1])
      == if Counts(ls[i]) then UsageLines(ls[..i]) + [TurnOf(ls[i])] else UsageLines(ls[..i])
  {
    assert ls[..i + 1][..i] == ls[..i];
  }

  lemma {:induction false} NextTurn(sid: string, us: seq<Usage>, u: Usage)
    ensures var t := AddLines(Keyed(sid, us));
            AddLines(Keyed(sid, us + [u])) == AddLine(t, Filled(sid, u, |t.order|))
  {
    var before, e := Keyed(sid, us), Filled(sid, u, CountAt(sid, us + [u], |us|));
    assert (us + [u])[..|us|] == us;
    assert (before + [e])[..|before|] == before;
  }

  /** ... and returned: turns, then orphans. */
  method ParseTurns(sid: string, ls: seq<Record>) returns (events: seq<Event>)
    ensures Returns(sid, ls, events)
  {
    var calls, order, toolKeys := CollectTurns(sid, ls);
    ghost var rows := Keyed(sid, UsageLines(ls));
    AddLinesWellFormed(rows);
    DedupIsLargest(rows);
    var turns, consumed := FillTurns(calls, order, toolKeys);
    assert turns == Dedup(rows);
    assert toolKeys - consumed == Orphans(sid, ls);
    var orphans := AppendOrphans(toolKeys - consumed);
    events := turns + orphans;
    assert events[|turns|..] == orphans;
  }

  method FillTurns(calls: Table, order: seq<Key>, toolKeys: set<Key>) returns (turns: seq<Event>, consumed: set<Key>)
    requires forall i :: 0 <= i < |order| ==> order[i] in calls
    ensures |turns| == |order| && forall i :: 0 <= i < |order| ==> turns[i] == calls[order[i]]
    ensures forall k :: k in consumed <==> k in order && k in toolKeys
  {
    turns, consumed := [], {};
    for i := 0 to |order|
      invariant |turns| == i && forall j :: 0 <= j < i ==> turns[j] == calls[order[j]]
      invariant forall k :: k in consumed <==> k in order[..i] && k in toolKeys
    {
      turns := turns + [calls[order[i]]];
      if order[i] in toolKeys {
        consumed := consumed + {order[i]};
      }
      assert order[..i + 1] == order[..i] + [order[i]];
    }
    assert order[..|order|] == order;
  }

  method AppendOrphans(orphans: set<Key>) returns (tail: seq<Event>)
    ensures ListsOrphans(tail, orphans)
  {
    tail := [];
    var left := orphans;
    while left != {}
      invariant left <= orphans && ListsOrphans(tail, orphans - left)
      decreases |left|
    {
      var k :| k in left;
      OneMoreOrphan(tail, orphans - left, k);
      tail := tail + [OrphanRow(k)];
      left := left - {k};
      assert orphans - left == orphans - (left + {k}) + {k};
    }
    assert orphans - {} == orphans;
  }

  lemma OneMoreOrphan(tail: seq<Event>, s: set<Key>, k: Key)
    requires ListsOrphans(tail, s) && k !in s
    ensures ListsOrphans(tail + [OrphanRow(k)], s + {k})
  {
    assert KeyOf(OrphanRow(k)) == k;
    forall i | 0 <= i < |tail| ensures KeyOf(tail[i]) != k { assert tail[i] in tail; }
    forall j | j in s + {k} ensures OrphanRow(j) in tail + [OrphanRow(k)] {
    }
  }

  /** How many keys a read from the start has met before usage line i. */
  function CountAt(sid: string, us: seq<Usage>, i: nat): nat
    requires i <= |us|
  {
    |AddLines(Keyed(sid, us[..i])).order|
  }

  lemma {:induction false} KeyedStep(sid: string, us: seq<Usage>, n: nat)
    requires |us| == n + 1
    ensures Keyed(sid, us) == Keyed(sid, us[..n]) + [Filled(sid, us[n], CountAt(sid, us, n))]
  {
  }

  // ----- the names -----

  lemma RowNamesDiffer(m: nat, n: nat)
    requires RowName(m) == RowName(n)
    ensures m == n
  {
    assert RowName(m)[4..] == Digits(m) && RowName(n)[4..] == Digits(n);
    DigitsDiffer(m, n);
  }

  predicate LooksLikeRow(name: string) { |name| >= 4 && name[..4] == "_row" }

  lemma RowNameLooks(n: nat)
    ensures LooksLikeRow(RowName(n))
  {
  }

  /** No id is spelled like the key of a usage line without one. */
  predicate TurnNamesApart(us: seq<Usage>) {
    forall i :: 0 <= i < |us| && us[i].id.Some? ==> !LooksLikeRow(us[i].id.value)
  }

  /** Every usage line but the first has an id. */
  predicate Identified(us: seq<Usage>) {
    forall i :: 0 < i < |us| ==> us[i].id.Some?
  }

  // ----- keys of a part of the transcript -----

  lemma {:induction false} KeyedAt(sid: string, us: seq<Usage>, i: nat)
    requires i < |us|
    ensures Keyed(sid, us)[i] == Filled(sid, us[i], CountAt(sid, us, i))
    decreases |us|
  {
    var n := |us| - 1;
    KeyedStep(sid, us, n);
    if i < n {
      KeyedAt(sid, us[..n], i);
      assert us[..n][..i] == us[..i];
    }
  }

  lemma {:induction false} KeyedPrefix(sid: string, us: seq<Usage>, n: nat)
    requires n <= |us|
    ensures Keyed(sid, us[..n]) == Keyed(sid, us)[..n]
  {
    forall i | 0 <= i < n ensures Keyed(sid, us[..n])[i] == Keyed(sid, us)[i] {
      KeyedAt(sid, us[..n], i);
      KeyedAt(sid, us, i);
      assert us[..n][..i] == us[..i];
    }
  }

  lemma {:induction false} KeyedWithId(sid: string, us: seq<Usage>, i: nat)
    requires i < |us| && us[i].id.Some?
    ensures Keyed(sid, us)[i] == Filled(sid, us[i], 0)
  {
    KeyedAt(sid, us, i);
  }

  /** With ids, a line has the same key in every read. */
  lemma {:induction false} KeyedSlice(sid: string, us: seq<Usage>, from: nat, upto: nat)
    requires Identified(us) && from <= upto <= |us|
    ensures Keyed(sid, us[from..upto]) == Keyed(sid, us)[from..upto]
  {
    var vs := us[from..upto];
    if from == 0 {
      assert vs == us[..upto];
      KeyedPrefix(sid, us, upto);
    } else {
      forall i | 0 <= i < |vs| ensures Keyed(sid, vs)[i] == Keyed(sid, us)[from + i] {
        KeyedWithId(sid, vs, i);
        KeyedWithId(sid, us, from + i);
      }
    }
  }

  // ----- which row names occur -----

  /** A row name in use is below the count of keys. */
  ghost predicate RowsBelow(rows: seq<Event>, n: nat) {
    forall i :: 0 <= i < |rows| ==>
      !LooksLikeRow(rows[i].requestID) || exists m: nat :: m < n && rows[i].requestID == RowName(m)
  }

  lemma RowsBelowMore(rows: seq<Event>, d: nat, e: Event, n: nat)
    requires RowsBelow(rows, d) && d <= n && (LooksLikeRow(e.requestID) ==> e.requestID == RowName(d) && d < n)
    ensures RowsBelow(rows + [e], n)
  {
    forall i | 0 <= i < |rows + [e]|
      ensures !LooksLikeRow((rows + [e])[i].requestID)
           || exists m: nat :: m < n && (rows + [e])[i].requestID == RowName(m)
    {
      if i < |rows| { assert (rows + [e])[i] == rows[i]; }
    }
  }

  lemma {:induction false} KeyedRowsBelow(sid: string, us: seq<Usage>)
    requires TurnNamesApart(us)
    ensures RowsBelow(Keyed(sid, us), |AddLines(Keyed(sid, us)).order|)
  {
    if us != [] {
      var n := |us| - 1;
      var before, d := Keyed(sid, us[..n]), CountAt(sid, us, n);
      var e := Filled(sid, us[n], d);
      assert TurnNamesApart(us[..n]);
      KeyedRowsBelow(sid, us[..n]);
      KeyedStep(sid, us, n);
      assert (before + [e])[..n] == before;
      if us[n].id.None? { NewRowName(sid, us[..n], e, d); }
      RowsBelowMore(before, d, e, |AddLine(AddLines(before), e).order|);
    }
  }

  /** The next row name is a new key. */
  lemma {:induction false} NewRowName(sid: string, us: seq<Usage>, e: Event, d: nat)
    requires RowsBelow(Keyed(sid, us), d) && e.requestID == RowName(d)
    ensures KeyOf(e) !in AddLines(Keyed(sid, us)).calls
  {
    var rows := Keyed(sid, us);
    DedupIsLargest(rows);
    if KeyOf(e) in AddLines(rows).calls {
      NoRowName(rows, KeyOf(e), d);
    }
  }

  lemma NoRowName(rows: seq<Event>, k: Key, d: nat)
    requires RowsBelow(rows, d) && k.requestID == RowName(d)
    ensures forall i :: 0 <= i < |rows| ==> KeyOf(rows[i]) != k
  {
    RowNameLooks(d);
    forall i | 0 <= i < |rows| ensures KeyOf(rows[i]) != k {
      if KeyOf(rows[i]) == k {
        var m: nat :| m < d && rows[i].requestID == RowName(m);
        RowNamesDiffer(m, d);
      }
    }
  }

  lemma {:induction false} OrderNonempty(rows: seq<Event>)
    requires rows != []
    ensures AddLines(rows).order != []
  {
    if |rows| > 1 { OrderNonempty(rows[..|rows| - 1]); }
  }

  lemma {:induction false} FirstIsRowZero(sid: string, us: seq<Usage>, p: nat)
    requires p < |us| && us[p].id.None?
    ensures Keyed(sid, us[p..])[0].requestID == RowName(0)
  {
    KeyedAt(sid, us[p..], 0);
    assert us[p..][..0] == [];
  }

  /** Behind the first line the name of row 0 is not given out again. */
  lemma {:induction false} LaterRowName(sid: string, us: seq<Usage>, k: nat)
    requires TurnNamesApart(us) && 0 < k < |us|
    ensures Keyed(sid, us)[k].requestID != RowName(0)
  {
    KeyedAt(sid, us, k);
    RowNameLooks(0);
    OrderNonempty(Keyed(sid, us[..k]));
    var d := |AddLines(Keyed(sid, us[..k])).order|;
    if us[k].id.None? && RowName(d) == RowName(0) { RowNamesDiffer(d, 0); }
  }

  /** The read that starts at the last line without an id names no row but row 0. */
  lemma {:induction false} OnlyRowZero(sid: string, us: seq<Usage>, p: nat)
    requires TurnNamesApart(us) && p < |us| && us[p].id.None? && forall i :: p < i < |us| ==> us[i].id.Some?
    ensures RowsBelow(Keyed(sid, us[p..]), 1)
  {
    var vs := us[p..];
    forall i | 0 <= i < |vs|
      ensures !LooksLikeRow(Keyed(sid, vs)[i].requestID)
           || exists m: nat :: m < 1 && Keyed(sid, vs)[i].requestID == RowName(m)
    {
      if i == 0 { FirstIsRowZero(sid, us, p); } else { KeyedWithId(sid, vs, i); }
    }
  }

  lemma {:induction false} NotBefore(sid: string, us: seq<Usage>, p: nat, k: Key)
    requires TurnNamesApart(us) && p < |us| && k.requestID == RowName(CountAt(sid, us, p))
    ensures forall i :: 0 <= i < p ==> KeyOf(Keyed(sid, us[..p])[i]) != k
  {
    assert TurnNamesApart(us[..p]);
    KeyedRowsBelow(sid, us[..p]);
    NoRowName(Keyed(sid, us[..p]), k, CountAt(sid, us, p));
  }

  lemma {:induction false} NotAfter(sid: string, us: seq<Usage>, p: nat, k: Key)
    requires TurnNamesApart(us) && 0 < p < |us| && us[p].id.None? && forall i :: p < i < |us| ==> us[i].id.Some?
    requires k.requestID == RowName(CountAt(sid, us, p))
    ensures forall i :: 0 <= i < |us[p..]| ==> KeyOf(Keyed(sid, us[p..])[i]) != k
  {
    OrderNonempty(Keyed(sid, us[..p]));
    OnlyRowZero(sid, us, p);
    NoRowName(Keyed(sid, us[p..]), k, CountAt(sid, us, p));
  }

  lemma {:induction false} LastUnidentified(us: seq<Usage>, n: nat) returns (p: nat)
    requires n <= |us| && (exists i :: 0 < i < n && us[i].id.None?) && forall i :: n <= i < |us| ==> us[i].id.Some?
    ensures 0 < p < |us| && us[p].id.None? && forall i :: p < i < |us| ==> us[i].id.Some?
  {
    if us[n - 1].id.None? { p := n - 1; } else { p := LastUnidentified(us, n - 1); }
  }
}
