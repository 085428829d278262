/** The walk over one completed FILE_NOTIFY_INFORMATION buffer. */
module WatchDecode {
  import opened Strings

  type Byte = x: int | 0 <= x < 0x100
  type Unit = x: int | 0 <= x < 0x1_0000  // one UTF-16 code unit
  type Uint32 = x: int | 0 <= x < 0x1_0000_0000

  /** NextEntryOffset, Action and FileNameLength, four bytes each. */
  const HEADER: int := 12

  const ACTION_ADDED: Uint32 := 1
  const ACTION_MODIFIED: Uint32 := 3
  const ACTION_RENAMED_NEW_NAME: Uint32 := 5

  function U16(buf: seq<Byte>, at: nat): Unit
    requires at + 2 <= |buf|
  {
    buf[at] as int + 0x100 * buf[at + 1] as int
  }

  function U32(buf: seq<Byte>, at: nat): Uint32
    requires at + 4 <= |buf|
  {
    U16(buf, at) + 0x1_0000 * U16(buf, at + 2)
  }

  function Units(buf: seq<Byte>, at: nat, count: nat): seq<Unit>
    requires at + 2 * count <= |buf|
    decreases count
  {
    if count == 0 then [] else [U16(buf, at)] + Units(buf, at + 2, count - 1)
  }

  /** windows.UTF16ToString stops at the first NUL. */
  function UpToNul(units: seq<Unit>): seq<Unit> {
    if units == [] || units[0] == 0 then [] else [units[0]] + UpToNul(units[1..])
  }

  /** One entry as decode sees it. */
  datatype Change = Change(action: Uint32, name: seq<Unit>)

  /** The path reported for one entry, if any.  `full` joins a name to the
      watched root. */
  function Report(full: seq<Unit> -> string): Change -> seq<string> {
    (c: Change) =>
      if && (c.action == ACTION_ADDED || c.action == ACTION_MODIFIED || c.action == ACTION_RENAMED_NEW_NAME)
         && HasSuffix(Lower(full(c.name)), ".jsonl")
      then [full(c.name)] else []
  }

  function Collect(changes: seq<Change>, report: Change -> seq<string>): seq<string> {
    if changes == [] then [] else report(changes[0]) + Collect(changes[1..], report)
  }

  /** The entry header and its name fit in the n bytes. */
  predicate Fits(buf: seq<Byte>, n: nat, offset: nat)
    requires n <= |buf|
  {
    offset + HEADER <= n && offset + HEADER + U32(buf, offset + 8) <= n
  }

  function ChangeAt(buf: seq<Byte>, n: nat, offset: nat): Change
    requires n <= |buf| && Fits(buf, n, offset)
  {
    Change(U32(buf, offset + 4), UpToNul(Units(buf, offset + HEADER, U32(buf, offset + 8) / 2)))
  }

  /** What the walk finds at one offset: nothing that fits, or an entry and the
      distance to the next. */
  datatype Step = Stop | Step(change: Change, next: nat)

  function StepAt(buf: seq<Byte>, n: nat): nat -> Step
    requires n <= |buf|
  {
    (offset: nat) => if Fits(buf, n, offset) then Step(ChangeAt(buf, n, offset), U32(buf, offset)) else Stop
  }

  /** The entries met from offset on. */
  function Walk(step: nat -> Step, n: nat, offset: nat): seq<Change>
    decreases n - offset
  {
    match step(offset)
    case Stop => []
    case Step(change, next) =>
      if next < HEADER || offset + next >= n then [change] else [change] + Walk(step, n, offset + next)
  }

  function Min(a: int, b: int): int { if a < b then a else b }

  function Decoded(buf: seq<Byte>, n: Uint32, full: seq<Unit> -> string): seq<string> {
    Collect(Walk(StepAt(buf, Min(n, |buf|)), Min(n, |buf|), 0), Report(full))
  }

  method ReadU32(buf: array<Byte>, at: nat) returns (x: Uint32)
    requires at + 4 <= buf.Length
    ensures x == U32(buf[..], at)
  {
    x := buf[at] as int + 0x100 * buf[at + 1] as int + 0x1_0000 * (buf[at + 2] as int + 0x100 * buf[at + 3] as int);
  }

  predicate Asked(offset: nat) { true }

  /** step gives what stands in buf, wherever it is asked. */
  ghost predicate Reads(step: nat -> Step, buf: seq<Byte>, n: nat)
    requires n <= |buf|
  {
    forall offset: nat {:trigger Asked(offset)} :: Asked(offset) ==> step(offset) == StepAt(buf, n)(offset)
  }

  /** The entry at offset, if its header and its name fit. */
  method ReadEntry(buf: array<Byte>, n64: nat, offset: nat, ghost bytes: seq<Byte>, ghost step: nat -> Step)
    returns (s: Step)
    requires n64 <= buf.Length < 0x1_0000_0000 && offset <= n64
    requires bytes == buf[..] && Reads(step, bytes, n64)
    ensures s == step(offset)
  {
    assert Asked(offset);
    if offset + HEADER > n64 {
      return Stop;
    }
    var nameLength := ReadU32(buf, offset + 8);
    assert offset + HEADER + nameLength < 0x1_0000_0000_0000_0000;  // the sum fits a uint64
    if offset + HEADER + nameLength > n64 {
      return Stop;
    }
    var action := ReadU32(buf, offset + 4);
    var name := UpToNul(Units(buf[..], offset + HEADER, nameLength / 2));
    var next := ReadU32(buf, offset);
    s := Step(Change(action, name), next);
  }

  /** decode itself.  n == 0 is the kernel's overflow report. */
  method Decode(buf: array<Byte>, n: Uint32, full: seq<Unit> -> string) returns (out: seq<string>)
    requires buf.Length < 0x1_0000_0000
    ensures out == Decoded(buf[..], n, full)
  {
    if n == 0 {
      assert StepAt(buf[..], 0)(0) == Stop;
      return [];
    }
    var n64: nat := n;
    if n64 > buf.Length {
      n64 := buf.Length;
    }
    out := WalkBuffer(buf, n64, Report(full), buf[..], StepAt(buf[..], n64));
  }

  /** The loop. */
  method WalkBuffer(buf: array<Byte>, n64: nat, report: Change -> seq<string>,
                    ghost bytes: seq<Byte>, ghost step: nat -> Step)
    returns (out: seq<string>)
    requires n64 <= buf.Length < 0x1_0000_0000
    requires bytes == buf[..] && Reads(step, bytes, n64)
    ensures out == Collect(Walk(step, n64, 0), report)
  {
    out := [];
    var offset: nat := 0;
    ghost var left := Collect(Walk(step, n64, 0), report);
    ghost var all := left;
    while true
      invariant offset <= n64 && bytes == buf[..]
      invariant left == Collect(Walk(step, n64, offset), report)
      invariant out + left == all
      decreases n64 - offset
    {
      var s := ReadEntry(buf, n64, offset, bytes, step);
      if s.Stop? {
        assert left == [] && out + left == out;
        return;
      }
      var next, found := offset + s.next, report(s.change);
      ghost var further := CollectOnwards(step, n64, offset, s, report);
      Regroup(out, found, further, left, all);
      out, left := out + found, further;
      if s.next < HEADER || next >= n64 {
        assert out + left == out;
        return;
      }
      offset := next;
    }
  }

  /** What is still to come after the entry s at offset. */
  lemma CollectOnwards(step: nat -> Step, n: nat, offset: nat, s: Step, report: Change -> seq<string>)
    returns (further: seq<string>)
    requires s == step(offset) && s.Step?
    ensures Collect(Walk(step, n, offset), report) == report(s.change) + further
    ensures s.next < HEADER || offset + s.next >= n ==> further == []
    ensures HEADER <= s.next && offset + s.next < n ==> further == Collect(Walk(step, n, offset + s.next), report)
  {
    var after := if s.next < HEADER || offset + s.next >= n then [] else Walk(step, n, offset + s.next);
    assert Walk(step, n, offset) == [s.change] + after;
    assert ([s.change] + after)[1..] == after;
    further := Collect(after, report);
  }

  lemma Regroup(out: seq<string>, found: seq<string>, further: seq<string>, left: seq<string>, all: seq<string>)
    requires left == found + further && out + left == all
    ensures (out + found) + further == all
  {
  }

  // ----- nothing beyond what the kernel wrote is read -----

  lemma U16Below(a: seq<Byte>, b: seq<Byte>, n: nat, at: nat)
    requires n <= |a| && n <= |b| && a[..n] == b[..n] && at + 2 <= n
    ensures U16(a, at) == U16(b, at)
  {
    assert a[at] == a[..n][at] && a[at + 1] == a[..n][at + 1];
    assert b[at] == b[..n][at] && b[at + 1] == b[..n][at + 1];
  }

  lemma {:induction false} UnitsBelow(a: seq<Byte>, b: seq<Byte>, n: nat, at: nat, count: nat)
    requires n <= |a| && n <= |b| && a[..n] == b[..n] && at + 2 * count <= n
    ensures Units(a, at, count) == Units(b, at, count)
    decreases count
  {
    if count > 0 {
      U16Below(a, b, n, at);
      UnitsBelow(a, b, n, at + 2, count - 1);
    }
  }

  lemma EntryBelow(a: seq<Byte>, b: seq<Byte>, n: nat, offset: nat)
    requires n <= |a| && n <= |b| && a[..n] == b[..n] && offset + HEADER <= n
    ensures U32(a, offset) == U32(b, offset)
    ensures Fits(a, n, offset) == Fits(b, n, offset)
    ensures Fits(a, n, offset) ==> ChangeAt(a, n, offset) == ChangeAt(b, n, offset)
  {
    U16Below(a, b, n, offset);
    U16Below(a, b, n, offset + 2);
    U16Below(a, b, n, offset + 4);
    U16Below(a, b, n, offset + 6);
    U16Below(a, b, n, offset + 8);
    U16Below(a, b, n, offset + 10);
    if Fits(a, n, offset) {
      UnitsBelow(a, b, n, offset + HEADER, U32(a, offset + 8) / 2);
    }
  }

  lemma StepBelow(a: seq<Byte>, b: seq<Byte>, n: nat, offset: nat)
    requires n <= |a| && n <= |b| && a[..n] == b[..n]
    ensures StepAt(a, n)(offset) == StepAt(b, n)(offset)
  {
    if offset + HEADER <= n { EntryBelow(a, b, n, offset); }
  }

  lemma {:induction false} WalkSame(step: nat -> Step, step': nat -> Step, n: nat, offset: nat)
    requires forall o: nat :: step(o) == step'(o)
    ensures Walk(step, n, offset) == Walk(step', n, offset)
    decreases n - offset
  {
    var s := step(offset);
    if s.Step? && s.next >= HEADER && offset + s.next < n { WalkSame(step, step', n, offset + s.next); }
  }

  /** The outcome depends on the first min(n, len) bytes only: stale bytes a
      previous read left behind are never taken for an entry. */
  lemma ReadsOnlyWhatWasWritten(a: seq<Byte>, b: seq<Byte>, n: Uint32, full: seq<Unit> -> string)
    requires |a| == |b| && a[..Min(n, |a|)] == b[..Min(n, |a|)]
    ensures Decoded(a, n, full) == Decoded(b, n, full)
  {
    var m := Min(n, |a|);
    forall o: nat ensures StepAt(a, m)(o) == StepAt(b, m)(o) { StepBelow(a, b, m, o); }
    WalkSame(StepAt(a, m), StepAt(b, m), m, 0);
  }

  // ----- round trip -----

  /** One change as the kernel lays it out: the padding after the name aligns
      the next entry, and may hold anything. */
  datatype Entry = Entry(action: Uint32, name: seq<Unit>, padding: seq<Byte>)

  function Size(e: Entry): nat { HEADER + 2 * |e.name| + |e.padding| }

  function PutU16(x: Unit): seq<Byte> {
    [x % 0x100, x / 0x100]
  }

  function PutU32(x: Uint32): seq<Byte> {
    PutU16(x % 0x1_0000) + PutU16(x / 0x1_0000)
  }

  function PutName(name: seq<Unit>): seq<Byte> {
    if name == [] then [] else PutU16(name[0]) + PutName(name[1..])
  }

  lemma {:induction false} PutNameSize(name: seq<Unit>)
    ensures |PutName(name)| == 2 * |name|
  {
    if name != [] { PutNameSize(name[1..]); }
  }

  function PutEntry(e: Entry, last: bool): seq<Byte>
    requires Size(e) < 0x1_0000_0000
  {
    PutU32(if last then 0 else Size(e)) + PutU32(e.action) + PutU32(2 * |e.name|) + PutName(e.name) + e.padding
  }

  predicate Encodable(entries: seq<Entry>) {
    forall k :: 0 <= k < |entries| ==> Size(entries[k]) < 0x1_0000_0000
  }

  /** The buffer the kernel writes for a list of changes. */
  function Encode(entries: seq<Entry>): seq<Byte>
    requires Encodable(entries)
  {
    if entries == [] then [] else PutEntry(entries[0], |entries| == 1) + Encode(entries[1..])
  }

  /** The changes a list of entries stands for. */
  function Meant(entries: seq<Entry>): seq<Change> {
    if entries == [] then [] else [Change(entries[0].action, UpToNul(entries[0].name))] + Meant(entries[1..])
  }

  /** part stands in buf at position at. */
  predicate Holds(buf: seq<Byte>, at: nat, part: seq<Byte>) {
    at + |part| <= |buf| && buf[at..at + |part|] == part
  }

  lemma HoldsSplit(buf: seq<Byte>, at: nat, a: seq<Byte>, b: seq<Byte>)
    requires Holds(buf, at, a + b)
    ensures Holds(buf, at, a) && Holds(buf, at + |a|, b)
  {
    assert (a + b)[..|a|] == a && (a + b)[|a|..] == b;
    assert buf[at..at + |a|] == buf[at..at + |a + b|][..|a|];
    assert buf[at + |a|..at + |a| + |b|] == buf[at..at + |a + b|][|a|..];
  }

  lemma GetU16(buf: seq<Byte>, at: nat, x: Unit)
    requires Holds(buf, at, PutU16(x))
    ensures U16(buf, at) == x
  {
    assert buf[at] == buf[at..at + 2][0] && buf[at + 1] == buf[at..at + 2][1];
  }

  lemma GetU32(buf: seq<Byte>, at: nat, x: Uint32)
    requires Holds(buf, at, PutU32(x))
    ensures U32(buf, at) == x
  {
    HoldsSplit(buf, at, PutU16(x % 0x1_0000), PutU16(x / 0x1_0000));
    GetU16(buf, at, x % 0x1_0000);
    GetU16(buf, at + 2, x / 0x1_0000);
  }

  lemma {:induction false} GetName(buf: seq<Byte>, at: nat, name: seq<Unit>)
    requires Holds(buf, at, PutName(name))
    ensures |PutName(name)| == 2 * |name|
    ensures Units(buf, at, |name|) == name
    decreases |name|
  {
    PutNameSize(name);
    if name != [] {
      HoldsSplit(buf, at, PutU16(name[0]), PutName(name[1..]));
      GetU16(buf, at, name[0]);
      GetName(buf, at + 2, name[1..]);
    }
  }

  /** The four things read from one entry. */
  lemma GetEntry(buf: seq<Byte>, at: nat, e: Entry, last: bool)
    requires Size(e) < 0x1_0000_0000 && Holds(buf, at, PutEntry(e, last))
    ensures |PutEntry(e, last)| == Size(e)
    ensures U32(buf, at) == (if last then 0 else Size(e))
    ensures U32(buf, at + 4) == e.action && U32(buf, at + 8) == 2 * |e.name|
    ensures Units(buf, at + HEADER, |e.name|) == e.name
  {
    var next, action, length := PutU32(if last then 0 else Size(e)), PutU32(e.action), PutU32(2 * |e.name|);
    PutNameSize(e.name);
    HoldsSplit(buf, at, next + action + length + PutName(e.name), e.padding);
    HoldsSplit(buf, at, next + action + length, PutName(e.name));
    HoldsSplit(buf, at, next + action, length);
    HoldsSplit(buf, at, next, action);
    GetU32(buf, at, if last then 0 else Size(e));
    GetU32(buf, at + 4, e.action);
    GetU32(buf, at + 8, 2 * |e.name|);
    GetName(buf, at + HEADER, e.name);
  }

  /** The walk's step over one well-formed entry. */
  lemma StepOverEntry(buf: seq<Byte>, n: nat, at: nat, e: Entry, last: bool)
    requires n <= |buf| && at + Size(e) <= n && Size(e) < 0x1_0000_0000 && Holds(buf, at, PutEntry(e, last))
    ensures StepAt(buf, n)(at) == Step(Change(e.action, UpToNul(e.name)), if last then 0 else Size(e))
  {
    GetEntry(buf, at, e, last);
    assert Fits(buf, n, at);
    assert ChangeAt(buf, n, at) == Change(e.action, UpToNul(e.name));
  }

  lemma WalkOne(step: nat -> Step, n: nat, at: nat)
    requires step(at).Step?
    ensures step(at).next == 0 ==> Walk(step, n, at) == [step(at).change]
    ensures HEADER <= step(at).next && at + step(at).next < n ==>
      Walk(step, n, at) == [step(at).change] + Walk(step, n, at + step(at).next)
  {
  }

  lemma EntrySize(e: Entry, last: bool)
    requires Size(e) < 0x1_0000_0000
    ensures |PutEntry(e, last)| == Size(e)
  {
    PutNameSize(e.name);
  }

  lemma {:induction false} WalkEncoded(buf: seq<Byte>, at: nat, n: nat, entries: seq<Entry>)
    requires Encodable(entries) && n <= |buf| && Holds(buf, at, Encode(entries)) && n == at + |Encode(entries)|
    ensures Walk(StepAt(buf, n), n, at) == Meant(entries)
    decreases |entries|
  {
    if entries == [] {
      assert StepAt(buf, n)(at) == Stop;
    } else {
      var e, last, rest := entries[0], |entries| == 1, entries[1..];
      EntrySize(e, last);
      HoldsSplit(buf, at, PutEntry(e, last), Encode(rest));
      StepOverEntry(buf, n, at, e, last);
      WalkOne(StepAt(buf, n), n, at);
      if last {
        assert Meant(rest) == [];
      } else {
        EncodedNonempty(rest);
        WalkEncoded(buf, at + Size(e), n, rest);
      }
    }
  }

  lemma {:induction false} EncodedNonempty(entries: seq<Entry>)
    requires Encodable(entries) && entries != []
    ensures |Encode(entries)| > 0
  {
  }

  /** The walk over such a buffer, whatever follows it there. */
  lemma {:induction false} WalkReports(entries: seq<Entry>, slack: seq<Byte>, full: seq<Unit> -> string)
    requires Encodable(entries) && |Encode(entries)| < 0x1_0000_0000
    ensures Decoded(Encode(entries) + slack, |Encode(entries)|, full) == Collect(Meant(entries), Report(full))
  {
    var buf := Encode(entries) + slack;
    assert buf[0..|Encode(entries)|] == Encode(entries);
    WalkEncoded(buf, 0, |Encode(entries)|, entries);
  }

  /** On a corrupt buffer the walk ends where the damage is met: at a header or
      a name that does not fit, and after an entry whose distance to the next is
      less than twelve or leads out of the bytes written. */
  lemma WalkEndsAtDamage(buf: seq<Byte>, n: nat, offset: nat)
    requires n <= |buf|
    ensures var changes := Walk(StepAt(buf, n), n, offset);
            && (offset + 12 > n ==> changes == [])
            && (offset + 12 <= n && offset + 12 + U32(buf, offset + 8) > n ==> changes == [])
            && (offset + 12 <= n && (U32(buf, offset) < 12 || offset + U32(buf, offset) >= n) ==> |changes| <= 1)
  {
  }

  // ----- what comes out, in the kernel's own numbers -----

  /** name is what precedes the first NUL of units, or all of it. */
  predicate CutAtNul(name: seq<Unit>, units: seq<Unit>) {
    name <= units && 0 !in name && (|name| < |units| ==> units[|name|] == 0)
  }

  lemma {:induction false} UpToNulCuts(units: seq<Unit>)
    ensures CutAtNul(UpToNul(units), units)
  {
    if units != [] && units[0] != 0 {
      UpToNulCuts(units[1..]);
      assert units == [units[0]] + units[1..];
    }
  }

  /** There is only one such name. */
  lemma {:induction false} UpToNulIs(name: seq<Unit>, units: seq<Unit>)
    requires CutAtNul(name, units)
    ensures UpToNul(units) == name
  {
    if units != [] && units[0] != 0 {
      assert name[0] == units[0];
      UpToNulIs(name[1..], units[1..]);
    }
  }

  /** The path ends in .jsonl, in letters of either case. */
  predicate NamesTranscript(path: string) {
    var n := |path|;
    && n >= 6 && path[n - 6] == '.'
    && (path[n - 5] == 'j' || path[n - 5] == 'J') && (path[n - 4] == 's' || path[n - 4] == 'S')
    && (path[n - 3] == 'o' || path[n - 3] == 'O') && (path[n - 2] == 'n' || path[n - 2] == 'N')
    && (path[n - 1] == 'l' || path[n - 1] == 'L')
  }

  lemma SuffixIgnoresCase(path: string)
    ensures HasSuffix(Lower(path), ".jsonl") <==> NamesTranscript(path)
  {
    var n, low := |path|, Lower(path);
    if n >= 6 {
      assert low[n - 6..] == [low[n - 6], low[n - 5], low[n - 4], low[n - 3], low[n - 2], low[n - 1]];
    }
  }

  /** The paths of the transcripts that an entry adds (1), modifies (3) or
      renames in (5). */
  function Touched(entries: seq<Entry>, names: seq<seq<Unit>>, full: seq<Unit> -> string): seq<string>
    requires |names| == |entries|
  {
    if entries == [] then []
    else
      var action, path := entries[0].action, full(names[0]);
      (if (action == 1 || action == 3 || action == 5) && NamesTranscript(path) then [path] else [])
      + Touched(entries[1..], names[1..], full)
  }

  lemma {:induction false} MeantIsTouched(entries: seq<Entry>, names: seq<seq<Unit>>, full: seq<Unit> -> string)
    requires |names| == |entries| && forall k :: 0 <= k < |entries| ==> CutAtNul(names[k], entries[k].name)
    ensures Collect(Meant(entries), Report(full)) == Touched(entries, names, full)
  {
    if entries != [] {
      UpToNulIs(names[0], entries[0].name);
      SuffixIgnoresCase(full(names[0]));
      MeantIsTouched(entries[1..], names[1..], full);
      assert Meant(entries)[1..] == Meant(entries[1..]);
    }
  }

  /** On a buffer that holds the encoding of a list of changes, decode returns
      exactly the transcripts added, modified or renamed in, each once and in
      order, whatever the padding and whatever follows in the buffer; names are
      what precedes the first NUL of each entry's name. */
  lemma {:induction false} RoundTrip(
      entries: seq<Entry>, names: seq<seq<Unit>>, slack: seq<Byte>, full: seq<Unit> -> string)
    requires Encodable(entries) && |Encode(entries)| < 0x1_0000_0000
    requires |names| == |entries| && forall k :: 0 <= k < |entries| ==> CutAtNul(names[k], entries[k].name)
    ensures Decoded(Encode(entries) + slack, |Encode(entries)|, full) == Touched(entries, names, full)
  {
    WalkReports(entries, slack, full);
    MeantIsTouched(entries, names, full);
  }

  /** On any buffer at all, only transcripts come out. */
  lemma {:induction false} OnlyTranscripts(changes: seq<Change>, full: seq<Unit> -> string, k: nat)
    requires k < |Collect(changes, Report(full))|
    ensures NamesTranscript(Collect(changes, Report(full))[k])
  {
    var here := Report(full)(changes[0]);
    SuffixIgnoresCase(full(changes[0].name));
    if k >= |here| {
      OnlyTranscripts(changes[1..], full, k - |here|);
    }
  }

  /** Numbers are little-endian. */
  lemma LittleEndian(buf: seq<Byte>, at: nat)
    requires at + 4 <= |buf|
    ensures var a: int, b: int, c: int, d: int := buf[at], buf[at + 1], buf[at + 2], buf[at + 3];
            U16(buf, at) == a + 256 * b && U32(buf, at) == a + 256 * b + 65_536 * c + 16_777_216 * d
  {
  }

  /** Two entries as bytes: an S with caron renamed in, two bytes of padding,
      then an a modified. */
  lemma TwoEntries()
    ensures var e, f := Entry(5, [0x160], [7, 9]), Entry(3, [0x61], []);
            Encodable([e, f]) && Encode([e, f])
            == [16, 0, 0, 0, 5, 0, 0, 0, 2, 0, 0, 0, 0x60, 1, 7, 9] + [0, 0, 0, 0, 3, 0, 0, 0, 2, 0, 0, 0, 0x61, 0]
  {
    var e, f := Entry(5, [0x160], [7, 9]), Entry(3, [0x61], []);
    PutTwo(e, f);
    assert [e, f][1..] == [f] && [f][1..] == [];
    assert Encode([f]) == PutEntry(f, true) + [];
    assert Encode([e, f]) == PutEntry(e, false) + Encode([f]);
  }

  lemma PutTwo(e: Entry, f: Entry)
    requires e == Entry(5, [0x160], [7, 9]) && f == Entry(3, [0x61], [])
    ensures PutEntry(e, false) == [16, 0, 0, 0, 5, 0, 0, 0, 2, 0, 0, 0, 0x60, 1, 7, 9]
    ensures PutEntry(f, true) == [0, 0, 0, 0, 3, 0, 0, 0, 2, 0, 0, 0, 0x61, 0]
  {
    assert PutName([0x160]) == [0x60, 1] && PutName([0x61]) == [0x61, 0];
    assert PutU32(16) == [16, 0, 0, 0] && PutU32(0) == [0, 0, 0, 0] && PutU32(2) == [2, 0, 0, 0];
    assert PutU32(5) == [5, 0, 0, 0] && PutU32(3) == [3, 0, 0, 0];
  }
}
