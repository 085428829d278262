/** The turns of a Codex rollout as one read returns them: a turn's model is
    the last one named before it, and a read that starts inside the file takes
    the model to start with from a scan of the file's first 64 KB. */
module CodexReads {
  import opened Schema
  import opened Strings
  import opened EventStore
  import opened ConcurrentIngest
  import opened ExactIngest
  import opened Histories

  datatype Item =
    | Meta(subRun: bool)        // session_meta; thread_source neither "" nor "user"
    | Context(model: string)    // turn_context; "" when it names no model
    | Usage(ordinal: Option<int>, at: int, input: int, cached: int, output: int)   // token_count
    | Other

  /** One line: its bytes with the newline, and those up to the end of its JSON. */
  datatype Entry = Entry(size: nat, text: nat, item: Item)

  predicate WellSized(ls: seq<Entry>) {
    forall k :: 0 <= k < |ls| ==> ls[k].text < ls[k].size
  }

  const HEADER_SCAN_LIMIT: nat := 64 * 1024

  /** Where line k starts. */
  function Offset(ls: seq<Entry>, k: nat): nat
    requires k <= |ls|
  {
    if k == 0 then 0 else Offset(ls, k - 1) + ls[k - 1].size
  }

  // ----- the model a read carries along -----

  datatype Carry = Carry(model: string, subRun: bool)

  const NOTHING := Carry("", false)

  function Next(c: Carry, item: Item): Carry {
    match item
    case Meta(subRun) => c.(subRun := subRun)
    case Context(model) => if model != "" && !c.subRun then c.(model := model) else c
    case _ => c
  }

  /** What lines i to j make of c. */
  function Carried(c: Carry, ls: seq<Entry>, i: nat, j: nat): Carry
    requires i <= j <= |ls|
  {
    if i == j then c else Next(Carried(c, ls, i, j - 1), ls[j - 1].item)
  }

  /** Line k names a model that counts: not "", and not in a sub-run. */
  predicate Names(c: Carry, ls: seq<Entry>, i: nat, k: nat)
    requires i <= k < |ls|
  {
    ls[k].item.Context? && |ls[k].item.model| > 0 && !InSubRun(c, ls, i, k)
  }

  /** The last session_meta before line k tells whether it is in a sub-run. */
  predicate InSubRun(c: Carry, ls: seq<Entry>, i: nat, k: nat)
    requires i <= k <= |ls|
  {
    if i == k then c.subRun
    else if ls[k - 1].item.Meta? then ls[k - 1].item.subRun
    else InSubRun(c, ls, i, k - 1)
  }

  lemma {:induction false} SubRunIs(c: Carry, ls: seq<Entry>, i: nat, j: nat)
    requires i <= j <= |ls|
    ensures Carried(c, ls, i, j).subRun == InSubRun(c, ls, i, j)
  {
    if i < j { SubRunIs(c, ls, i, j - 1); }
  }

  /** The model carried is the last one that a line names outside sub-runs ... */
  lemma {:induction false} ModelIsLastNamed(c: Carry, ls: seq<Entry>, i: nat, j: nat, k: nat)
    requires i <= k < j <= |ls| && Names(c, ls, i, k) && forall l :: k < l < j ==> !Names(c, ls, i, l)
    ensures Carried(c, ls, i, j).model == ls[k].item.model
    decreases j
  {
    SubRunIs(c, ls, i, j - 1);
    if k < j - 1 {
      ModelIsLastNamed(c, ls, i, j - 1, k);
      assert !Names(c, ls, i, j - 1);
    }
  }

  /** ... and the one to start with when none does. */
  lemma {:induction false} ModelStays(c: Carry, ls: seq<Entry>, i: nat, j: nat)
    requires i <= j <= |ls| && forall k :: i <= k < j ==> !Names(c, ls, i, k)
    ensures Carried(c, ls, i, j).model == c.model
  {
    if i < j {
      SubRunIs(c, ls, i, j - 1);
      ModelStays(c, ls, i, j - 1);
      assert !Names(c, ls, i, j - 1);
    }
  }

  /** What stands at line k of the file. */
  function At(ls: seq<Entry>, k: nat): Carry
    requires k <= |ls|
  {
    Carried(NOTHING, ls, 0, k)
  }

  /** How many of the first u lines lie whole in the scanned header. */
  function HeaderLines(ls: seq<Entry>, u: nat): (h: nat)
    requires u <= |ls|
    ensures h <= u
  {
    if u == 0 then 0
    else if Offset(ls, u - 1) + ls[u - 1].text <= HEADER_SCAN_LIMIT then u
    else HeaderLines(ls, u - 1)
  }

  lemma {:induction false} OffsetGrows(ls: seq<Entry>, i: nat, j: nat)
    requires WellSized(ls) && i < j <= |ls|
    ensures Offset(ls, i) + ls[i].text < Offset(ls, j)
  {
    if i < j - 1 { OffsetGrows(ls, i, j - 1); }
  }

  lemma {:induction false} HeaderEnds(ls: seq<Entry>, k: nat, u: nat)
    requires WellSized(ls) && k < u <= |ls| && Offset(ls, k) + ls[k].text > HEADER_SCAN_LIMIT
    ensures HeaderLines(ls, u) == HeaderLines(ls, k)
  {
    if k < u - 1 {
      OffsetGrows(ls, k, u - 1);
      HeaderEnds(ls, k, u - 1);
    }
  }

  /** scanHeaderMeta on a file of u lines; the last may still lack its newline. */
  method ScanHeader(ls: seq<Entry>, u: nat) returns (c: Carry)
    requires WellSized(ls) && u <= |ls|
    ensures c == At(ls, HeaderLines(ls, u))
  {
    c := NOTHING;
    var k, offset := 0, 0;
    while k < u && offset + ls[k].text <= HEADER_SCAN_LIMIT
      invariant k <= u && offset == Offset(ls, k) && c == At(ls, k) && HeaderLines(ls, k) == k
    {
      c := Next(c, ls[k].item);
      offset := offset + ls[k].size;
      k := k + 1;
    }
    if k < u { HeaderEnds(ls, k, u); }
  }

  /** What a read from line f starts with when the file has u lines. */
  function Start(ls: seq<Entry>, f: nat, u: nat): Carry
    requires u <= |ls|
  {
    if f == 0 then NOTHING else At(ls, HeaderLines(ls, u))
  }

  /** The model that read gives line j. */
  function ModelIn(ls: seq<Entry>, f: nat, u: nat, j: nat): string
    requires f <= j <= u <= |ls|
  {
    Carried(Start(ls, f, u), ls, f, j).model
  }

  // ----- rows -----

  function IntText(n: int): string { if n < 0 then "-" + Digits(-n) else Digits(n) }

  function RequestID(sid: string, ordinal: Option<int>, lineStart: nat): string {
    if ordinal.Some? then sid + ":" + IntText(ordinal.value) else sid + ":b" + Digits(lineStart)
  }

  lemma OrdinalHead(sid: string, n: int, b: nat)
    ensures RequestID(sid, Some(n), b)[|sid| + 1..] == IntText(n) && IntText(n) != [] && IntText(n)[0] != 'b'
  {
    DigitsHead(if n < 0 then -n else n);
  }

  /** The key of a line without an ordinal is no other line's. */
  lemma FallbackKeysApart(sid: string, ordinal: Option<int>, a: nat, b: nat)
    requires RequestID(sid, ordinal, a) == RequestID(sid, None, b)
    ensures ordinal.None? && a == b
  {
    var x, y := RequestID(sid, ordinal, a), RequestID(sid, None, b);
    assert y[|sid| + 1..][0] == 'b';
    if ordinal.Some? { OrdinalHead(sid, ordinal.value, b); }
    assert x[|sid| + 2..] == Digits(a) && y[|sid| + 2..] == Digits(b);
    DigitsDiffer(a, b);
  }

  /** The event of a token_count line that starts at a byte. */
  function TurnRow(sid: string, item: Item, lineStart: nat, model: string): Event
    requires item.Usage?
  {
    Event("openai", sid, RequestID(sid, item.ordinal, lineStart), "", item.at, model,
          item.input - item.cached, None, if item.cached > 0 then Some(item.cached) else None, item.output)
  }

  /** Its columns: the input is what was not cached, so the tokens are the line's
      input and output. */
  lemma {:induction false} TurnRowIs(sid: string, item: Item, lineStart: nat, model: string)
    requires item.Usage?
    ensures var r := TurnRow(sid, item, lineStart, model);
      && r.vendor == "openai" && r.sessionID == sid && r.parentID == ""
      && (item.ordinal.Some? && item.ordinal.value >= 0 ==> r.requestID == sid + ":" + Digits(item.ordinal.value))
      && (item.ordinal.Some? && item.ordinal.value < 0 ==> r.requestID == sid + ":-" + Digits(-item.ordinal.value))
      && (item.ordinal.None? ==> r.requestID == sid + ":b" + Digits(lineStart))
      && r.at == item.at && r.model == model && r.cacheWrite == None && r.output == item.output
      && r.cacheRead == (if item.cached > 0 then Some(item.cached) else None) && r.input + item.cached == item.input
      && (item.cached >= 0 ==> AllTokens(r) == item.input + item.output)
  {
    if item.ordinal.Some? && item.ordinal.value < 0 {
      assert sid + ":" + ("-" + Digits(-item.ordinal.value)) == sid + ":-" + Digits(-item.ordinal.value);
    }
  }

  function RowWith(sid: string, ls: seq<Entry>, j: nat, model: string): Event
    requires j < |ls| && ls[j].item.Usage?
  {
    TurnRow(sid, ls[j].item, Offset(ls, j), model)
  }

  function RowsWith(sid: string, ls: seq<Entry>, j: nat, model: string): seq<Event>
    requires j < |ls|
  {
    if ls[j].item.Usage? then [RowWith(sid, ls, j, model)] else []
  }

  function Joined(part: nat -> seq<Event>, f: nat, j: nat): seq<Event>
    requires f <= j
  {
    if f == j then [] else Joined(part, f, j - 1) + part(j - 1)
  }

  lemma {:induction false} JoinedAlike(p: nat -> seq<Event>, q: nat -> seq<Event>, f: nat, j: nat)
    requires f <= j && forall i: nat :: f <= i < j ==> p(i) == q(i)
    ensures Joined(p, f, j) == Joined(q, f, j)
  {
    if f < j { JoinedAlike(p, q, f, j - 1); }
  }

  /** What line i adds to the read from line f of a file of u lines. */
  function ReadPart(sid: string, ls: seq<Entry>, f: nat, u: nat): nat -> seq<Event> {
    (i: nat) => if f <= i < u <= |ls| then RowsWith(sid, ls, i, ModelIn(ls, f, u, i)) else []
  }

  /** The rows of lines f to j in that read. */
  function RowsOfRead(sid: string, ls: seq<Entry>, f: nat, j: nat, u: nat): seq<Event>
    requires f <= j <= u <= |ls|
  {
    Joined(ReadPart(sid, ls, f, u), f, j)
  }

  lemma LineRead(sid: string, ls: seq<Entry>, f: nat, j: nat, u: nat, c: Carry)
    requires f <= j < u <= |ls| && c == Carried(Start(ls, f, u), ls, f, j)
    ensures Carried(Start(ls, f, u), ls, f, j + 1) == Next(c, ls[j].item)
    ensures RowsOfRead(sid, ls, f, j + 1, u) == RowsOfRead(sid, ls, f, j, u) + RowsWith(sid, ls, j, c.model)
  {
  }

  /** The file has n whole lines, and perhaps one more whose newline is to come. */
  predicate Ends(ls: seq<Entry>, n: nat) { n <= |ls| <= n + 1 }

  /** Parse from the start of line f to the end of the last whole line. */
  method Parse(sid: string, ls: seq<Entry>, f: nat, n: nat) returns (events: seq<Event>, offset: nat)
    requires WellSized(ls) && f <= n && Ends(ls, n)
    ensures events == RowsOfRead(sid, ls, f, n, |ls|)
    ensures offset == Offset(ls, n)
  {
    var c := NOTHING;
    if f > 0 {
      c := ScanHeader(ls, |ls|);
    }
    events, offset := [], Offset(ls, f);
    for j := f to n
      invariant offset == Offset(ls, j) && c == Carried(Start(ls, f, |ls|), ls, f, j)
      invariant events == RowsOfRead(sid, ls, f, j, |ls|)
    {
      LineRead(sid, ls, f, j, |ls|, c);
      var lineStart := offset;
      offset := offset + ls[j].size;
      if ls[j].item.Usage? {
        events := events + [TurnRow(sid, ls[j].item, lineStart, c.model)];
      } else {
        c := Next(c, ls[j].item);
      }
    }
  }

  // ----- the file while it grows -----

  lemma {:induction false} OffsetOfPrefix(ls: seq<Entry>, u: nat, k: nat)
    requires k <= u <= |ls|
    ensures Offset(ls[..u], k) == Offset(ls, k)
  {
    if k > 0 { OffsetOfPrefix(ls, u, k - 1); }
  }

  lemma {:induction false} CarriedOfPrefix(c: Carry, ls: seq<Entry>, u: nat, i: nat, j: nat)
    requires i <= j <= u <= |ls|
    ensures Carried(c, ls[..u], i, j) == Carried(c, ls, i, j)
  {
    if i < j { CarriedOfPrefix(c, ls, u, i, j - 1); }
  }

  lemma {:induction false} HeaderOfPrefix(ls: seq<Entry>, u: nat, k: nat)
    requires k <= u <= |ls|
    ensures HeaderLines(ls[..u], k) == HeaderLines(ls, k)
  {
    if k > 0 {
      OffsetOfPrefix(ls, u, k - 1);
      HeaderOfPrefix(ls, u, k - 1);
    }
  }

  lemma ModelOfPrefix(ls: seq<Entry>, f: nat, u: nat, j: nat)
    requires f <= j <= u <= |ls|
    ensures ModelIn(ls[..u], f, u, j) == ModelIn(ls, f, u, j)
  {
    HeaderOfPrefix(ls, u, u);
    CarriedOfPrefix(NOTHING, ls, u, 0, HeaderLines(ls, u));
    CarriedOfPrefix(Start(ls, f, u), ls, u, f, j);
  }

  lemma RowOfPrefix(sid: string, ls: seq<Entry>, u: nat, j: nat, model: string)
    requires j < u <= |ls|
    ensures RowsWith(sid, ls[..u], j, model) == RowsWith(sid, ls, j, model)
  {
    OffsetOfPrefix(ls, u, j);
  }

  lemma LineOfPrefix(sid: string, ls: seq<Entry>, f: nat, u: nat, j: nat)
    requires f <= j < u <= |ls|
    ensures RowsWith(sid, ls[..u], j, ModelIn(ls[..u], f, u, j)) == RowsWith(sid, ls, j, ModelIn(ls, f, u, j))
  {
    ModelOfPrefix(ls, f, u, j);
    RowOfPrefix(sid, ls, u, j, ModelIn(ls, f, u, j));
  }

  /** What Parse returns while the file has u lines, told of the whole file. */
  lemma ReadOfPrefix(sid: string, ls: seq<Entry>, f: nat, j: nat, u: nat)
    requires f <= j <= u <= |ls|
    ensures RowsOfRead(sid, ls[..u], f, j, u) == RowsOfRead(sid, ls, f, j, u)
  {
    var p, q := ReadPart(sid, ls[..u], f, u), ReadPart(sid, ls, f, u);
    forall i: nat | f <= i < j ensures p(i) == q(i) { LineOfPrefix(sid, ls, f, u, i); }
    JoinedAlike(p, q, f, j);
  }

  // ----- one read, and the contract of Parse -----

  /** All columns but the model. */
  function Erased(e: Event): Event { e.(model := "") }

  function PlainPart(sid: string, ls: seq<Entry>): nat -> seq<Event> {
    (i: nat) => if i < |ls| then RowsWith(sid, ls, i, "") else []
  }

  /** The rows of lines f to j without their models. */
  function Plain(sid: string, ls: seq<Entry>, f: nat, j: nat): seq<Event>
    requires f <= j <= |ls|
  {
    Joined(PlainPart(sid, ls), f, j)
  }

  lemma SeenRows(sid: string, ls: seq<Entry>, j: nat, model: string)
    requires j < |ls|
    ensures Seen(Erased, RowsWith(sid, ls, j, model)) == RowsWith(sid, ls, j, "")
  {
  }

  lemma SeenNext(a: seq<Event>, b: seq<Event>, a': seq<Event>, b': seq<Event>)
    requires Seen(Erased, a) == a' && Seen(Erased, b) == b'
    ensures Seen(Erased, a + b) == a' + b'
  {
    SeenJoin(Erased, a, b);
  }

  lemma {:induction false} JoinedSeen(p: nat -> seq<Event>, q: nat -> seq<Event>, f: nat, j: nat)
    requires f <= j && forall i: nat :: f <= i < j ==> Seen(Erased, p(i)) == q(i)
    ensures Seen(Erased, Joined(p, f, j)) == Joined(q, f, j)
  {
    if f < j {
      JoinedSeen(p, q, f, j - 1);
      SeenNext(Joined(p, f, j - 1), p(j - 1), Joined(q, f, j - 1), q(j - 1));
    }
  }

  /** Every read tells the same of a line, but for the model. */
  lemma ReadIsPlain(sid: string, ls: seq<Entry>, f: nat, j: nat, u: nat)
    requires f <= j <= u <= |ls|
    ensures Seen(Erased, RowsOfRead(sid, ls, f, j, u)) == Plain(sid, ls, f, j)
  {
    var p, q := ReadPart(sid, ls, f, u), PlainPart(sid, ls);
    forall i: nat | f <= i < j ensures Seen(Erased, p(i)) == q(i) { SeenRows(sid, ls, i, ModelIn(ls, f, u, i)); }
    JoinedSeen(p, q, f, j);
  }

  lemma {:induction false} JoinedSplit(p: nat -> seq<Event>, i: nat, f: nat, j: nat)
    requires i <= f <= j
    ensures Joined(p, i, j) == Joined(p, i, f) + Joined(p, f, j)
  {
    if f < j { JoinedSplit(p, i, f, j - 1); }
  }

  lemma PlainSplit(sid: string, ls: seq<Entry>, i: nat, f: nat, j: nat)
    requires i <= f <= j <= |ls|
    ensures Plain(sid, ls, i, j) == Plain(sid, ls, i, f) + Plain(sid, ls, f, j)
  {
    JoinedSplit(PlainPart(sid, ls), i, f, j);
  }

  /** The first n lines with the rows one straight read gives them. */
  function Lines(sid: string, ls: seq<Entry>, n: nat): seq<Line>
    requires n <= |ls|
  {
    if n == 0 then [] else Lines(sid, ls, n - 1) + [LineOf(sid, ls, n - 1)]
  }

  function LineOf(sid: string, ls: seq<Entry>, j: nat): Line
    requires j < |ls|
  {
    Line(ls[j].size, RowsWith(sid, ls, j, At(ls, j).model))
  }

  lemma {:induction false} LinesArePlain(sid: string, ls: seq<Entry>, n: nat)
    requires n <= |ls|
    ensures Seen(Erased, Rows(Lines(sid, ls, n))) == Plain(sid, ls, 0, n)
    ensures Bytes(Lines(sid, ls, n)) == Offset(ls, n)
  {
    if n > 0 {
      var before, l := Lines(sid, ls, n - 1), LineOf(sid, ls, n - 1);
      LinesArePlain(sid, ls, n - 1);
      RowsOfAppend(before, l);
      AppendBytes(before, l);
      SeenRows(sid, ls, n - 1, At(ls, n - 1).model);
      SeenNext(Rows(before), l.rows, Plain(sid, ls, 0, n - 1), RowsWith(sid, ls, n - 1, ""));
    }
  }

  lemma {:induction false} RowsBelowLine(sid: string, ls: seq<Entry>, f: nat, n: nat)
    requires WellSized(ls) && f <= n <= |ls|
    ensures RowsBelow(Lines(sid, ls, n), Offset(ls, f)) == Rows(Lines(sid, ls, f))
    ensures Offset(ls, f) <= Bytes(Lines(sid, ls, n))
  {
    if f == n {
      LinesArePlain(sid, ls, n);
      AllBelowTheEnd(Lines(sid, ls, n));
    } else {
      var before, l := Lines(sid, ls, n - 1), LineOf(sid, ls, n - 1);
      RowsBelowLine(sid, ls, f, n - 1);
      AppendKeepsBelow(before, l, Offset(ls, f));
      assert Lines(sid, ls, n) == before + [l];
    }
  }

  /** What the exactness results ask of a read, seen without the model, holds of
      every read of this adapter. */
  lemma {:induction false} ReadsAsSeen(sid: string, ls: seq<Entry>, f: nat, n: nat)
    requires WellSized(ls) && f <= n && Ends(ls, n)
    ensures IsView(Erased)
    ensures Seen(Erased, RowsOfRead(sid, ls, f, n, |ls|)) == Seen(Erased, RowsFrom(Lines(sid, ls, n), Offset(ls, f)))
  {
    var from := RowsFrom(Lines(sid, ls, n), Offset(ls, f));
    RowsBelowLine(sid, ls, f, n);
    ReadIsPlain(sid, ls, f, n, |ls|);
    PlainSplit(sid, ls, 0, f, n);
    LinesArePlain(sid, ls, f);
    LinesArePlain(sid, ls, n);
    RowsSplit(Lines(sid, ls, n), Offset(ls, f));
    SeenRest(Rows(Lines(sid, ls, f)), from, Plain(sid, ls, 0, f), Plain(sid, ls, f, n));
  }

  lemma SeenRest(a: seq<Event>, b: seq<Event>, a': seq<Event>, b': seq<Event>)
    requires Seen(Erased, a + b) == a' + b' && Seen(Erased, a) == a'
    ensures Seen(Erased, b) == b'
  {
    SeenJoin(Erased, a, b);
    assert (a' + b')[|a'|..] == b' && (Seen(Erased, a) + Seen(Erased, b))[|a'|..] == Seen(Erased, b);
  }

  /** And it keeps the contract of Parse. */
  lemma {:induction false} KeepsContract(sid: string, ls: seq<Entry>, f: nat, n: nat)
    requires WellSized(ls) && f <= n && Ends(ls, n)
    ensures Faithful(RowsFrom(Lines(sid, ls, n), Offset(ls, f)), RowsOfRead(sid, ls, f, n, |ls|))
  {
    ReadsAsSeen(sid, ls, f, n);
    SeenIsFaithful(Erased, RowsFrom(Lines(sid, ls, n), Offset(ls, f)), RowsOfRead(sid, ls, f, n, |ls|));
  }

  lemma SeenIsFaithful(view: View, lines: seq<Event>, rows: seq<Event>)
    requires IsView(view) && Seen(view, lines) == Seen(view, rows)
    ensures Faithful(lines, rows)
  {
    assert |lines| == |rows|;
    forall i | 0 <= i < |lines| ensures Dominated(lines[i], rows) && Stands(rows[i], lines) {
      assert view(lines[i]) == Seen(view, lines)[i] == view(rows[i]);
    }
  }

  // ----- many reads -----

  /** How many lines each read's header scan could see: its whole lines, and
      perhaps one more whose newline was to come. */
  predicate Heads(ls: seq<Entry>, history: seq<Read>, heads: seq<nat>) {
    && |heads| == |history|
    && forall i :: 0 <= i < |heads| ==> history[i].upto <= heads[i] <= |ls| && heads[i] <= history[i].upto + 1
  }

  /** A history of n whole lines. */
  predicate Reads(ls: seq<Entry>, n: nat, history: seq<Read>, heads: seq<nat>) {
    Ends(ls, n) && Complete(history, n) && Heads(ls, history, heads)
  }

  /** The table after the reads of a history, each of the file as it then was
      (ReadOfPrefix). */
  function Stored(sid: string, t: Table, ls: seq<Entry>, n: nat, history: seq<Read>, heads: seq<nat>, c: nat): Table
    requires Contiguous(history, c, n) && Heads(ls, history, heads)
    decreases |history|
  {
    if history == [] then t
    else
      var r := history[0];
      var read := RowsOfRead(sid, ls, r.from, r.upto, heads[0]);
      Stored(sid, UpsertAll(t, read), ls, n, history[1..], heads[1..], Reached(c, r))
  }

  /** One read of the n whole lines. */
  function Straight(sid: string, ls: seq<Entry>, n: nat): Table
    requires n <= |ls|
  {
    UpsertAll(map[], RowsOfRead(sid, ls, 0, n, n))
  }

  predicate IsUsage(ls: seq<Entry>, j: nat) { j < |ls| && ls[j].item.Usage? }

  function KeyAt(sid: string, ls: seq<Entry>, j: nat): Key
    requires IsUsage(ls, j)
  {
    Key("openai", sid, RequestID(sid, ls[j].item.ordinal, Offset(ls, j)))
  }

  function OutputAt(ls: seq<Entry>, j: nat): int
    requires IsUsage(ls, j)
  {
    ls[j].item.output
  }

  /** j reaches, as the first, the largest output its key has in the first c lines. */
  ghost predicate Wins(sid: string, ls: seq<Entry>, j: nat, c: nat) {
    && IsUsage(ls, j) && j < c
    && (forall i: nat :: i < c && IsUsage(ls, i) && KeyAt(sid, ls, i) == KeyAt(sid, ls, j) ==>
      OutputAt(ls, i) <= OutputAt(ls, j))
    && (forall i: nat :: i < j && IsUsage(ls, i) && KeyAt(sid, ls, i) == KeyAt(sid, ls, j) ==>
      OutputAt(ls, i) < OutputAt(ls, j))
  }

  /** e is the row of line j in some read. */
  ghost predicate IsRowOf(sid: string, ls: seq<Entry>, j: nat, e: Event) {
    && IsUsage(ls, j)
    && exists f: nat, u: nat :: f <= j < u <= |ls| && e == RowIn(sid, ls, f, u, j)
  }

  function RowIn(sid: string, ls: seq<Entry>, f: nat, u: nat, j: nat): Event
    requires IsUsage(ls, j) && f <= j < u <= |ls|
  {
    RowWith(sid, ls, j, ModelIn(ls, f, u, j))
  }

  /** Every key of the first c lines is stored as its winner's row in some read. */
  ghost predicate HoldsWinners(sid: string, ls: seq<Entry>, t: Table, c: nat) {
    HoldsKeys(sid, ls, t, c) && OnlyWinners(sid, ls, t, c)
  }

  ghost predicate HoldsKeys(sid: string, ls: seq<Entry>, t: Table, c: nat) {
    forall j: nat :: j < c && IsUsage(ls, j) ==> KeyAt(sid, ls, j) in t
  }

  ghost predicate OnlyWinners(sid: string, ls: seq<Entry>, t: Table, c: nat) {
    forall k :: k in t ==> HeldByWinner(sid, ls, t[k], k, c)
  }

  ghost predicate HeldByWinner(sid: string, ls: seq<Entry>, e: Event, k: Key, c: nat) {
    exists j: nat :: Wins(sid, ls, j, c) && KeyAt(sid, ls, j) == k && IsRowOf(sid, ls, j, e)
  }

  lemma RowFacts(sid: string, ls: seq<Entry>, j: nat, model: string)
    requires IsUsage(ls, j)
    ensures KeyOf(RowWith(sid, ls, j, model)) == KeyAt(sid, ls, j)
        && RowWith(sid, ls, j, model).output == OutputAt(ls, j)
    ensures Erased(RowWith(sid, ls, j, model)) == RowWith(sid, ls, j, "")
  {
  }

  lemma StillWins(sid: string, ls: seq<Entry>, j: nat, c: nat)
    requires Wins(sid, ls, j, c) && c < |ls|
    requires IsUsage(ls, c) && KeyAt(sid, ls, c) == KeyAt(sid, ls, j) ==> OutputAt(ls, c) <= OutputAt(ls, j)
    ensures Wins(sid, ls, j, c + 1)
  {
  }

  lemma WinnerKept(sid: string, ls: seq<Entry>, e: Event, k: Key, c: nat)
    requires HeldByWinner(sid, ls, e, k, c) && c < |ls|
    requires IsUsage(ls, c) && KeyAt(sid, ls, c) == k ==> OutputAt(ls, c) <= e.output
    ensures HeldByWinner(sid, ls, e, k, c + 1)
  {
    var j: nat :| Wins(sid, ls, j, c) && KeyAt(sid, ls, j) == k && IsRowOf(sid, ls, j, e);
    RowOutput(sid, ls, j, e);
    StillWins(sid, ls, j, c);
  }

  /** The winner's output bounds those of its key. */
  lemma WinnerBounds(sid: string, ls: seq<Entry>, e: Event, k: Key, c: nat, i: nat)
    requires HeldByWinner(sid, ls, e, k, c) && i < c && IsUsage(ls, i) && KeyAt(sid, ls, i) == k
    ensures OutputAt(ls, i) <= e.output
  {
    var j: nat :| Wins(sid, ls, j, c) && KeyAt(sid, ls, j) == k && IsRowOf(sid, ls, j, e);
  }

  lemma NewWinner(sid: string, ls: seq<Entry>, t: Table, f: nat, u: nat, c: nat)
    requires HoldsWinners(sid, ls, t, c) && f <= c < u <= |ls| && IsUsage(ls, c)
    requires var k := KeyAt(sid, ls, c); k in t ==> t[k].output < OutputAt(ls, c)
    ensures HeldByWinner(sid, ls, RowIn(sid, ls, f, u, c), KeyAt(sid, ls, c), c + 1)
  {
    var k := KeyAt(sid, ls, c);
    forall i: nat | i < c && IsUsage(ls, i) && KeyAt(sid, ls, i) == k ensures OutputAt(ls, i) < OutputAt(ls, c) {
      WinnerBounds(sid, ls, t[k], k, c, i);
    }
    assert Wins(sid, ls, c, c + 1);
    assert IsRowOf(sid, ls, c, RowIn(sid, ls, f, u, c));
  }

  // A read, line by line.

  function LineInto(sid: string, t: Table, ls: seq<Entry>, j: nat, model: string): Table
    requires j < |ls|
  {
    if IsUsage(ls, j) then Upsert(t, RowWith(sid, ls, j, model)) else t
  }

  function UpsertParts(t: Table, part: nat -> seq<Event>, f: nat, j: nat): Table
    requires f <= j
  {
    if f == j then t else UpsertAll(UpsertParts(t, part, f, j - 1), part(j - 1))
  }

  function ReadInto(sid: string, t: Table, ls: seq<Entry>, f: nat, j: nat, u: nat): Table
    requires f <= j <= u <= |ls|
  {
    UpsertParts(t, ReadPart(sid, ls, f, u), f, j)
  }

  lemma ReadIntoStep(sid: string, t: Table, ls: seq<Entry>, f: nat, j: nat, u: nat)
    requires f <= j < u <= |ls|
    ensures ReadInto(sid, t, ls, f, j + 1, u)
      == LineInto(sid, ReadInto(sid, t, ls, f, j, u), ls, j, ModelIn(ls, f, u, j))
  {
    UpsertRows(sid, ReadInto(sid, t, ls, f, j, u), ls, j, ModelIn(ls, f, u, j));
  }

  lemma {:induction false} UpsertRows(sid: string, t: Table, ls: seq<Entry>, j: nat, model: string)
    requires j < |ls|
    ensures UpsertAll(t, RowsWith(sid, ls, j, model)) == LineInto(sid, t, ls, j, model)
  {
    var rows := RowsWith(sid, ls, j, model);
    if IsUsage(ls, j) {
      assert rows[1..] == [];
      assert UpsertAll(t, rows) == UpsertAll(Upsert(t, rows[0]), rows[1..]);
    }
  }

  lemma {:induction false} UpsertJoined(t: Table, part: nat -> seq<Event>, f: nat, j: nat)
    requires f <= j
    ensures UpsertAll(t, Joined(part, f, j)) == UpsertParts(t, part, f, j)
  {
    if f < j {
      UpsertJoined(t, part, f, j - 1);
      UpsertNext(t, Joined(part, f, j - 1), part(j - 1), UpsertParts(t, part, f, j - 1), UpsertParts(t, part, f, j));
    }
  }

  lemma {:induction false} ReadIntoIs(sid: string, t: Table, ls: seq<Entry>, f: nat, j: nat, u: nat)
    requires f <= j <= u <= |ls|
    ensures UpsertAll(t, RowsOfRead(sid, ls, f, j, u)) == ReadInto(sid, t, ls, f, j, u)
  {
    UpsertJoined(t, ReadPart(sid, ls, f, u), f, j);
  }

  lemma {:induction false} UpsertNext(t: Table, a: seq<Event>, b: seq<Event>, t': Table, t'': Table)
    requires UpsertAll(t, a) == t' && UpsertAll(t', b) == t''
    ensures UpsertAll(t, a + b) == t''
  {
    UpsertAppend(t, a, b);
  }

  /** A line that writes nothing: without a row, or with too small an output. */
  lemma IdleLineHeld(sid: string, ls: seq<Entry>, t: Table, c: nat)
    requires HoldsWinners(sid, ls, t, c) && c < |ls|
    requires IsUsage(ls, c) ==> KeyAt(sid, ls, c) in t && OutputAt(ls, c) <= t[KeyAt(sid, ls, c)].output
    ensures HoldsWinners(sid, ls, t, c + 1)
  {
    forall k | k in t ensures HeldByWinner(sid, ls, t[k], k, c + 1) {
      WinnerKept(sid, ls, t[k], k, c);
    }
  }

  lemma WritingLineHeld(sid: string, ls: seq<Entry>, t: Table, f: nat, u: nat, c: nat)
    requires HoldsWinners(sid, ls, t, c) && f <= c < u <= |ls| && IsUsage(ls, c)
    requires var k := KeyAt(sid, ls, c); k in t ==> t[k].output < OutputAt(ls, c)
    ensures HoldsWinners(sid, ls, t[KeyAt(sid, ls, c) := RowIn(sid, ls, f, u, c)], c + 1)
  {
    NewWinner(sid, ls, t, f, u, c);
    WrittenKeys(sid, ls, t, c, RowIn(sid, ls, f, u, c));
    WrittenWinners(sid, ls, t, c, RowIn(sid, ls, f, u, c));
  }

  lemma WrittenKeys(sid: string, ls: seq<Entry>, t: Table, c: nat, e: Event)
    requires HoldsKeys(sid, ls, t, c) && IsUsage(ls, c)
    ensures HoldsKeys(sid, ls, t[KeyAt(sid, ls, c) := e], c + 1)
  {
  }

  lemma WrittenWinners(sid: string, ls: seq<Entry>, t: Table, c: nat, e: Event)
    requires OnlyWinners(sid, ls, t, c) && IsUsage(ls, c) && HeldByWinner(sid, ls, e, KeyAt(sid, ls, c), c + 1)
    ensures OnlyWinners(sid, ls, t[KeyAt(sid, ls, c) := e], c + 1)
  {
    var key := KeyAt(sid, ls, c);
    forall k | k in t && k != key ensures HeldByWinner(sid, ls, t[k], k, c + 1) {
      WinnerKept(sid, ls, t[k], k, c);
    }
  }

  lemma NewLineHeld(sid: string, ls: seq<Entry>, t: Table, f: nat, u: nat, c: nat)
    requires HoldsWinners(sid, ls, t, c) && f <= c < u <= |ls|
    ensures HoldsWinners(sid, ls, LineInto(sid, t, ls, c, ModelIn(ls, f, u, c)), c + 1)
  {
    if !IsUsage(ls, c) {
      IdleLineHeld(sid, ls, t, c);
    } else {
      RowFacts(sid, ls, c, ModelIn(ls, f, u, c));
      var k := KeyAt(sid, ls, c);
      if k in t && OutputAt(ls, c) <= t[k].output {
        IdleLineHeld(sid, ls, t, c);
      } else {
        WritingLineHeld(sid, ls, t, f, u, c);
      }
    }
  }

  lemma OldLineIdle(sid: string, ls: seq<Entry>, t: Table, j: nat, model: string, c: nat)
    requires HoldsKeys(sid, ls, t, c) && OnlyWinners(sid, ls, t, c) && j < c && j < |ls|
    ensures LineInto(sid, t, ls, j, model) == t
  {
    if IsUsage(ls, j) {
      RowFacts(sid, ls, j, model);
      WinnerBounds(sid, ls, t[KeyAt(sid, ls, j)], KeyAt(sid, ls, j), c, j);
    }
  }

  lemma OldLineHeld(sid: string, ls: seq<Entry>, t: Table, j: nat, model: string, c: nat)
    requires HoldsWinners(sid, ls, t, c) && j < c && j < |ls|
    ensures HoldsWinners(sid, ls, LineInto(sid, t, ls, j, model), c)
  {
    OldLineIdle(sid, ls, t, j, model, c);
  }

  lemma LineHeld(sid: string, ls: seq<Entry>, t: Table, f: nat, u: nat, j: nat, c: nat, c': nat)
    requires HoldsWinners(sid, ls, t, c) && f <= j < u <= |ls| && j <= c && c' == Max(c, j + 1)
    ensures HoldsWinners(sid, ls, LineInto(sid, t, ls, j, ModelIn(ls, f, u, j)), c')
  {
    if j < c { OldLineHeld(sid, ls, t, j, ModelIn(ls, f, u, j), c); } else { NewLineHeld(sid, ls, t, f, u, j); }
  }

  /** What every line keeps, the read keeps. */
  lemma {:induction false} ReadKeeps(
      sid: string, ls: seq<Entry>, t: Table, c: nat, f: nat, j: nat, u: nat, keeps: (Table, nat) -> bool)
    requires keeps(t, c) && f <= c && f <= j <= u <= |ls|
    requires forall t: Table, i: nat, c: nat :: f <= i < u && i <= c && keeps(t, c) ==>
        keeps(LineInto(sid, t, ls, i, ModelIn(ls, f, u, i)), Max(c, i + 1))
    ensures keeps(ReadInto(sid, t, ls, f, j, u), Max(c, j))
  {
    if f < j {
      ReadKeeps(sid, ls, t, c, f, j - 1, u, keeps);
      ReadIntoStep(sid, t, ls, f, j - 1, u);
      var before := ReadInto(sid, t, ls, f, j - 1, u);
      assert keeps(LineInto(sid, before, ls, j - 1, ModelIn(ls, f, u, j - 1)), Max(Max(c, j - 1), j));
    }
  }

  lemma {:induction false} ReadHolds(sid: string, ls: seq<Entry>, t: Table, c: nat, f: nat, j: nat, u: nat)
    requires HoldsWinners(sid, ls, t, c) && f <= c && f <= j <= u <= |ls|
    ensures HoldsWinners(sid, ls, ReadInto(sid, t, ls, f, j, u), Max(c, j))
  {
    var keeps := (t: Table, c: nat) => HoldsWinners(sid, ls, t, c);
    forall t: Table, i: nat, c: nat | f <= i < u && i <= c && keeps(t, c)
      ensures keeps(LineInto(sid, t, ls, i, ModelIn(ls, f, u, i)), Max(c, i + 1))
    {
      LineHeld(sid, ls, t, f, u, i, c, Max(c, i + 1));
    }
    ReadKeeps(sid, ls, t, c, f, j, u, keeps);
  }

  lemma {:induction false} StoredHolds(
    sid: string, t: Table, ls: seq<Entry>, n: nat, history: seq<Read>, heads: seq<nat>, c: nat)
    requires HoldsWinners(sid, ls, t, c) && Contiguous(history, c, n) && Heads(ls, history, heads)
    ensures HoldsWinners(sid, ls, Stored(sid, t, ls, n, history, heads, c), Covered(history, c))
    decreases |history|
  {
    if history != [] {
      var r := history[0];
      ReadHolds(sid, ls, t, c, r.from, r.upto, heads[0]);
      ReadIntoIs(sid, t, ls, r.from, r.upto, heads[0]);
      var t' := UpsertAll(t, RowsOfRead(sid, ls, r.from, r.upto, heads[0]));
      StoredHolds(sid, t', ls, n, history[1..], heads[1..], Reached(c, r));
    }
  }

  lemma NothingHeld(sid: string, ls: seq<Entry>)
    ensures HoldsWinners(sid, ls, map[], 0)
  {
  }

  lemma StraightHolds(sid: string, ls: seq<Entry>, n: nat)
    requires n <= |ls|
    ensures HoldsWinners(sid, ls, Straight(sid, ls, n), n)
  {
    NothingHeld(sid, ls);
    ReadHolds(sid, ls, map[], 0, 0, n, n);
    ReadIntoIs(sid, map[], ls, 0, n, n);
  }

  lemma SameWinner(sid: string, ls: seq<Entry>, i: nat, j: nat, c: nat)
    requires Wins(sid, ls, i, c) && Wins(sid, ls, j, c) && KeyAt(sid, ls, i) == KeyAt(sid, ls, j)
    ensures i == j
  {
  }

  /** A table that holds every line's winner and one that does hold the same
      keys, and under each two rows of one line. */
  lemma SameLine(sid: string, ls: seq<Entry>, t: Table, t': Table, k: Key, c: nat) returns (j: nat)
    requires HoldsWinners(sid, ls, t, c) && HoldsWinners(sid, ls, t', c) && k in t
    ensures k in t' && Wins(sid, ls, j, c) && KeyAt(sid, ls, j) == k
    ensures IsRowOf(sid, ls, j, t[k]) && IsRowOf(sid, ls, j, t'[k])
  {
    assert HeldByWinner(sid, ls, t[k], k, c);
    j :| Wins(sid, ls, j, c) && KeyAt(sid, ls, j) == k && IsRowOf(sid, ls, j, t[k]);
    assert HeldByWinner(sid, ls, t'[k], k, c);
    var i: nat :| Wins(sid, ls, i, c) && KeyAt(sid, ls, i) == k && IsRowOf(sid, ls, i, t'[k]);
    SameWinner(sid, ls, i, j, c);
  }

  lemma ErasedRow(sid: string, ls: seq<Entry>, j: nat, e: Event)
    requires IsRowOf(sid, ls, j, e)
    ensures Erased(e) == RowWith(sid, ls, j, "")
  {
  }

  lemma KeysAlike(sid: string, ls: seq<Entry>, t: Table, t': Table, c: nat)
    requires HoldsWinners(sid, ls, t, c) && HoldsWinners(sid, ls, t', c)
    ensures t.Keys == t'.Keys
  {
    forall k | k in t ensures k in t' { var _ := SameLine(sid, ls, t, t', k, c); }
    forall k | k in t' ensures k in t { var _ := SameLine(sid, ls, t', t, k, c); }
  }

  lemma WinnersAlike(sid: string, ls: seq<Entry>, t: Table, t': Table, c: nat)
    requires HoldsWinners(sid, ls, t, c) && HoldsWinners(sid, ls, t', c)
    ensures SeenTable(Erased, t) == SeenTable(Erased, t')
  {
    KeysAlike(sid, ls, t, t', c);
    forall k | k in t ensures Erased(t[k]) == Erased(t'[k]) {
      SameButModel(sid, ls, t, t', k, c);
    }
    TablesAlike(Erased, t, t');
  }

  lemma SameButModel(sid: string, ls: seq<Entry>, t: Table, t': Table, k: Key, c: nat)
    requires HoldsWinners(sid, ls, t, c) && HoldsWinners(sid, ls, t', c) && k in t && k in t'
    ensures Erased(t[k]) == Erased(t'[k])
  {
    var j := SameLine(sid, ls, t, t', k, c);
    ErasedRow(sid, ls, j, t[k]);
    ErasedRow(sid, ls, j, t'[k]);
  }

  lemma TablesAlike(view: View, t: Table, t': Table)
    requires t.Keys == t'.Keys && forall k :: k in t ==> view(t[k]) == view(t'[k])
    ensures SeenTable(view, t) == SeenTable(view, t')
  {
    assert forall k :: k in t <==> k in t';
  }

  /** However the reads were cut and repeated: the keys are those of one straight
      read, and so is every column but the model. */
  lemma {:induction false} OnlyModelsDepend(sid: string, ls: seq<Entry>, n: nat, history: seq<Read>, heads: seq<nat>)
    requires Reads(ls, n, history, heads)
    ensures SeenTable(Erased, Stored(sid, map[], ls, n, history, heads, 0)) == SeenTable(Erased, Straight(sid, ls, n))
  {
    NothingHeld(sid, ls);
    StoredHolds(sid, map[], ls, n, history, heads, 0);
    StraightHolds(sid, ls, n);
    WinnersAlike(sid, ls, Stored(sid, map[], ls, n, history, heads, 0), Straight(sid, ls, n), n);
  }

  // ----- the model -----

  /** Line j gets, in every read that meets it, the model in force at j. */
  ghost predicate SameModel(ls: seq<Entry>, j: nat)
    requires j < |ls|
  {
    forall f: nat, u: nat :: f <= j < u <= |ls| ==> ModelIn(ls, f, u, j) == At(ls, j).model
  }

  ghost predicate WinnersKeepModel(sid: string, ls: seq<Entry>, n: nat) {
    forall j: nat :: Wins(sid, ls, j, n) ==> SameModel(ls, j)
  }

  lemma StraightRow(sid: string, ls: seq<Entry>, j: nat, e: Event)
    requires IsUsage(ls, j) && SameModel(ls, j) && IsRowOf(sid, ls, j, e)
    ensures e == RowIn(sid, ls, 0, |ls|, j)
  {
    var f: nat, u: nat :| f <= j < u <= |ls| && e == RowIn(sid, ls, f, u, j);
  }

  lemma {:induction false} ModelsKept(sid: string, ls: seq<Entry>, n: nat, history: seq<Read>, heads: seq<nat>)
    requires Reads(ls, n, history, heads) && WinnersKeepModel(sid, ls, n)
    ensures Stored(sid, map[], ls, n, history, heads, 0) == Straight(sid, ls, n)
  {
    var t, t' := Stored(sid, map[], ls, n, history, heads, 0), Straight(sid, ls, n);
    NothingHeld(sid, ls);
    StoredHolds(sid, map[], ls, n, history, heads, 0);
    StraightHolds(sid, ls, n);
    KeysAlike(sid, ls, t, t', n);
    forall k | k in t ensures t[k] == t'[k] {
      var j := SameLine(sid, ls, t, t', k, n);
      StraightRow(sid, ls, j, t[k]);
      StraightRow(sid, ls, j, t'[k]);
    }
  }

  /** t holds the row of line j that a read of lines f to u gives it. */
  predicate HoldsRow(sid: string, ls: seq<Entry>, t: Table, f: nat, u: nat, j: nat)
    requires IsUsage(ls, j) && f <= j < u <= |ls|
  {
    KeyAt(sid, ls, j) in t && t[KeyAt(sid, ls, j)] == RowIn(sid, ls, f, u, j)
  }

  lemma {:induction false} PartsKeep(
      t: Table, part: nat -> seq<Event>, f: nat, i: nat, j: nat, keeps: Table -> bool)
    requires f <= i <= j && keeps(UpsertParts(t, part, f, i))
    requires forall t: Table, k: nat :: i <= k < j && keeps(t) ==> keeps(UpsertAll(t, part(k)))
    ensures keeps(UpsertParts(t, part, f, j))
  {
    if i < j { PartsKeep(t, part, f, i, j - 1, keeps); }
  }

  /** Nothing in a read replaces the winner's row. */
  lemma WinnerStays(
      sid: string, ls: seq<Entry>, t: Table, f: nat, i: nat, j: nat, u: nat, f': nat, u': nat, w: nat, n: nat)
    requires Wins(sid, ls, w, n) && f <= i <= j <= u <= |ls| && j <= n && f' <= w < u' <= |ls|
    requires HoldsRow(sid, ls, ReadInto(sid, t, ls, f, i, u), f', u', w)
    ensures HoldsRow(sid, ls, ReadInto(sid, t, ls, f, j, u), f', u', w)
  {
    var part := ReadPart(sid, ls, f, u);
    var keeps := (t': Table) => HoldsRow(sid, ls, t', f', u', w);
    forall t': Table, k: nat | i <= k < j && keeps(t') ensures keeps(UpsertAll(t', part(k))) {
      LineSpares(sid, ls, t', k, ModelIn(ls, f, u, k), f', u', w, n);
      UpsertRows(sid, t', ls, k, ModelIn(ls, f, u, k));
    }
    PartsKeep(t, part, f, i, j, keeps);
  }

  lemma LineSpares(sid: string, ls: seq<Entry>, t: Table, j: nat, model: string, f': nat, u': nat, w: nat, n: nat)
    requires Wins(sid, ls, w, n) && j < n && j < |ls| && f' <= w < u' <= |ls| && HoldsRow(sid, ls, t, f', u', w)
    ensures HoldsRow(sid, ls, LineInto(sid, t, ls, j, model), f', u', w)
  {
    RowFacts(sid, ls, w, ModelIn(ls, f', u', w));
    if IsUsage(ls, j) { RowFacts(sid, ls, j, model); }
  }

  /** The read that meets the winner first stores its row. */
  lemma WinnerStored(sid: string, ls: seq<Entry>, t: Table, c: nat, f: nat, u: nat, w: nat, n: nat)
    requires HoldsWinners(sid, ls, t, c) && Wins(sid, ls, w, n) && f <= c <= w < u <= |ls|
    ensures HoldsRow(sid, ls, ReadInto(sid, t, ls, f, w + 1, u), f, u, w)
  {
    ReadHolds(sid, ls, t, c, f, w, u);
    ReadIntoStep(sid, t, ls, f, w, u);
    LargerReplaces(sid, ls, ReadInto(sid, t, ls, f, w, u), f, u, w, n);
  }

  lemma LargerReplaces(sid: string, ls: seq<Entry>, t: Table, f: nat, u: nat, w: nat, n: nat)
    requires HoldsWinners(sid, ls, t, w) && Wins(sid, ls, w, n) && f <= w < u <= |ls|
    ensures HoldsRow(sid, ls, LineInto(sid, t, ls, w, ModelIn(ls, f, u, w)), f, u, w)
  {
    var k := KeyAt(sid, ls, w);
    RowFacts(sid, ls, w, ModelIn(ls, f, u, w));
    if k in t {
      assert HeldByWinner(sid, ls, t[k], k, w);
      var i: nat :| Wins(sid, ls, i, w) && KeyAt(sid, ls, i) == k && IsRowOf(sid, ls, i, t[k]);
      RowOutput(sid, ls, i, t[k]);
    }
  }

  lemma RowOutput(sid: string, ls: seq<Entry>, j: nat, e: Event)
    requires IsRowOf(sid, ls, j, e)
    ensures e.output == OutputAt(ls, j)
  {
  }

  function ThreeReads(f: nat, u: nat, n: nat): seq<Read> { [Read(0, f), Read(f, u), Read(u, n)] }

  lemma ThreeReadsComplete(f: nat, u: nat, n: nat)
    requires f <= u <= n
    ensures Complete(ThreeReads(f, u, n), n)
  {
    var h := ThreeReads(f, u, n);
    assert h[1..] == [Read(f, u), Read(u, n)] && [Read(f, u), Read(u, n)][1..] == [Read(u, n)]
      && [Read(u, n)][1..] == [];
    assert Contiguous([Read(u, n)], u, n) by { assert Contiguous([], n, n); }
    assert Contiguous([Read(f, u), Read(u, n)], f, n);
    assert Covered([Read(u, n)], u) == Covered([], n);
    assert Covered([Read(f, u), Read(u, n)], f) == n;
    assert Reached(0, h[0]) == f;
  }

  lemma {:induction false} StoredNext(
      sid: string, t: Table, ls: seq<Entry>, n: nat, r: Read, rest: seq<Read>, u: nat, heads: seq<nat>, c: nat)
    requires Contiguous([r] + rest, c, n) && Heads(ls, [r] + rest, [u] + heads)
    ensures Contiguous(rest, Reached(c, r), n) && Heads(ls, rest, heads)
    ensures Stored(sid, t, ls, n, [r] + rest, [u] + heads, c)
         == Stored(sid, ReadInto(sid, t, ls, r.from, r.upto, u), ls, n, rest, heads, Reached(c, r))
  {
    assert ([r] + rest)[1..] == rest && ([u] + heads)[1..] == heads;
    forall i | 0 <= i < |heads| ensures rest[i].upto <= heads[i] <= |ls| && heads[i] <= rest[i].upto + 1 {
      assert ([r] + rest)[i + 1] == rest[i] && ([u] + heads)[i + 1] == heads[i];
    }
    ReadIntoIs(sid, t, ls, r.from, r.upto, u);
  }

  lemma ThreeHeads(ls: seq<Entry>, n: nat, f: nat, upto: nat, u: nat)
    requires f <= upto <= n && Ends(ls, n) && upto <= u <= |ls| && u <= upto + 1
    ensures Reads(ls, n, ThreeReads(f, upto, n), [f, u, n])
    ensures ThreeReads(f, upto, n) == [Read(0, f)] + ([Read(f, upto)] + ([Read(upto, n)] + []))
    ensures [f, u, n] == [f] + ([u] + ([n] + []))
  {
    ThreeReadsComplete(f, upto, n);
  }

  /** Lines f to upto are read while the header shows u lines. */
  lemma {:induction false} ThreeReadsStore(sid: string, ls: seq<Entry>, n: nat, f: nat, upto: nat, u: nat)
    requires f <= upto <= n && Ends(ls, n) && upto <= u <= |ls| && u <= upto + 1
    ensures Reads(ls, n, ThreeReads(f, upto, n), [f, u, n])
    ensures Stored(sid, map[], ls, n, ThreeReads(f, upto, n), [f, u, n], 0)
      == ReadInto(sid, ReadInto(sid, ReadInto(sid, map[], ls, 0, f, f), ls, f, upto, u), ls, upto, n, n)
  {
    ThreeHeads(ls, n, f, upto, u);
    var t1 := ReadInto(sid, map[], ls, 0, f, f);
    var t2 := ReadInto(sid, t1, ls, f, upto, u);
    StoredNext(sid, map[], ls, n, Read(0, f), [Read(f, upto)] + ([Read(upto, n)] + []), f, [u] + ([n] + []), 0);
    StoredNext(sid, t1, ls, n, Read(f, upto), [Read(upto, n)] + [], u, [n] + [], f);
    StoredNext(sid, t2, ls, n, Read(upto, n), [], n, [], upto);
  }

  function WholeLines(u: nat, n: nat): nat { if u < n then u else n }

  /** When some read would give the winner w another model, a history with that
      read stores it. */
  lemma {:induction false} ModelShows(sid: string, ls: seq<Entry>, n: nat, f: nat, u: nat, w: nat)
    requires Ends(ls, n) && Wins(sid, ls, w, n) && f <= w < u <= |ls| && ModelIn(ls, f, u, w) != At(ls, w).model
    ensures Reads(ls, n, ThreeReads(f, WholeLines(u, n), n), [f, u, n])
    ensures Stored(sid, map[], ls, n, ThreeReads(f, WholeLines(u, n), n), [f, u, n], 0) != Straight(sid, ls, n)
  {
    var upto := WholeLines(u, n);
    var t1 := ReadInto(sid, map[], ls, 0, f, f);
    var t2 := ReadInto(sid, t1, ls, f, upto, u);
    NothingHeld(sid, ls);
    ReadHolds(sid, ls, map[], 0, 0, f, f);
    WinnerLasts(sid, ls, t1, f, f, upto, u, w, n);
    WinnerStays(sid, ls, t2, upto, upto, n, n, f, u, w, n);
    WinnerLasts(sid, ls, map[], 0, 0, n, n, w, n);
    ReadIntoIs(sid, map[], ls, 0, n, n);
    ThreeReadsStore(sid, ls, n, f, upto, u);
  }

  /** The whole read that meets the winner first stores its row. */
  lemma {:induction false} WinnerLasts(
    sid: string, ls: seq<Entry>, t: Table, c: nat, f: nat, upto: nat, u: nat, w: nat, n: nat)
    requires HoldsWinners(sid, ls, t, c) && Wins(sid, ls, w, n) && f <= c <= w < upto <= u <= |ls| && upto <= n
    ensures HoldsRow(sid, ls, ReadInto(sid, t, ls, f, upto, u), f, u, w)
  {
    WinnerStored(sid, ls, t, c, f, u, w, n);
    WinnerStays(sid, ls, t, f, w + 1, upto, u, f, u, w, n);
  }

  /** However the file is read, an unterminated last line in sight or not, all of
      it is stored as one straight read does. */
  ghost predicate ReadsDoNotMatter(sid: string, ls: seq<Entry>, n: nat)
    requires n <= |ls|
  {
    forall history, heads :: Reads(ls, n, history, heads) ==>
      Stored(sid, map[], ls, n, history, heads, 0) == Straight(sid, ls, n)
  }

  /** Every history of reads stores what one straight read does, models included,
      if and only if every row that is stored in the end gets, in every read that
      meets its line, the model in force there. */
  lemma {:induction false} ModelsIgnoreReadsIff(sid: string, ls: seq<Entry>, n: nat)
    requires Ends(ls, n)
    ensures ReadsDoNotMatter(sid, ls, n) <==> WinnersKeepModel(sid, ls, n)
  {
    if WinnersKeepModel(sid, ls, n) {
      forall history, heads | Reads(ls, n, history, heads)
        ensures Stored(sid, map[], ls, n, history, heads, 0) == Straight(sid, ls, n)
      {
        ModelsKept(sid, ls, n, history, heads);
      }
    } else {
      var w: nat :| Wins(sid, ls, w, n) && !SameModel(ls, w);
      var f: nat, u: nat :| f <= w < u <= |ls| && ModelIn(ls, f, u, w) != At(ls, w).model;
      ModelShows(sid, ls, n, f, u, w);
    }
  }

  // ----- a rollout as Codex writes it: one session_meta, on the first line -----

  predicate MetaFirst(ls: seq<Entry>) {
    && (ls != [] ==> ls[0].text <= HEADER_SCAN_LIMIT)
    && (forall k :: 0 < k < |ls| ==> !ls[k].item.Meta?)
  }

  lemma {:induction false} HeaderHasFirst(ls: seq<Entry>, u: nat)
    requires MetaFirst(ls) && 0 < u <= |ls|
    ensures HeaderLines(ls, u) > 0
  {
    if u == 1 {
      assert Offset(ls, 0) == 0;
    } else {
      HeaderHasFirst(ls, u - 1);
    }
  }

  lemma {:induction false} CarriedSplit(c: Carry, ls: seq<Entry>, i: nat, f: nat, j: nat)
    requires i <= f <= j <= |ls|
    ensures Carried(Carried(c, ls, i, f), ls, f, j) == Carried(c, ls, i, j)
  {
    if f < j { CarriedSplit(c, ls, i, f, j - 1); }
  }

  /** Behind the first line two carries come to the same model or keep their own. */
  lemma {:induction false} CarriedAlike(c: Carry, d: Carry, ls: seq<Entry>, i: nat, j: nat)
    requires MetaFirst(ls) && 0 < i <= j <= |ls| && c.subRun == d.subRun
    ensures Carried(c, ls, i, j).subRun == c.subRun && Carried(d, ls, i, j).subRun == c.subRun
    ensures Carried(c, ls, i, j).model == Carried(d, ls, i, j).model
         || (Carried(c, ls, i, j).model == c.model && Carried(d, ls, i, j).model == d.model)
  {
    if i < j { CarriedAlike(c, d, ls, i, j - 1); }
  }

  lemma SubRunFixed(ls: seq<Entry>, k: nat)
    requires MetaFirst(ls) && 0 < k <= |ls|
    ensures At(ls, k).subRun == At(ls, 1).subRun
  {
    CarriedSplit(NOTHING, ls, 0, 1, k);
    CarriedAlike(At(ls, 1), At(ls, 1), ls, 1, k);
  }

  /** From any length the file has behind line j, the header names the model
      in force at j. */
  ghost predicate HeaderAgrees(ls: seq<Entry>, j: nat)
    requires j < |ls|
  {
    forall u: nat :: j < u <= |ls| ==> At(ls, HeaderLines(ls, u)).model == At(ls, j).model
  }

  lemma {:induction false} ModelFromHeader(ls: seq<Entry>, f: nat, u: nat, j: nat)
    requires MetaFirst(ls) && 0 < f <= j < u <= |ls|
    requires At(ls, HeaderLines(ls, u)).model == At(ls, j).model
    ensures ModelIn(ls, f, u, j) == At(ls, j).model
  {
    var h := HeaderLines(ls, u);
    HeaderHasFirst(ls, u);
    SubRunFixed(ls, h);
    SubRunFixed(ls, f);
    CarriedSplit(NOTHING, ls, 0, f, j);
    CarriedAlike(At(ls, h), At(ls, f), ls, f, j);
  }

  lemma SameModelIff(ls: seq<Entry>, j: nat)
    requires MetaFirst(ls) && j < |ls|
    ensures SameModel(ls, j) <==> (j > 0 ==> HeaderAgrees(ls, j))
  {
    if SameModel(ls, j) && j > 0 {
      forall u: nat | j < u <= |ls| ensures At(ls, HeaderLines(ls, u)).model == At(ls, j).model {
        assert ModelIn(ls, j, u, j) == At(ls, j).model;
      }
    }
    if j > 0 ==> HeaderAgrees(ls, j) {
      forall f: nat, u: nat | f <= j < u <= |ls| ensures ModelIn(ls, f, u, j) == At(ls, j).model {
        if f > 0 { ModelFromHeader(ls, f, u, j);
      }
      }
    }
  }

  ghost predicate WinnersAgreeWithHeader(sid: string, ls: seq<Entry>, n: nat) {
    forall j: nat :: 0 < j && Wins(sid, ls, j, n) ==> HeaderAgrees(ls, j)
  }

  /** For such a rollout: if and only if, for every row stored in the end, the
      scanned header names the row's model as soon as its line is written and
      ever after. */
  lemma {:induction false} ModelsIgnoreReadsIffHeader(sid: string, ls: seq<Entry>, n: nat)
    requires MetaFirst(ls) && Ends(ls, n)
    ensures ReadsDoNotMatter(sid, ls, n) <==> WinnersAgreeWithHeader(sid, ls, n)
  {
    ModelsIgnoreReadsIff(sid, ls, n);
    forall j: nat | Wins(sid, ls, j, n) ensures SameModel(ls, j) <==> (j > 0 ==> HeaderAgrees(ls, j)) {
      SameModelIff(ls, j);
    }
  }

  /** Two models, one turn each. */
  const SWITCHED: seq<Entry> := [
    Entry(100, 99, Context("gpt-a")), Entry(100, 99, Usage(None, 1, 10, 0, 5)),
    Entry(100, 99, Context("gpt-b")), Entry(100, 99, Usage(None, 2, 10, 0, 5))]

  /** A read that starts behind the first line gives the first turn the second model. */
  lemma {:induction false} SwitchedModelIsLost(sid: string)
    ensures Reads(SWITCHED, 4, ThreeReads(1, 4, 4), [1, 4, 4])
    ensures Stored(sid, map[], SWITCHED, 4, ThreeReads(1, 4, 4), [1, 4, 4], 0) != Straight(sid, SWITCHED, 4)
  {
    SwitchedModels();
    assert Offset(SWITCHED, 1) == 100;
    assert Offset(SWITCHED, 3) == 300 by { assert Offset(SWITCHED, 2) == 200; }
    if KeyAt(sid, SWITCHED, 1) == KeyAt(sid, SWITCHED, 3) { FallbackKeysApart(sid, None, 100, 300); }
    assert Wins(sid, SWITCHED, 1, 4);
    ModelShows(sid, SWITCHED, 4, 1, 4, 1);
  }

  lemma SwitchedModels()
    ensures ModelIn(SWITCHED, 1, 4, 1) == "gpt-b" && At(SWITCHED, 1).model == "gpt-a"
  {
    var ls := SWITCHED;
    assert Offset(ls, 1) == 100;
    assert Offset(ls, 2) == 200;
    assert Offset(ls, 3) == 300;
    assert HeaderLines(ls, 4) == 4;
    assert At(ls, 1) == Carry("gpt-a", false);
    assert At(ls, 2) == Carry("gpt-a", false);
    assert At(ls, 3) == Carry("gpt-b", false);
    assert At(ls, 4) == Carry("gpt-b", false);
  }
}
