/** Whole runs of sampling and polling: what the page holds, however many of its
    calls overlap, stall or get lost. */
module HistoryRun {
  import opened HistorySync

  datatype Kind = Sys | Groups

  /** One call of the page. */
  datatype Call =
    | Asked(cursor: int)
    | Answered(rows: seq<Row>, full: bool, now: int, seen: nat)   // of the first seen rows sampled; not yet at the page
    | Settled                                                     // applied, dropped as late, or lost

  /** Everything sampled so far, where the server's buffer starts in it (it is
      all[start..]), and the page: its ring, its calls in order and the last one
      applied; got and shown are that answer's seen and now. */
  datatype Peer = Peer(
    all: seq<Row>, start: nat, clock: int,
    ring: seq<Row>, calls: seq<Call>, applied: nat, got: nat, shown: int)

  datatype Happening =
    | Sample(at: int, batch: seq<Row>, cutoff: int)  // one tick appends its rows, if any, and prunes to the cutoff
    | Ask                                            // the page sends the newest time it holds
    | Answer(i: nat, now: int)                       // the server computes the answer
    | Arrive(i: nat)                                 // the page applies it, unless a later call's was applied
    | Lose(i: nat)

  /** The start of the window of that many milliseconds that ends at t. */
  function Start(t: int, window: int): int { t - window * 1_000_000 }

  const Init := Peer([], 0, 0, [], [], 0, 0, 0)

  /** All rows of one tick carry one time, in a later millisecond than any
      before; the clock does not go back; the buffer is never pruned to less
      than the page's window; and calls are answered in the order they were made. */
  predicate Enabled(p: Peer, h: Happening, window: int) {
    match h
    case Sample(at, batch, cutoff) =>
      && at >= p.clock && cutoff <= Start(at, window) && OneTick(batch)
      && (p.all != [] && batch != [] ==> Ms(batch[0].ts) > Ms(p.all[|p.all| - 1].ts))
    case Ask => true
    case Answer(i, now) => now >= p.clock && i < |p.calls| && p.calls[i].Asked? && NoneAsked(p.calls, i)
    case Arrive(i) => i < |p.calls| && p.calls[i].Answered?
    case Lose(i) => i < |p.calls|
  }

  predicate OneTick(batch: seq<Row>) {
    forall i :: 0 <= i < |batch| ==> batch[i].ts == batch[0].ts && Ms(batch[i].ts) > 0
  }

  predicate NoneAsked(calls: seq<Call>, n: nat)
    requires n <= |calls|
  {
    forall j :: 0 <= j < n ==> !calls[j].Asked?
  }

  predicate Full(kind: Kind, buf: seq<Row>, cursorMs: int, windowStart: int) {
    if kind.Sys? then SysFull(buf, cursorMs, windowStart) else GroupsFull(buf, cursorMs)
  }

  /** What SysHistSince and GroupsHistSince return. */
  function RowsFor(kind: Kind, buf: seq<Row>, cursorMs: int, windowStart: int): seq<Row> {
    if !Full(kind, buf, cursorMs, windowStart) then buf[NewerFrom(buf, cursorMs)..]
    else if kind.Sys? then NotBefore(buf, windowStart)
    else buf
  }

  function AnswerTo(p: Peer, cursor: int, now: int, kind: Kind, window: int): Call
    requires p.start <= |p.all|
  {
    var buf, ws := p.all[p.start..], Start(now, window);
    Answered(RowsFor(kind, buf, cursor, ws), Full(kind, buf, cursor, ws), now, |p.all|)
  }

  /** absorbHistory: merge, then prune to the window of the answer's now. */
  function Absorb(ring: seq<Row>, c: Call, window: int): seq<Row>
    requires c.Answered?
  {
    PruneRing(MergeRing(ring, c.rows, c.full), Ms(c.now) - window)
  }

  function Apply(p: Peer, h: Happening, kind: Kind, window: int): (p': Peer)
    requires p.start <= |p.all| && Enabled(p, h, window)
    ensures p'.start <= |p'.all|
  {
    match h
    case Sample(at, batch, cutoff) =>
      var all := p.all + batch;
      p.(all := all, start := p.start + FrontOlder(all[p.start..], cutoff), clock := at)
    case Ask => p.(calls := p.calls + [Asked(NewestMs(p.ring))])
    case Answer(i, now) => p.(calls := p.calls[i := AnswerTo(p, p.calls[i].cursor, now, kind, window)], clock := now)
    case Arrive(i) =>
      var c, calls := p.calls[i], p.calls[i := Settled];
      if i < p.applied then p.(calls := calls)
      else p.(calls := calls, ring := Absorb(p.ring, c, window), applied := i, got := c.seen, shown := c.now)
    case Lose(i) => p.(calls := p.calls[i := Settled])
  }

  predicate IsRun(p: Peer, hs: seq<Happening>, kind: Kind, window: int)
    requires p.start <= |p.all|
    decreases |hs|
  {
    hs == [] || (Enabled(p, hs[0], window) && IsRun(Apply(p, hs[0], kind, window), hs[1..], kind, window))
  }

  function After(p: Peer, hs: seq<Happening>, kind: Kind, window: int): (p': Peer)
    requires p.start <= |p.all| && IsRun(p, hs, kind, window)
    ensures p'.start <= |p'.all|
    decreases |hs|
  {
    if hs == [] then p else After(Apply(p, hs[0], kind, window), hs[1..], kind, window)
  }

  /** What the server answers, by kind: when it is full, and what it holds then. */
  lemma {:induction false} AnswerIs(p: Peer, cursor: int, now: int, kind: Kind, window: int)
    requires p.start <= |p.all|
    ensures var c, buf, ws := AnswerTo(p, cursor, now, kind, window), p.all[p.start..], now - window * 1_000_000;
      && c.now == now && c.seen == |p.all|
      && (kind.Sys? ==>
            && (c.full <==> cursor <= 0 || |buf| == 0 || cursor < ws / 1_000_000
                            || buf[|buf| - 1].ts / 1_000_000 < cursor)
            && c.rows == if c.full then NotBefore(buf, ws) else buf[NewerFrom(buf, cursor)..])
      && (kind.Groups? ==>
            && (c.full <==> cursor <= 0 || |buf| == 0 || cursor < buf[0].ts / 1_000_000
                            || buf[|buf| - 1].ts / 1_000_000 < cursor)
            && c.rows == if c.full then buf else buf[NewerFrom(buf, cursor)..])
  {
  }

  /** An answer that comes after a later call's, or not at all, changes nothing the
      page holds, and is out of the way. */
  lemma LateIsDropped(p: Peer, i: nat, kind: Kind, window: int)
    requires p.start <= |p.all| && i < |p.calls|
    ensures Apply(p, Lose(i), kind, window) == p.(calls := p.calls[i := Settled])
    ensures p.calls[i].Answered? && i < p.applied ==>
      Apply(p, Arrive(i), kind, window) == p.(calls := p.calls[i := Settled])
  {
  }

  /** A tick appends its rows, and the buffer starts anew at the first row that is
      not older than the cutoff. */
  lemma SampleIs(p: Peer, at: int, batch: seq<Row>, cutoff: int, kind: Kind, window: int)
    requires p.start <= |p.all| && Enabled(p, Sample(at, batch, cutoff), window)
    ensures var p' := Apply(p, Sample(at, batch, cutoff), kind, window);
      && p'.all == p.all + batch && p'.clock == at && p.start <= p'.start
      && (forall i :: p.start <= i < p'.start ==> p'.all[i].ts < cutoff)
      && (p'.start < |p'.all| ==> p'.all[p'.start].ts >= cutoff)
  {
    var all := p.all + batch;
    FrontOlderIs(all[p.start..], cutoff);
    var p' := Apply(p, Sample(at, batch, cutoff), kind, window);
    forall i | p.start <= i < p'.start ensures p'.all[i].ts < cutoff {
      assert all[p.start..][i - p.start] == all[i];
    }
  }

  // ----- prefixes and suffixes -----

  predicate InOrder(rows: seq<Row>) {
    forall i, j :: 0 <= i <= j < |rows| ==> rows[i].ts <= rows[j].ts
  }

  lemma {:induction false} FrontOlderIs(rows: seq<Row>, cutoff: int)
    ensures forall i :: 0 <= i < FrontOlder(rows, cutoff) ==> rows[i].ts < cutoff
    ensures FrontOlder(rows, cutoff) < |rows| ==> rows[FrontOlder(rows, cutoff)].ts >= cutoff
  {
    if rows != [] && rows[0].ts < cutoff { FrontOlderIs(rows[1..], cutoff); }
  }

  lemma {:induction false} FrontBeforeIs(rows: seq<Row>, cutoffMs: int)
    ensures forall i :: 0 <= i < FrontBefore(rows, cutoffMs) ==> Ms(rows[i].ts) < cutoffMs
    ensures FrontBefore(rows, cutoffMs) < |rows| ==> Ms(rows[FrontBefore(rows, cutoffMs)].ts) >= cutoffMs
  {
    if rows != [] && Ms(rows[0].ts) < cutoffMs { FrontBeforeIs(rows[1..], cutoffMs); }
  }

  lemma {:induction false} NewerFromIs(rows: seq<Row>, ms: int)
    ensures var k := NewerFrom(rows, ms);
            && (forall i :: k <= i < |rows| ==> Ms(rows[i].ts) > ms)
            && (k > 0 ==> Ms(rows[k - 1].ts) <= ms)
    decreases |rows|
  {
    if rows != [] && Ms(rows[|rows| - 1].ts) > ms { NewerFromIs(rows[..|rows| - 1], ms); }
  }

  lemma {:induction false} NewerThanAll(rows: seq<Row>, ms: int)
    requires forall i :: 0 <= i < |rows| ==> Ms(rows[i].ts) > ms
    ensures NewerThan(rows, ms) == rows
    decreases |rows|
  {
    if rows != [] {
      var init, last := rows[..|rows| - 1], rows[|rows| - 1];
      assert rows == init + [last];
      NewerThanAll(init, ms);
    }
  }

  lemma {:induction false} NotBeforeAll(rows: seq<Row>, windowStart: int)
    requires forall i :: 0 <= i < |rows| ==> rows[i].ts >= windowStart
    ensures NotBefore(rows, windowStart) == rows
    decreases |rows|
  {
    if rows != [] {
      var init, last := rows[..|rows| - 1], rows[|rows| - 1];
      assert rows == init + [last];
      NotBeforeAll(init, windowStart);
    }
  }

  lemma {:induction false} NotBeforeNone(rows: seq<Row>, windowStart: int)
    requires forall i :: 0 <= i < |rows| ==> rows[i].ts < windowStart
    ensures NotBefore(rows, windowStart) == []
    decreases |rows|
  {
    if rows != [] { NotBeforeNone(rows[..|rows| - 1], windowStart); }
  }

  lemma {:induction false} NotBeforeSplit(a: seq<Row>, b: seq<Row>, windowStart: int)
    ensures NotBefore(a + b, windowStart) == NotBefore(a, windowStart) + NotBefore(b, windowStart)
    decreases |b|
  {
    if b == [] {
      assert a + b == a;
    } else {
      assert (a + b)[..|a + b| - 1] == a + b[..|b| - 1];
      NotBeforeSplit(a, b[..|b| - 1], windowStart);
    }
  }

  /** Older rows before r and no older row after it: the filter keeps the suffix. */
  lemma {:induction false} SuffixIsFilter(rows: seq<Row>, r: nat, windowStart: int)
    requires r <= |rows|
    requires forall i :: 0 <= i < r ==> rows[i].ts < windowStart
    requires forall i :: r <= i < |rows| ==> rows[i].ts >= windowStart
    ensures NotBefore(rows, windowStart) == rows[r..]
  {
    assert rows == rows[..r] + rows[r..];
    NotBeforeSplit(rows[..r], rows[r..], windowStart);
    NotBeforeNone(rows[..r], windowStart);
    NotBeforeAll(rows[r..], windowStart);
  }

  lemma InOrderAppend(rows: seq<Row>, batch: seq<Row>)
    requires InOrder(rows) && OneTick(batch)
    requires rows != [] && batch != [] ==> rows[|rows| - 1].ts <= batch[0].ts
    ensures InOrder(rows + batch)
  {
  }

  /** Filtering a suffix of rows in order gives a later suffix. */
  lemma FilterSuffix(rows: seq<Row>, start: nat, windowStart: int) returns (k: nat)
    requires InOrder(rows) && start <= |rows| && forall i :: 0 <= i < start ==> rows[i].ts < windowStart
    ensures k <= |rows| && NotBefore(rows[start..], windowStart) == rows[k..]
    ensures forall i :: 0 <= i < k ==> rows[i].ts < windowStart
  {
    var buf := rows[start..];
    var f := FrontOlder(buf, windowStart);
    FrontOlderIs(buf, windowStart);
    k := start + f;
    SuffixIsFilter(buf, f, windowStart);
    assert buf[f..] == rows[k..];
    forall i | 0 <= i < k ensures rows[i].ts < windowStart {
      if i >= start { assert buf[i - start] == rows[i];
    }
    }
  }

  /** The scan from the newest row stops exactly behind the last row held. */
  lemma NewerFromTick(rows: seq<Row>, start: nat, m: nat)
    requires InOrder(rows) && WholeTicks(rows, m) && start <= m && m > 0
    ensures NewerFrom(rows[start..], Ms(rows[m - 1].ts)) == m - start
  {
    var buf := rows[start..];
    NewerFromIs(buf, Ms(rows[m - 1].ts));
    assert forall i :: 0 <= i < |buf| ==> buf[i] == rows[start + i];
  }

  /** Pruning a suffix at the window start gives the later suffix that begins in
      the window start's millisecond. */
  lemma PruneSuffix(rows: seq<Row>, k: nat, now: int, window: int) returns (r: nat)
    requires InOrder(rows) && k <= |rows| && forall i :: 0 <= i < k ==> rows[i].ts < Start(now, window)
    ensures r <= |rows| && PruneRing(rows[k..], Ms(now) - window) == rows[r..]
    ensures forall i :: 0 <= i < r ==> rows[i].ts < Start(now, window)
    ensures forall i :: k <= i < r ==> Ms(rows[i].ts) < Ms(Start(now, window))
    ensures forall i :: r <= i < |rows| ==> Ms(rows[i].ts) >= Ms(Start(now, window))
  {
    var ring, ws := rows[k..], Start(now, window);
    assert Ms(ws) == Ms(now) - window;
    var f := FrontBefore(ring, Ms(ws));
    FrontBeforeIs(ring, Ms(ws));
    r := k + f;
    assert ring[f..] == rows[r..];
    forall i | 0 <= i < r ensures rows[i].ts < ws {
      if i >= k {
        assert ring[i - k] == rows[i];
        MsMonotone(rows[i].ts, ws);
      }
    }
    forall i | r <= i < |rows| ensures Ms(rows[i].ts) >= Ms(ws) {
      assert ring[f] == rows[r];
      MsMonotone(rows[r].ts, rows[i].ts);
    }
  }

  lemma MsMonotone(a: int, b: int)
    ensures a <= b ==> Ms(a) <= Ms(b)
    ensures Ms(a) < Ms(b) ==> a < b
  {
  }

  // ----- the invariant -----

  /** No tick is split at m. */
  predicate WholeTicks(all: seq<Row>, m: nat) {
    m <= |all| && (0 < m < |all| ==> Ms(all[m].ts) > Ms(all[m - 1].ts))
  }

  predicate Positive(all: seq<Row>) {
    forall i :: 0 <= i < |all| ==> Ms(all[i].ts) > 0
  }

  /** The first k rows are older than t. */
  predicate Older(all: seq<Row>, k: nat, t: int) {
    k <= |all| && forall i :: 0 <= i < k ==> all[i].ts < t
  }

  /** The cursor is the time of the last of the first q rows. */
  predicate CursorAt(all: seq<Row>, cursor: int, q: nat) {
    0 < q && WholeTicks(all, q) && cursor == Ms(all[q - 1].ts)
  }

  ghost predicate AskFits(all: seq<Row>, got: nat, cursor: int) {
    cursor == 0 || exists q: nat :: q <= got && CursorAt(all, cursor, q)
  }

  /** The answer's rows start at lo and go on to the last row it saw. */
  predicate RowsFrom(all: seq<Row>, got: nat, c: Call, lo: nat, window: int)
    requires c.Answered?
  {
    && lo <= c.seen <= |all| && c.rows == all[lo..c.seen]
    && (if c.full then Older(all, lo, Start(c.now, window)) else lo <= got)
  }

  ghost predicate AnswerFits(all: seq<Row>, got: nat, shown: int, c: Call, kind: Kind, window: int)
    requires c.Answered?
  {
    && got <= c.seen && WholeTicks(all, c.seen) && shown <= c.now
    && (exists lo: nat :: RowsFrom(all, got, c, lo, window))
    && (kind.Sys? && c.full ==> forall i :: 0 <= i < |c.rows| ==> c.rows[i].ts >= Start(c.now, window))
  }

  /** A call that may still be applied. */
  ghost predicate CallFits(p: Peer, c: Call, kind: Kind, window: int) {
    match c
    case Asked(cursor) => AskFits(p.all, p.got, cursor)
    case Answered(_, _, now, _) => AnswerFits(p.all, p.got, p.shown, c, kind, window) && now <= p.clock
    case Settled => true
  }

  /** Answers were computed in call order. */
  predicate Ordered(c: Call, d: Call) {
    && (c.Asked? ==> !d.Answered?)
    && (c.Answered? && d.Answered? ==> c.seen <= d.seen && c.now <= d.now)
  }

  ghost predicate CallsFit(p: Peer, kind: Kind, window: int) {
    && (forall i :: p.applied <= i < |p.calls| ==> CallFits(p, p.calls[i], kind, window))
    && (forall i, j :: p.applied <= i < j < |p.calls| ==> Ordered(p.calls[i], p.calls[j]))
  }

  /** The ring is the received rows from r on; those before are out of its window. */
  predicate RingFrom(p: Peer, r: nat, window: int) {
    r <= p.got <= |p.all| && p.ring == p.all[r..p.got] && Older(p.all, r, Start(p.shown, window))
  }

  predicate Sampled(p: Peer, window: int) {
    InOrder(p.all) && Positive(p.all) && Older(p.all, p.start, Start(p.clock, window))
  }

  ghost predicate Inv(p: Peer, kind: Kind, window: int) {
    && Sampled(p, window) && WholeTicks(p.all, p.got) && p.shown <= p.clock
    && (exists r: nat :: RingFrom(p, r, window))
    && CallsFit(p, kind, window)
  }

  // ----- a tick -----

  predicate Extends(all: seq<Row>, batch: seq<Row>) {
    OneTick(batch) && (all != [] && batch != [] ==> Ms(batch[0].ts) > Ms(all[|all| - 1].ts))
  }

  lemma TicksGrow(all: seq<Row>, batch: seq<Row>, m: nat)
    requires WholeTicks(all, m) && Extends(all, batch)
    ensures WholeTicks(all + batch, m)
  {
  }

  lemma SliceOfAppend(a: seq<Row>, b: seq<Row>, r: nat, m: nat)
    requires r <= m <= |a|
    ensures (a + b)[r..m] == a[r..m]
  {
  }

  lemma {:induction false} PruneExpires(all: seq<Row>, start: nat, cutoff: int)
    requires start <= |all|
    ensures var start' := start + FrontOlder(all[start..], cutoff);
            start' <= |all| && forall i :: start <= i < start' ==> all[i].ts < cutoff
  {
    var tail := all[start..];
    FrontOlderIs(tail, cutoff);
    forall i | start <= i < start + FrontOlder(tail, cutoff) ensures all[i].ts < cutoff {
      assert tail[i - start] == all[i];
    }
  }

  lemma SampledMore(p: Peer, h: Happening, kind: Kind, window: int)
    requires Sampled(p, window) && h.Sample? && Enabled(p, h, window)
    ensures Sampled(Apply(p, h, kind, window), window)
  {
    PruneExpires(p.all + h.batch, p.start, h.cutoff);
    if p.all != [] && h.batch != [] { MsMonotone(h.batch[0].ts, p.all[|p.all| - 1].ts); }
    InOrderAppend(p.all, h.batch);
  }

  lemma AskGrows(all: seq<Row>, batch: seq<Row>, got: nat, cursor: int)
    requires AskFits(all, got, cursor) && Extends(all, batch) && got <= |all|
    ensures AskFits(all + batch, got, cursor)
  {
    if cursor != 0 {
      var q: nat :| q <= got && CursorAt(all, cursor, q);
      TicksGrow(all, batch, q);
      assert CursorAt(all + batch, cursor, q);
    }
  }

  lemma AnswerGrows(all: seq<Row>, batch: seq<Row>, got: nat, shown: int, c: Call, kind: Kind, window: int)
    requires c.Answered? && AnswerFits(all, got, shown, c, kind, window) && Extends(all, batch)
    ensures AnswerFits(all + batch, got, shown, c, kind, window)
  {
    var lo: nat :| RowsFrom(all, got, c, lo, window);
    TicksGrow(all, batch, c.seen);
    SliceOfAppend(all, batch, lo, c.seen);
    assert RowsFrom(all + batch, got, c, lo, window);
  }

  lemma CallGrows(p: Peer, h: Happening, kind: Kind, window: int, c: Call)
    requires h.Sample? && Enabled(p, h, window) && p.start <= |p.all| && p.got <= |p.all|
        && CallFits(p, c, kind, window)
    ensures CallFits(Apply(p, h, kind, window), c, kind, window)
  {
    match c
    case Asked(cursor) => AskGrows(p.all, h.batch, p.got, cursor);
    case Answered(_, _, _, _) => AnswerGrows(p.all, h.batch, p.got, p.shown, c, kind, window);
    case Settled =>
  }

  lemma SampleKeepsInv(p: Peer, h: Happening, kind: Kind, window: int)
    requires Inv(p, kind, window) && h.Sample? && Enabled(p, h, window)
    ensures Inv(Apply(p, h, kind, window), kind, window)
  {
    var p' := Apply(p, h, kind, window);
    SampledMore(p, h, kind, window);
    TicksGrow(p.all, h.batch, p.got);
    var r: nat :| RingFrom(p, r, window);
    SliceOfAppend(p.all, h.batch, r, p.got);
    assert RingFrom(p', r, window);
    forall i | p'.applied <= i < |p'.calls| ensures CallFits(p', p'.calls[i], kind, window) {
      CallGrows(p, h, kind, window, p.calls[i]);
    }
  }

  // ----- a call -----

  lemma NewestFits(all: seq<Row>, ring: seq<Row>, r: nat, got: nat)
    requires r <= got && WholeTicks(all, got) && ring == all[r..got]
    ensures AskFits(all, got, NewestMs(ring))
  {
    if r < got { assert CursorAt(all, NewestMs(ring), got); }
  }

  lemma AskKeepsInv(p: Peer, kind: Kind, window: int)
    requires Inv(p, kind, window)
    ensures Inv(Apply(p, Ask, kind, window), kind, window)
  {
    var r: nat :| RingFrom(p, r, window);
    NewestFits(p.all, p.ring, r, p.got);
    var p' := p.(calls := p.calls + [Asked(NewestMs(p.ring))]);
    assert RingFrom(p', r, window);
    AskedFits(p, kind, window, NewestMs(p.ring));
  }

  lemma AskedFits(p: Peer, kind: Kind, window: int, cursor: int)
    requires CallsFit(p, kind, window) && AskFits(p.all, p.got, cursor)
    ensures CallsFit(p.(calls := p.calls + [Asked(cursor)]), kind, window)
  {
    var p' := p.(calls := p.calls + [Asked(cursor)]);
    forall i | p'.applied <= i < |p'.calls| ensures CallFits(p', p'.calls[i], kind, window) {
      if i < |p.calls| { assert CallFits(p, p.calls[i], kind, window);
    }
    }
  }

  /** A full answer is the buffer from some row on; what is before is out of the window. */
  lemma FullFits(p: Peer, cursor: int, now: int, kind: Kind, window: int)
    requires Sampled(p, window) && now >= p.clock && Full(kind, p.all[p.start..], cursor, Start(now, window))
    ensures var c := AnswerTo(p, cursor, now, kind, window);
            && (exists lo: nat :: RowsFrom(p.all, p.got, c, lo, window))
            && (kind.Sys? ==> forall i :: 0 <= i < |c.rows| ==> c.rows[i].ts >= Start(now, window))
  {
    var c := AnswerTo(p, cursor, now, kind, window);
    var lo := p.start;
    if kind.Sys? {
      lo := FilterSuffix(p.all, p.start, Start(now, window));
      NotBeforeIs(p.all[p.start..], Start(now, window));
    }
    assert p.all[lo..] == p.all[lo..|p.all|];
    assert RowsFrom(p.all, p.got, c, lo, window);
  }

  lemma {:induction false} NotBeforeIs(rows: seq<Row>, windowStart: int)
    ensures forall i :: 0 <= i < |NotBefore(rows, windowStart)| ==> NotBefore(rows, windowStart)[i].ts >= windowStart
    decreases |rows|
  {
    if rows != [] { NotBeforeIs(rows[..|rows| - 1], windowStart); }
  }

  /** A delta is the rows after the cursor's. */
  lemma DeltaFits(p: Peer, cursor: int, now: int, kind: Kind, window: int)
    requires Sampled(p, window) && now >= p.clock && AskFits(p.all, p.got, cursor) && p.got <= |p.all|
    requires !Full(kind, p.all[p.start..], cursor, Start(now, window))
    ensures exists lo: nat :: RowsFrom(p.all, p.got, AnswerTo(p, cursor, now, kind, window), lo, window)
  {
    var q: nat :| q <= p.got && CursorAt(p.all, cursor, q);
    StartBelowCursor(p, cursor, now, kind, window, q);
    DeltaRows(p.all, p.start, q);
    DeltaFrom(p, cursor, now, kind, window, q);
  }

  lemma DeltaRows(all: seq<Row>, start: nat, q: nat)
    requires InOrder(all) && WholeTicks(all, q) && start <= q && q > 0
    ensures all[start..][NewerFrom(all[start..], Ms(all[q - 1].ts))..] == all[q..|all|]
  {
    NewerFromTick(all, start, q);
    assert all[q..] == all[q..|all|];
  }

  lemma {:induction false} DeltaFrom(p: Peer, cursor: int, now: int, kind: Kind, window: int, q: nat)
    requires p.start <= |p.all| && q <= p.got <= |p.all| && !Full(kind, p.all[p.start..], cursor, Start(now, window))
    requires p.all[p.start..][NewerFrom(p.all[p.start..], cursor)..] == p.all[q..|p.all|]
    ensures RowsFrom(p.all, p.got, AnswerTo(p, cursor, now, kind, window), q, window)
  {
  }

  /** The buffer still holds everything after the cursor. */
  lemma StartBelowCursor(p: Peer, cursor: int, now: int, kind: Kind, window: int, q: nat)
    requires Sampled(p, window) && now >= p.clock && CursorAt(p.all, cursor, q)
    requires !Full(kind, p.all[p.start..], cursor, Start(now, window))
    ensures p.start <= q
  {
    if q < p.start && kind.Groups? { MsMonotone(p.all[q].ts, p.all[p.start].ts); }
  }

  lemma AnswerKeepsInv(p: Peer, i: nat, now: int, kind: Kind, window: int)
    requires Inv(p, kind, window) && Enabled(p, Answer(i, now), window)
    ensures Inv(Apply(p, Answer(i, now), kind, window), kind, window)
  {
    var p', cursor := Apply(p, Answer(i, now), kind, window), p.calls[i].cursor;
    var r: nat :| RingFrom(p, r, window);
    assert RingFrom(p', r, window);
    forall j | p'.applied <= j < |p'.calls| ensures CallFits(p', p'.calls[j], kind, window) {
      assert CallFits(p, p.calls[j], kind, window);
      if j == i {
        if Full(kind, p.all[p.start..], cursor, Start(now, window)) {
          FullFits(p, cursor, now, kind, window);
        } else {
          DeltaFits(p, cursor, now, kind, window);
        }
      }
    }
    forall j, k | p'.applied <= j < k < |p'.calls| ensures Ordered(p'.calls[j], p'.calls[k]) {
      assert Ordered(p.calls[j], p.calls[k]);
      assert CallFits(p, p.calls[j], kind, window) && CallFits(p, p.calls[k], kind, window);
    }
  }

  lemma LoseKeepsInv(p: Peer, i: nat, kind: Kind, window: int)
    requires Inv(p, kind, window) && i < |p.calls|
    ensures Inv(Apply(p, Lose(i), kind, window), kind, window)
  {
    var p' := Apply(p, Lose(i), kind, window);
    var r: nat :| RingFrom(p, r, window);
    assert RingFrom(p', r, window);
    forall j | p'.applied <= j < |p'.calls| ensures CallFits(p', p'.calls[j], kind, window) {
      assert CallFits(p, p.calls[j], kind, window);
    }
  }

  // ----- an answer arrives -----

  /** Full answer or delta, what the page holds before pruning is everything the
      server had sampled from some row on, each row once; those before are out
      of the window. */
  lemma Merges(p: Peer, i: nat, kind: Kind, window: int) returns (k: nat)
    requires Inv(p, kind, window) && p.applied <= i < |p.calls| && p.calls[i].Answered?
    ensures var c := p.calls[i];
            && k <= c.seen <= |p.all| && MergeRing(p.ring, c.rows, c.full) == p.all[k..c.seen]
            && Older(p.all, k, Start(c.now, window))
  {
    var c := p.calls[i];
    assert CallFits(p, c, kind, window);
    var r: nat :| RingFrom(p, r, window);
    var lo: nat :| RowsFrom(p.all, p.got, c, lo, window);
    k := if c.full then lo else if r < p.got then r else lo;
    if !c.full { DeltaMerges(p.all, r, p.got, lo, c.seen, p.ring); }
  }

  /** Rows of the delta that came with an earlier answer are not added twice. */
  lemma DeltaMerges(all: seq<Row>, r: nat, got: nat, lo: nat, seen: nat, ring: seq<Row>)
    requires InOrder(all) && Positive(all) && WholeTicks(all, got) && r <= got && lo <= got <= seen <= |all|
    requires ring == all[r..got]
    ensures MergeRing(ring, all[lo..seen], false) == all[if r < got then r else lo..seen]
  {
    if r == got {
      NewerThanAll(all[lo..seen], 0);
      assert ring == [];
    } else {
      NewestOf(all, r, got);
      HeldAlready(all, got, lo, seen);
      assert all[r..got] + all[got..seen] == all[r..seen];
    }
  }

  lemma NewestOf(all: seq<Row>, r: nat, got: nat)
    requires r < got <= |all|
    ensures NewestMs(all[r..got]) == Ms(all[got - 1].ts)
  {
  }

  lemma HeldAlready(all: seq<Row>, got: nat, lo: nat, seen: nat)
    requires InOrder(all) && WholeTicks(all, got) && lo <= got <= seen <= |all| && 0 < got
    ensures NewerThan(all[lo..seen], Ms(all[got - 1].ts)) == all[got..seen]
  {
    var ms := Ms(all[got - 1].ts);
    var held, more := all[lo..got], all[got..seen];
    assert all[lo..seen] == held + more;
    NewerThanSplit(held, more, ms);
    forall i | 0 <= i < |held| ensures Ms(held[i].ts) <= ms { MsMonotone(all[lo + i].ts, all[got - 1].ts); }
    NewerThanNone(held, ms);
    LaterTicks(all, got, seen);
    NewerThanAll(more, ms);
  }

  lemma LaterTicks(all: seq<Row>, got: nat, seen: nat)
    requires InOrder(all) && WholeTicks(all, got) && 0 < got <= seen <= |all|
    ensures forall i :: got <= i < seen ==> Ms(all[i].ts) > Ms(all[got - 1].ts)
  {
    forall i | got <= i < seen ensures Ms(all[i].ts) > Ms(all[got - 1].ts) {
      MsMonotone(all[got].ts, all[i].ts);
    }
  }

  lemma {:induction false} NewerThanNone(rows: seq<Row>, ms: int)
    requires forall i :: 0 <= i < |rows| ==> Ms(rows[i].ts) <= ms
    ensures NewerThan(rows, ms) == []
    decreases |rows|
  {
    if rows != [] { NewerThanNone(rows[..|rows| - 1], ms); }
  }

  lemma {:induction false} NewerThanSplit(a: seq<Row>, b: seq<Row>, ms: int)
    ensures NewerThan(a + b, ms) == NewerThan(a, ms) + NewerThan(b, ms)
    decreases |b|
  {
    if b == [] {
      assert a + b == a;
    } else {
      assert (a + b)[..|a + b| - 1] == a + b[..|b| - 1];
      NewerThanSplit(a, b[..|b| - 1], ms);
    }
  }

  /** Applying an answer leaves a later stretch of the rows it saw, which starts
      in the window start's millisecond or later. */
  lemma Absorbs(p: Peer, i: nat, kind: Kind, window: int) returns (r: nat)
    requires Inv(p, kind, window) && p.applied <= i < |p.calls| && p.calls[i].Answered?
    ensures var c := p.calls[i];
            && r <= c.seen <= |p.all| && Absorb(p.ring, c, window) == p.all[r..c.seen]
            && Older(p.all, r, Start(c.now, window))
            && forall j :: r <= j < c.seen ==> Ms(p.all[j].ts) >= Ms(Start(c.now, window))
  {
    var c := p.calls[i];
    var k := Merges(p, i, kind, window);
    r := AbsorbSlice(p.ring, c, p.all, k, MergeRing(p.ring, c.rows, c.full), window);
  }

  lemma AbsorbSlice(ring: seq<Row>, c: Call, all: seq<Row>, k: nat, merged: seq<Row>, window: int) returns (r: nat)
    requires c.Answered? && merged == MergeRing(ring, c.rows, c.full)
    requires InOrder(all) && k <= c.seen <= |all| && Older(all, k, Start(c.now, window)) && merged == all[k..c.seen]
    ensures r <= c.seen && Absorb(ring, c, window) == all[r..c.seen]
    ensures Older(all, r, Start(c.now, window))
    ensures forall j :: r <= j < c.seen ==> Ms(all[j].ts) >= Ms(Start(c.now, window))
  {
    r := PruneSlice(all, c.seen, k, c.now, window);
  }

  lemma PruneSlice(all: seq<Row>, seen: nat, k: nat, now: int, window: int) returns (r: nat)
    requires InOrder(all) && k <= seen <= |all| && Older(all, k, Start(now, window))
    ensures r <= seen && PruneRing(all[k..seen], Ms(now) - window) == all[r..seen]
    ensures Older(all, r, Start(now, window))
    ensures forall j :: r <= j < seen ==> Ms(all[j].ts) >= Ms(Start(now, window))
  {
    PrefixSlices(all, seen, k);
    r := PruneSuffix(all[..seen], k, now, window);
    PrefixSlices(all, seen, r);
  }

  lemma PrefixSlices(all: seq<Row>, seen: nat, k: nat)
    requires k <= seen <= |all| && InOrder(all)
    ensures all[..seen][k..] == all[k..seen] && InOrder(all[..seen])
    ensures forall j :: 0 <= j < seen ==> all[..seen][j] == all[j]
  {
  }

  lemma LateKeepsInv(p: Peer, i: nat, kind: Kind, window: int)
    requires Inv(p, kind, window) && i < |p.calls| && p.calls[i].Answered? && i < p.applied
    ensures Inv(Apply(p, Arrive(i), kind, window), kind, window)
  {
    LoseKeepsInv(p, i, kind, window);
  }

  lemma ArriveKeepsInv(p: Peer, i: nat, kind: Kind, window: int)
    requires Inv(p, kind, window) && p.applied <= i < |p.calls| && p.calls[i].Answered?
    ensures Inv(Apply(p, Arrive(i), kind, window), kind, window)
  {
    var p', c := Apply(p, Arrive(i), kind, window), p.calls[i];
    var r := Absorbs(p, i, kind, window);
    assert CallFits(p, c, kind, window);
    assert RingFrom(p', r, window);
    forall j | i <= j < |p'.calls| ensures CallFits(p', p'.calls[j], kind, window) {
      assert CallFits(p, p.calls[j], kind, window);
      if j > i { LaterCallFits(p, p.calls[i], p.calls[j], kind, window); }
    }
    forall j, k | i <= j < k < |p'.calls| ensures Ordered(p'.calls[j], p'.calls[k]) {
      assert Ordered(p.calls[j], p.calls[k]);
    }
  }

  /** What the page may still hear stays in step with the answer it applied. */
  lemma LaterCallFits(p: Peer, c: Call, d: Call, kind: Kind, window: int)
    requires CallFits(p, c, kind, window) && CallFits(p, d, kind, window) && c.Answered? && Ordered(c, d)
    ensures CallFits(p.(got := c.seen, shown := c.now), d, kind, window)
  {
    match d
    case Asked(cursor) =>
      if cursor != 0 {
        var q: nat :| q <= p.got && CursorAt(p.all, cursor, q);
        assert q <= c.seen;
      }
    case Answered(_, _, _, _) =>
      var lo: nat :| RowsFrom(p.all, p.got, d, lo, window);
      assert RowsFrom(p.all, c.seen, d, lo, window);
    case Settled =>
  }

  /** Every step of any run keeps the invariant. */
  lemma StepKeepsInv(p: Peer, h: Happening, kind: Kind, window: int)
    requires Inv(p, kind, window) && Enabled(p, h, window)
    ensures Inv(Apply(p, h, kind, window), kind, window)
  {
    match h
    case Sample(_, _, _) => SampleKeepsInv(p, h, kind, window);
    case Ask => AskKeepsInv(p, kind, window);
    case Answer(i, now) => AnswerKeepsInv(p, i, now, kind, window);
    case Arrive(i) =>
      if i < p.applied { LateKeepsInv(p, i, kind, window); } else { ArriveKeepsInv(p, i, kind, window); }
    case Lose(i) => LoseKeepsInv(p, i, kind, window);
  }

  lemma {:induction false} RunKeepsInv(p: Peer, hs: seq<Happening>, kind: Kind, window: int)
    requires Inv(p, kind, window) && IsRun(p, hs, kind, window)
    ensures Inv(After(p, hs, kind, window), kind, window)
    decreases |hs|
  {
    if hs != [] {
      StepKeepsInv(p, hs[0], kind, window);
      RunKeepsInv(Apply(p, hs[0], kind, window), hs[1..], kind, window);
    }
  }

  lemma InitInv(kind: Kind, window: int)
    ensures Inv(Init, kind, window)
  {
    assert RingFrom(Init, 0, window);
  }

  // ----- what the page holds -----

  /** The next answer the page applies. */
  predicate Applies(p: Peer, i: nat) { p.applied <= i < |p.calls| && p.calls[i].Answered? }

  /** After every answer the page applies in any run, full or delta, with calls
      overlapping, late or lost: an unbroken stretch of the rows sampled up to
      that answer, each once and in order: every row not older than the window
      start, and none from before the window start's own millisecond. */
  lemma PageHoldsTheWindow(hs: seq<Happening>, i: nat, kind: Kind, window: int) returns (r: nat)
    requires IsRun(Init, hs, kind, window) && Applies(After(Init, hs, kind, window), i)
    ensures var p := After(Init, hs, kind, window); var c := p.calls[i];
            && r <= c.seen <= |p.all| && Apply(p, Arrive(i), kind, window).ring == p.all[r..c.seen]
            && (forall j :: 0 <= j < r ==> p.all[j].ts < Start(c.now, window))
            && (forall j :: r <= j < c.seen ==> Ms(p.all[j].ts) >= Ms(Start(c.now, window)))
  {
    InitInv(kind, window);
    RunKeepsInv(Init, hs, kind, window);
    r := Absorbs(After(Init, hs, kind, window), i, kind, window);
  }

  /** A row the millisecond clock of the page takes for one in the window. */
  predicate Blurred(x: Row, windowStart: int) { Ms(x.ts) == Ms(windowStart) && x.ts < windowStart }

  predicate NoneBlurred(rows: seq<Row>, windowStart: int) {
    forall j :: 0 <= j < |rows| ==> !Blurred(rows[j], windowStart)
  }

  /** The ring is exactly the window, at full precision, if and only if no row the
      page holds or is sent falls before the window start within its millisecond. */
  lemma {:induction false} ExactlyTheWindowIff(hs: seq<Happening>, i: nat, kind: Kind, window: int)
    requires IsRun(Init, hs, kind, window) && Applies(After(Init, hs, kind, window), i)
    ensures var p := After(Init, hs, kind, window); var c := p.calls[i]; var ws := Start(c.now, window);
            && c.seen <= |p.all|
            && (Apply(p, Arrive(i), kind, window).ring == NotBefore(p.all[..c.seen], ws)
                <==> NoneBlurred(MergeRing(p.ring, c.rows, c.full), ws))
  {
    InitInv(kind, window);
    RunKeepsInv(Init, hs, kind, window);
    ExactIff(After(Init, hs, kind, window), i, kind, window);
  }

  lemma ExactIff(p: Peer, i: nat, kind: Kind, window: int)
    requires Inv(p, kind, window) && Applies(p, i)
    ensures var c := p.calls[i]; var ws := Start(c.now, window);
            && c.seen <= |p.all|
            && (Absorb(p.ring, c, window) == NotBefore(p.all[..c.seen], ws)
                <==> NoneBlurred(MergeRing(p.ring, c.rows, c.full), ws))
  {
    var c := p.calls[i];
    var k := Merges(p, i, kind, window);
    var merged := MergeRing(p.ring, c.rows, c.full);
    AbsorbIsWindowIff(p.ring, c, p.all, k, merged, window);
  }

  lemma AbsorbIsWindowIff(ring: seq<Row>, c: Call, all: seq<Row>, k: nat, merged: seq<Row>, window: int)
    requires c.Answered? && merged == MergeRing(ring, c.rows, c.full)
    requires InOrder(all) && k <= c.seen <= |all| && Older(all, k, Start(c.now, window)) && merged == all[k..c.seen]
    ensures Absorb(ring, c, window) == NotBefore(all[..c.seen], Start(c.now, window))
        <==> NoneBlurred(merged, Start(c.now, window))
  {
    SliceIsWindowIff(all, c.seen, k, merged, c.now, window);
  }

  lemma SliceIsWindowIff(all: seq<Row>, seen: nat, k: nat, merged: seq<Row>, now: int, window: int)
    requires InOrder(all) && k <= seen <= |all| && Older(all, k, Start(now, window)) && merged == all[k..seen]
    ensures PruneRing(merged, Ms(now) - window) == NotBefore(all[..seen], Start(now, window))
       <==> NoneBlurred(merged, Start(now, window))
  {
    PrefixSlices(all, seen, k);
    PrunedIsWindowIff(all[..seen], k, now, window);
  }

  lemma {:induction false} PrunedIsWindowIff(rows: seq<Row>, k: nat, now: int, window: int)
    requires InOrder(rows) && Older(rows, k, Start(now, window))
    ensures PruneRing(rows[k..], Ms(now) - window) == NotBefore(rows, Start(now, window))
       <==> NoneBlurred(rows[k..], Start(now, window))
  {
    var ws := Start(now, window);
    var r := PruneSuffix(rows, k, now, window);
    if NoneBlurred(rows[k..], ws) { SharpIsWindow(rows, k, r, ws); }
    if rows[r..] == NotBefore(rows, ws) { WindowIsSharp(rows, k, r, ws); }
  }

  lemma {:induction false} SharpIsWindow(rows: seq<Row>, k: nat, r: nat, ws: int)
    requires k <= r <= |rows| && NoneBlurred(rows[k..], ws)
    requires forall i :: 0 <= i < r ==> rows[i].ts < ws
    requires forall i :: r <= i < |rows| ==> Ms(rows[i].ts) >= Ms(ws)
    ensures rows[r..] == NotBefore(rows, ws)
  {
    forall i | r <= i < |rows| ensures rows[i].ts >= ws {
      assert !Blurred(rows[k..][i - k], ws);
      MsMonotone(rows[i].ts, ws);
    }
    SuffixIsFilter(rows, r, ws);
  }

  lemma {:induction false} WindowIsSharp(rows: seq<Row>, k: nat, r: nat, ws: int)
    requires k <= r <= |rows| && rows[r..] == NotBefore(rows, ws)
    requires forall i :: k <= i < r ==> Ms(rows[i].ts) < Ms(ws)
    ensures NoneBlurred(rows[k..], ws)
  {
    NotBeforeIs(rows, ws);
    forall i | 0 <= i < |rows[k..]| ensures !Blurred(rows[k..][i], ws) {
      if k + i >= r { assert rows[k..][i] == rows[r..][k + i - r];
    }
    }
  }

  /** A full answer for the system ring is filtered at full precision. */
  lemma {:induction false} FullSysIsExact(hs: seq<Happening>, i: nat, window: int)
    requires IsRun(Init, hs, Sys, window) && Applies(After(Init, hs, Sys, window), i)
        && After(Init, hs, Sys, window).calls[i].full
    ensures var p := After(Init, hs, Sys, window); var c := p.calls[i];
            && c.seen <= |p.all|
            && Apply(p, Arrive(i), Sys, window).ring == NotBefore(p.all[..c.seen], Start(c.now, window))
  {
    InitInv(Sys, window);
    RunKeepsInv(Init, hs, Sys, window);
    var p := After(Init, hs, Sys, window);
    assert CallFits(p, p.calls[i], Sys, window);
    ExactIff(p, i, Sys, window);
  }

  /** One row at 5 ms, asked for half a microsecond after its millisecond's window start. */
  const BLUR: seq<Happening> := [Sample(5_000_000, [Row(5_000_000, 1)], 0), Ask, Answer(0, 6_000_500)]

  /** The groups ring then keeps a row that is out of the window. */
  lemma BlurredRowIsKept()
    ensures IsRun(Init, BLUR, Groups, 1) && Applies(After(Init, BLUR, Groups, 1), 0)
    ensures var p := After(Init, BLUR, Groups, 1);
            && Apply(p, Arrive(0), Groups, 1).ring == [Row(5_000_000, 1)]
            && NotBefore(p.all, Start(p.calls[0].now, 1)) == []
  {
    var row := Row(5_000_000, 1);
    var p1 := Apply(Init, BLUR[0], Groups, 1);
    assert p1 == Peer([row], 0, 5_000_000, [], [], 0, 0, 0);
    var p2 := Apply(p1, Ask, Groups, 1);
    var p3 := Apply(p2, Answer(0, 6_000_500), Groups, 1);
    assert p3.calls == [Answered([row], true, 6_000_500, 1)];
    assert BLUR[1..] == [Ask, Answer(0, 6_000_500)] && BLUR[1..][1..] == [Answer(0, 6_000_500)]
      && BLUR[1..][1..][1..] == [];
    assert IsRun(p2, [Answer(0, 6_000_500)], Groups, 1) && After(p2, [Answer(0, 6_000_500)], Groups, 1) == p3;
    assert IsRun(p1, BLUR[1..], Groups, 1) && After(p1, BLUR[1..], Groups, 1) == p3;
  }
}
