/** The live chart: the turns of the last half hour in slots of one width. */
module LiveChart {
  import opened Schema

  /** ChartWindow, half an hour in nanoseconds. */
  const WINDOW := 1_800_000_000_000

  datatype Counts = Counts(input: int, cacheWrite: int, cacheRead: int, output: int)

  const ZERO := Counts(0, 0, 0, 0)

  function Plus(c: Counts, e: Event): Counts {
    Counts(c.input + e.input, c.cacheWrite + OrZero(e.cacheWrite), c.cacheRead + OrZero(e.cacheRead),
      c.output + e.output)
  }

  datatype Bucket = Bucket(bySession: map<string, Counts>, cost: real)

  const EMPTY := Bucket(map[], 0.0)

  type Pricing = Event -> real

  /** now.Truncate(width), moved up by one width unless that is now itself. */
  function WindowEnd(now: nat, width: nat): int
    requires width > 0
  {
    var down := now - now % width;
    if down < now then down + width else down
  }

  function WindowStart(now: nat, width: nat): int
    requires width > 0
  {
    WindowEnd(now, width) - WINDOW
  }

  /** The chart: where it starts, the newest instant it takes, its slots. */
  datatype Frame = Frame(start: int, now: int, width: int, slots: nat)

  function FrameOf(start: int, now: int, width: nat): Frame
    requires width > 0
  {
    Frame(start, now, width, WINDOW / width)
  }

  /** The event passes the filter of the loop. */
  predicate Lands(f: Frame, e: Event)
    requires f.width > 0
  {
    e.IsTurn() && e.at != 0 && f.start <= e.at <= f.now && (e.at - f.start) / f.width < f.slots
  }

  predicate LandsIn(f: Frame, e: Event, i: int)
    requires f.width > 0
  {
    Lands(f, e) && (e.at - f.start) / f.width == i
  }

  function Put(b: Bucket, e: Event, price: Pricing): Bucket {
    var before := if e.sessionID in b.bySession then b.bySession[e.sessionID] else ZERO;
    Bucket(b.bySession[e.sessionID := Plus(before, e)], b.cost + price(e))
  }

  /** What slot i holds after the events. */
  function SlotOf(f: Frame, es: seq<Event>, i: int, price: Pricing): Bucket
    requires f.width > 0
    decreases |es|
  {
    if es == [] then EMPTY
    else
      var before := SlotOf(f, es[..|es| - 1], i, price);
      var e := es[|es| - 1];
      if LandsIn(f, e, i) then Put(before, e, price) else before
  }

  method BuildChart(events: seq<Event>, price: Pricing, start: int, now: int, width: nat) returns (chart: seq<Bucket>)
    requires width > 0
    ensures |chart| == WINDOW / width
    ensures forall i :: 0 <= i < |chart| ==>
      chart[i] == SlotOf(Frame(start, now, width, WINDOW / width), events, i, price)
  {
    ghost var f := FrameOf(start, now, width);
    var slots := new Bucket[WINDOW / width](_ => EMPTY);
    var k := 0;
    while k < |events|
      invariant 0 <= k <= |events|
      invariant forall i :: 0 <= i < slots.Length ==> slots[i] == SlotOf(f, events[..k], i, price)
    {
      var e := events[k];
      assert events[..k + 1][..k] == events[..k];
      k := k + 1;
      if !e.IsTurn() || e.at == 0 || e.at < start || e.at > now {
        continue;
      }
      var idx := (e.at - start) / width;
      if idx < 0 || idx >= slots.Length {
        continue;
      }
      var b := slots[idx];
      var before := if e.sessionID in b.bySession then b.bySession[e.sessionID] else ZERO;
      slots[idx] := Bucket(b.bySession[e.sessionID := Plus(before, e)], b.cost + price(e));
    }
    assert events[..k] == events;
    chart := slots[..];
  }

  // ----- which turns -----

  /** The window ends at or after now, less than one slot later, on a slot boundary. */
  lemma WindowEndCovers(now: nat, width: nat)
    requires width > 0
    ensures now <= WindowEnd(now, width) < now + width
    ensures WindowEnd(now, width) % width == 0
    ensures WindowEnd(now, width) - WindowStart(now, width) == 30 * 60 * 1_000_000_000
  {
    var q := now / width;
    assert now == width * q + now % width;
    assert now - now % width == width * q;
    MultipleOf(q, width);
    MultipleOf(q + 1, width);
    assert width * (q + 1) == width * q + width;
  }

  lemma MultipleOf(q: nat, width: nat)
    requires width > 0
    ensures (width * q) % width == 0
  {
    QuotientIs(width * q, width, q);
  }

  lemma QuotientIs(n: int, width: int, q: int)
    requires width > 0 && width * q <= n < width * q + width
    ensures n / width == q && n % width == n - width * q
  {
    var d := n / width;
    assert n == width * d + n % width;
    assert width * (d + 1) == width * d + width && width * (q + 1) == width * q + width;
  }

  /** Slot i is one of the chart's and covers the time of the turn. */
  predicate Covers(f: Frame, i: int, e: Event) {
    && !OnlyCounts(e) && e.at != 0 && e.at <= f.now
    && 0 <= i < f.slots && f.start + f.width * i <= e.at < f.start + f.width * (i + 1)
  }

  /** A turn lands in slot i exactly when slot i covers it, so in one slot at most. */
  lemma SlotCovers(f: Frame, e: Event, i: int)
    requires f.width > 0
    ensures LandsIn(f, e, i) <==> Covers(f, i, e)
  {
    QuotientIff(e.at - f.start, f.width, i);
    QuotientIff(e.at - f.start, f.width, (e.at - f.start) / f.width);
  }

  lemma QuotientIff(n: int, width: int, q: int)
    requires width > 0
    ensures n / width == q <==> width * q <= n < width * (q + 1)
  {
    assert width * (q + 1) == width * q + width;
    if width * q <= n < width * q + width { QuotientIs(n, width, q); }
    assert n == width * (n / width) + n % width;
  }

  lemma SlotsFillWindow(f: Frame, n: int)
    requires f.width > 0 && n >= 0
    ensures n / f.width < f.slots <==> n < f.width * f.slots
  {
    var q := n / f.width;
    assert n == f.width * q + n % f.width;
    if q < f.slots {
      assert f.width * (q + 1) <= f.width * f.slots;
      assert f.width * (q + 1) == f.width * q + f.width;
    } else {
      assert f.width * f.slots <= f.width * q;
    }
  }

  /** For widths that divide the window, the charted turns are those with a time,
      from the window start up to now, and strictly before the window end. */
  lemma ChartedIff(e: Event, now: nat, width: nat)
    requires width > 0 && WINDOW % width == 0
    ensures Lands(FrameOf(WindowStart(now, width), now, width), e) <==>
      e.IsTurn() && e.at != 0 && WindowStart(now, width) <= e.at <= now && e.at < WindowEnd(now, width)
  {
    var f := FrameOf(WindowStart(now, width), now, width);
    assert WINDOW == width * (WINDOW / width);
    if e.at >= f.start { SlotsFillWindow(f, e.at - f.start); }
  }

  /** So a turn of this very instant is on the chart unless now is a slot boundary. */
  lemma TurnAtNowChartedIff(e: Event, now: nat, width: nat)
    requires 0 < width && WINDOW % width == 0 && e.IsTurn() && e.at == now && now > 0
    ensures Lands(FrameOf(WindowStart(now, width), now, width), e) <==> now % width != 0
  {
    ChartedIff(e, now, width);
    WindowEndCovers(now, width);
    var q := now / width;
    assert now == width * q + now % width;
    assert width <= WINDOW by {
      if width > WINDOW { QuotientIs(WINDOW, width, 0); assert false; }
    }
  }

  // ----- conservation -----

  function CountsIn(b: Bucket, session: string): Counts {
    if session in b.bySession then b.bySession[session] else ZERO
  }

  function Sum(a: Counts, b: Counts): Counts {
    Counts(a.input + b.input, a.cacheWrite + b.cacheWrite, a.cacheRead + b.cacheRead, a.output + b.output)
  }

  function Total(column: seq<Counts>, n: nat): Counts
    requires n <= |column|
  {
    if n == 0 then ZERO else Sum(Total(column, n - 1), column[n - 1])
  }

  /** One session's counts over all slots. */
  function ChartCounts(chart: seq<Bucket>, session: string): Counts {
    Total(Column(chart, session), |chart|)
  }

  function Column(chart: seq<Bucket>, session: string): seq<Counts> {
    seq(|chart|, i requires 0 <= i < |chart| => CountsIn(chart[i], session))
  }

  function CostUpTo(chart: seq<Bucket>, n: nat): real
    requires n <= |chart|
  {
    if n == 0 then 0.0 else CostUpTo(chart, n - 1) + chart[n - 1].cost
  }

  function ChartCost(chart: seq<Bucket>): real { CostUpTo(chart, |chart|) }

  /** The same from the charted turns alone, one by one. */
  function TurnCounts(f: Frame, es: seq<Event>, session: string): Counts
    requires f.width > 0
  {
    if es == [] then ZERO
    else
      var before := TurnCounts(f, es[..|es| - 1], session);
      var e := es[|es| - 1];
      if Lands(f, e) && e.sessionID == session then Plus(before, e) else before
  }

  function TurnCost(f: Frame, es: seq<Event>, price: Pricing): real
    requires f.width > 0
  {
    if es == [] then 0.0
    else
      TurnCost(f, es[..|es| - 1], price) + (if Lands(f, es[|es| - 1]) then price(es[|es| - 1]) else 0.0)
  }

  lemma {:induction false} TotalChangesAt(a: seq<Counts>, b: seq<Counts>, n: nat, i: nat, e: Event)
    requires |a| == |b| && i < |a| && n <= |a| && b[i] == Plus(a[i], e)
    requires forall j :: 0 <= j < |a| && j != i ==> b[j] == a[j]
    ensures Total(b, n) == if i < n then Plus(Total(a, n), e) else Total(a, n)
  {
    if n > 0 { TotalChangesAt(a, b, n - 1, i, e); }
  }

  lemma CountsChangeAt(a: seq<Bucket>, b: seq<Bucket>, i: nat, e: Event, price: Pricing, session: string)
    requires |a| == |b| && i < |a| && b[i] == Put(a[i], e, price)
    requires forall j :: 0 <= j < |a| && j != i ==> b[j] == a[j]
    ensures ChartCounts(b, session)
      == if e.sessionID == session then Plus(ChartCounts(a, session), e) else ChartCounts(a, session)
  {
    if e.sessionID == session {
      TotalChangesAt(Column(a, session), Column(b, session), |a|, i, e);
    } else {
      assert Column(a, session) == Column(b, session);
    }
  }

  lemma {:induction false} CostChangesAt(a: seq<Bucket>, b: seq<Bucket>, n: nat, i: nat, usd: real)
    requires |a| == |b| && i < |a| && n <= |a| && b[i].cost == a[i].cost + usd
    requires forall j :: 0 <= j < |a| && j != i ==> b[j] == a[j]
    ensures CostUpTo(b, n) == if i < n then CostUpTo(a, n) + usd else CostUpTo(a, n)
  {
    if n > 0 { CostChangesAt(a, b, n - 1, i, usd); }
  }

  lemma {:induction false} TotalOfNothing(column: seq<Counts>, n: nat)
    requires n <= |column| && forall i :: 0 <= i < |column| ==> column[i] == ZERO
    ensures Total(column, n) == ZERO
  {
    if n > 0 { TotalOfNothing(column, n - 1); }
  }

  lemma {:induction false} CostOfNothing(chart: seq<Bucket>, n: nat)
    requires n <= |chart| && forall i :: 0 <= i < |chart| ==> chart[i] == EMPTY
    ensures CostUpTo(chart, n) == 0.0
  {
    if n > 0 { CostOfNothing(chart, n - 1); }
  }

  function Slots(f: Frame, es: seq<Event>, price: Pricing): (slots: seq<Bucket>)
    requires f.width > 0
    ensures |slots| == f.slots && forall i :: 0 <= i < f.slots ==> slots[i] == SlotOf(f, es, i, price)
  {
    seq(f.slots, i => SlotOf(f, es, i, price))
  }

  /** Session by session and class by class, the slots together hold exactly the
      charted turns; and so does their cost. */
  lemma {:induction false} ChartIsItsTurns(f: Frame, es: seq<Event>, price: Pricing, session: string)
    requires f.width > 0
    ensures ChartCounts(Slots(f, es, price), session) == TurnCounts(f, es, session)
    ensures ChartCost(Slots(f, es, price)) == TurnCost(f, es, price)
    decreases |es|
  {
    if es == [] {
      TotalOfNothing(Column(Slots(f, es, price), session), f.slots);
      CostOfNothing(Slots(f, es, price), f.slots);
    } else {
      var init, e := es[..|es| - 1], es[|es| - 1];
      ChartIsItsTurns(f, init, price, session);
      var a, b := Slots(f, init, price), Slots(f, es, price);
      if Lands(f, e) {
        var i := (e.at - f.start) / f.width;
        SlotCovers(f, e, i);
        CountsChangeAt(a, b, i, e, price, session);
        CostChangesAt(a, b, f.slots, i, price(e));
      } else {
        assert a == b;
      }
    }
  }

  /** A session shows in a slot exactly when one of its turns landed there. */
  lemma {:induction false} SessionShownIff(f: Frame, es: seq<Event>, i: int, price: Pricing, session: string)
    requires f.width > 0
    ensures session in SlotOf(f, es, i, price).bySession
      <==> exists k :: 0 <= k < |es| && es[k].sessionID == session && LandsIn(f, es[k], i)
    decreases |es|
  {
    if es != [] {
      var n := |es| - 1;
      SessionShownIff(f, es[..n], i, price, session);
      if session in SlotOf(f, es[..n], i, price).bySession {
        var k :| 0 <= k < n && es[..n][k].sessionID == session && LandsIn(f, es[..n][k], i);
        assert es[k].sessionID == session && LandsIn(f, es[k], i);
      }
      if k :| 0 <= k < |es| && es[k].sessionID == session && LandsIn(f, es[k], i) {
        if k < n { assert es[..n][k].sessionID == session && LandsIn(f, es[..n][k], i);
      }
      }
    }
  }

  // ----- slots and chart, class by class -----

  /** The tokens of the events kept, each class added up by itself. */
  function Classes(es: seq<Event>, keep: Event -> bool): Counts {
    Counts(Schema.Total(es, (e: Event) => if keep(e) then Input()(e) else 0, |es|),
           Schema.Total(es, (e: Event) => if keep(e) then CacheWrite()(e) else 0, |es|),
           Schema.Total(es, (e: Event) => if keep(e) then CacheRead()(e) else 0, |es|),
           Schema.Total(es, (e: Event) => if keep(e) then Output()(e) else 0, |es|))
  }

  lemma {:induction false} TotalGrows(es: seq<Event>, of: Event -> int)
    requires es != []
    ensures Schema.Total(es, of, |es|) == Schema.Total(es[..|es| - 1], of, |es| - 1) + of(es[|es| - 1])
  {
    TotalOfPrefix(es, of, |es| - 1, |es| - 1);
  }

  lemma ClassesGrow(es: seq<Event>, keep: Event -> bool)
    requires es != []
    ensures var init, e := es[..|es| - 1], es[|es| - 1];
      Classes(es, keep) == if keep(e) then Plus(Classes(init, keep), e) else Classes(init, keep)
  {
    TotalGrows(es, (e: Event) => if keep(e) then Input()(e) else 0);
    TotalGrows(es, (e: Event) => if keep(e) then CacheWrite()(e) else 0);
    TotalGrows(es, (e: Event) => if keep(e) then CacheRead()(e) else 0);
    TotalGrows(es, (e: Event) => if keep(e) then Output()(e) else 0);
  }

  /** A slot holds, of each session, the tokens of exactly the turns it covers. */
  lemma {:induction false} SlotHoldsItsTurns(
      f: Frame, es: seq<Event>, i: int, price: Pricing, session: string, keep: Event -> bool)
    requires f.width > 0 && forall e :: keep(e) <==> e.sessionID == session && Covers(f, i, e)
    ensures CountsIn(SlotOf(f, es, i, price), session) == Classes(es, keep)
    decreases |es|
  {
    if es != [] {
      SlotHoldsItsTurns(f, es[..|es| - 1], i, price, session, keep);
      ClassesGrow(es, keep);
      SlotCovers(f, es[|es| - 1], i);
    }
  }

  /** And it costs what all of those turns do. */
  lemma {:induction false} SlotCostsItsTurns(
      f: Frame, es: seq<Event>, i: int, price: Pricing, of: Event -> real)
    requires f.width > 0 && forall e :: of(e) == if Covers(f, i, e) then price(e) else 0.0
    ensures SlotOf(f, es, i, price).cost == RealTotal(es, of, |es|)
    decreases |es|
  {
    if es != [] {
      SlotCostsItsTurns(f, es[..|es| - 1], i, price, of);
      RealTotalOfPrefix(es, of, |es| - 1, |es| - 1);
      SlotCovers(f, es[|es| - 1], i);
    }
  }
}
