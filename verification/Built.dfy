/** Building one session from its stored events: totals, a cell per model and a
    cell per calendar day. */
module SessionBuild {
  import opened Schema
  import opened Pricing
  import opened Tallies

  type Day = int

  /** EventCost under one configuration. */
  type Quotes = Event -> Quote

  /** Local calendar day of an instant, and its UTC day. */
  datatype Calendar = Calendar(localDay: int -> Day, utcDay: int -> Day)

  datatype Built = Built(
    calls: int, tokens: int, input: int, cacheWrite: int, cacheRead: int, output: int, cost: real, costSub: real,
    unpriced: int, models: map<string, Tally>, daily: map<Day, Tally>)

  /** The earliest time of the first n events; 0 when none has one. */
  function FirstTime(es: seq<Event>, n: nat): int
    requires n <= |es|
  {
    if n == 0 then 0
    else
      var first, at := FirstTime(es, n - 1), es[n - 1].at;
      if at != 0 && (first == 0 || at < first) then at else first
  }

  function DayOf(cal: Calendar, first: int, e: Event): Day {
    if e.at == 0 then cal.utcDay(first) else cal.localDay(e.at)
  }

  function CallOf(quotes: Quotes, e: Event): Tally {
    Tally(1, e.Tokens(), quotes(e).usd, quotes(e).sub, 0)
  }

  /** The cells of the first n events under a key. */
  function Gather<K(==)>(es: seq<Event>, quotes: Quotes, key: Event -> K, n: nat): map<K, Tally>
    requires n <= |es|
  {
    if n == 0 then map[]
    else
      var before, e := Gather(es, quotes, key, n - 1), es[n - 1];
      if e.IsTurn() then Add(before, key(e), CallOf(quotes, e)) else before
  }

  /** The turns among the first n, added one by one. */
  function TurnTotal(es: seq<Event>, quotes: Quotes, n: nat): Tally
    requires n <= |es|
  {
    if n == 0 then NOTHING
    else
      var before, e := TurnTotal(es, quotes, n - 1), es[n - 1];
      if e.IsTurn() then Tallies.Plus(before, CallOf(quotes, e)) else before
  }

  function UnpricedTokens(es: seq<Event>, quotes: Quotes, n: nat): int
    requires n <= |es|
  {
    if n == 0 then 0
    else
      var e := es[n - 1];
      UnpricedTokens(es, quotes, n - 1) + (if e.IsTurn() && quotes(e).unpriced then e.Tokens() else 0)
  }

  /** Whatever the key, the cells together hold every turn once. */
  lemma {:induction false} CellsHoldAll<K>(es: seq<Event>, quotes: Quotes, key: Event -> K, n: nat)
    requires n <= |es|
    ensures SumOf(Gather(es, quotes, key, n)) == TurnTotal(es, quotes, n)
  {
    if n > 0 {
      CellsHoldAll(es, quotes, key, n - 1);
      SumAdd(Gather(es, quotes, key, n - 1), key(es[n - 1]), CallOf(quotes, es[n - 1]));
    }
  }

  predicate HasTurn(es: seq<Event>) { exists k :: 0 <= k < |es| && es[k].IsTurn() }

  predicate HasTime(es: seq<Event>) { exists k :: 0 <= k < |es| && es[k].at != 0 }

  lemma {:induction false} FirstTimeIs(es: seq<Event>, n: nat)
    requires n <= |es|
    ensures FirstTime(es, n) != 0 <==> exists k :: 0 <= k < n && es[k].at != 0
    ensures forall k :: 0 <= k < n && es[k].at != 0 ==> FirstTime(es, n) <= es[k].at
    ensures FirstTime(es, n) != 0 ==> exists k :: 0 <= k < n && es[k].at == FirstTime(es, n)
  {
    if n > 0 { FirstTimeIs(es, n - 1); }
  }

  lemma {:induction false} CallsCountTurns(es: seq<Event>, quotes: Quotes, n: nat)
    requires n <= |es|
    ensures TurnTotal(es, quotes, n).calls >= 0
    ensures TurnTotal(es, quotes, n).calls == 0 <==> forall k :: 0 <= k < n ==> !es[k].IsTurn()
  {
    if n > 0 { CallsCountTurns(es, quotes, n - 1); }
  }

  function FamilyKey(quotes: Quotes): Event -> string { (e: Event) => quotes(e).caption }

  function DayKey(cal: Calendar, first: int): Event -> Day { (e: Event) => DayOf(cal, first, e) }

  /** stamps[0], once sorted. */
  method EarliestTime(events: seq<Event>) returns (first: int)
    ensures first == FirstTime(events, |events|) && (first != 0 <==> HasTime(events))
  {
    first := 0;
    for n := 0 to |events|
      invariant first == FirstTime(events, n)
    {
      var at := events[n].at;
      if at != 0 && (first == 0 || at < first) {
        first := at;
      }
    }
    FirstTimeIs(events, |events|);
  }

  /** Built's totals as one tally. */
  function TotalOf(b: Built): Tally {
    Tally(b.calls, b.input + b.cacheWrite + b.cacheRead + b.output, b.cost, b.costSub, 0)
  }

  /** Each class of tokens is that of the turns. */
  predicate ClassesOf(b: Built, events: seq<Event>, n: nat)
    requires n <= |events|
  {
    && b.input == Total(events, OfTurns(Input()), n) && b.output == Total(events, OfTurns(Output()), n)
    && b.cacheWrite == Total(events, OfTurns(CacheWrite()), n) && b.cacheRead == Total(events, OfTurns(CacheRead()), n)
  }

  /** The accumulation loop. */
  method Accumulate(events: seq<Event>, quotes: Quotes, cal: Calendar, first: int) returns (b: Built)
    ensures b.models == Gather(events, quotes, FamilyKey(quotes), |events|)
    ensures b.daily == Gather(events, quotes, DayKey(cal, first), |events|)
    ensures TotalOf(b) == TurnTotal(events, quotes, |events|) && b.tokens == TotalOf(b).tokens
    ensures b.unpriced == UnpricedTokens(events, quotes, |events|)
    ensures ClassesOf(b, events, |events|)
  {
    var perModel: map<string, Tally>, daily: map<Day, Tally> := map[], map[];
    var input, cacheWrite, cacheRead, output, calls, unpriced := 0, 0, 0, 0, 0, 0;
    var cost, costSub := 0.0, 0.0;
    for n := 0 to |events|
      invariant perModel == Gather(events, quotes, FamilyKey(quotes), n)
      invariant daily == Gather(events, quotes, DayKey(cal, first), n)
      invariant unpriced == UnpricedTokens(events, quotes, n)
      invariant input == Total(events, OfTurns(Input()), n) && cacheWrite == Total(events, OfTurns(CacheWrite()), n)
      invariant cacheRead == Total(events, OfTurns(CacheRead()), n) && output == Total(events, OfTurns(Output()), n)
      invariant Tally(calls, input + cacheWrite + cacheRead + output, cost, costSub, 0) == TurnTotal(events, quotes, n)
    {
      var e := events[n];
      if !e.IsTurn() {
        continue;
      }
      calls := calls + 1;
      var cw, cr := OrZero(e.cacheWrite), OrZero(e.cacheRead);
      var tokens := e.input + cw + cr + e.output;
      var q := quotes(e);
      if q.unpriced {
        unpriced := unpriced + tokens;
      }
      input, cacheWrite, cacheRead, output := input + e.input, cacheWrite + cw, cacheRead + cr, output + e.output;
      cost, costSub := cost + q.usd, costSub + q.sub;
      var call := Tally(1, tokens, q.usd, q.sub, 0);
      perModel := Add(perModel, q.caption, call);
      daily := Add(daily, if e.at != 0 then cal.localDay(e.at) else cal.utcDay(first), call);
    }
    b := Built(calls, input + cacheWrite + cacheRead + output, input, cacheWrite, cacheRead, output,
               cost, costSub, unpriced, perModel, daily);
  }

  /** A session is built when some event has a time and some event is a turn.
      Its calls, tokens and costs are then those of its turns, of its day cells
      together and of its model cells together. */
  method BuildSession(events: seq<Event>, quotes: Quotes, cal: Calendar) returns (built: Option<Built>)
    ensures built.Some? <==> HasTime(events) && HasTurn(events)
    ensures built.Some? ==>
      var b := built.value;
      && b.models == Gather(events, quotes, FamilyKey(quotes), |events|)
      && b.daily == Gather(events, quotes, DayKey(cal, FirstTime(events, |events|)), |events|)
      && TotalOf(b) == TurnTotal(events, quotes, |events|) && b.tokens == TotalOf(b).tokens
      && SumOf(b.daily) == SumOf(b.models) == TotalOf(b)
      && b.unpriced == UnpricedTokens(events, quotes, |events|)
      && ClassesOf(b, events, |events|)
  {
    var first := EarliestTime(events);
    if first == 0 {
      return None;
    }
    var b := Accumulate(events, quotes, cal, first);
    CallsCountTurns(events, quotes, |events|);
    if b.calls == 0 {
      return None;
    }
    CellsHoldAll(events, quotes, FamilyKey(quotes), |events|);
    CellsHoldAll(events, quotes, DayKey(cal, first), |events|);
    built := Some(b);
  }

  // ----- the cells and totals, figure by figure -----

  /** Calls, tokens, cost and subscription cost of the events kept, each added
      up by itself. */
  function Figures(es: seq<Event>, quotes: Quotes, keep: Event -> bool, n: nat): Tally
    requires n <= |es|
  {
    Tally(Total(es, (e: Event) => if keep(e) then 1 else 0, n),
          Total(es, (e: Event) => if keep(e) then AllTokens(e) else 0, n),
          RealTotal(es, (e: Event) => if keep(e) then quotes(e).usd else 0.0, n),
          RealTotal(es, (e: Event) => if keep(e) then quotes(e).sub else 0.0, n),
          0)
  }

  lemma FiguresGrow(es: seq<Event>, quotes: Quotes, keep: Event -> bool, n: nat)
    requires 0 < n <= |es|
    ensures Figures(es, quotes, keep, n)
      == if keep(es[n - 1]) then Tallies.Plus(Figures(es, quotes, keep, n - 1), CallOf(quotes, es[n - 1]))
         else Figures(es, quotes, keep, n - 1)
  {
  }

  /** Each cell holds the figures of exactly the turns with its key, and there is
      one for every key a turn has and for no other. */
  lemma {:induction false} CellHoldsItsTurns<K>(es: seq<Event>, quotes: Quotes, key: Event -> K, k: K,
                                                keep: Event -> bool, n: nat)
    requires n <= |es| && forall e :: keep(e) <==> !OnlyCounts(e) && key(e) == k
    ensures At(Gather(es, quotes, key, n), k) == Figures(es, quotes, keep, n)
    ensures k in Gather(es, quotes, key, n) <==> exists i :: 0 <= i < n && keep(es[i])
  {
    if n > 0 {
      CellHoldsItsTurns(es, quotes, key, k, keep, n - 1);
      FiguresGrow(es, quotes, keep, n);
    }
  }

  /** A day's cell: the turns of that local day, and those without a time on the
      UTC day of the session's first. */
  lemma {:induction false} DayCellIs(es: seq<Event>, quotes: Quotes, cal: Calendar, first: int, d: Day)
    ensures At(Gather(es, quotes, DayKey(cal, first), |es|), d)
      == Figures(es, quotes, (e: Event) => !OnlyCounts(e) && d == if e.at != 0 then cal.localDay(e.at)
                                                                  else cal.utcDay(first), |es|)
  {
    CellHoldsItsTurns(es, quotes, DayKey(cal, first), d,
      (e: Event) => !OnlyCounts(e) && d == if e.at != 0 then cal.localDay(e.at) else cal.utcDay(first), |es|);
  }

  /** A model's cell: the turns priced under that caption. */
  lemma {:induction false} ModelCellIs(es: seq<Event>, quotes: Quotes, caption: string)
    ensures At(Gather(es, quotes, FamilyKey(quotes), |es|), caption)
      == Figures(es, quotes, (e: Event) => !OnlyCounts(e) && quotes(e).caption == caption, |es|)
  {
    CellHoldsItsTurns(es, quotes, FamilyKey(quotes), caption,
      (e: Event) => !OnlyCounts(e) && quotes(e).caption == caption, |es|);
  }

  /** The totals: the turns' figures, and their tokens that have no price. */
  lemma {:induction false} TotalsAre(es: seq<Event>, quotes: Quotes, n: nat)
    requires n <= |es|
    ensures TurnTotal(es, quotes, n) == Figures(es, quotes, (e: Event) => !OnlyCounts(e), n)
    ensures UnpricedTokens(es, quotes, n)
         == Total(es, (e: Event) => if !OnlyCounts(e) && quotes(e).unpriced then AllTokens(e) else 0, n)
  {
    if n > 0 { TotalsAre(es, quotes, n - 1); }
  }
}
