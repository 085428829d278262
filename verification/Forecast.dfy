/** The weekly forecast: a plan recorded once, an actual recorded once after the
    week has ended, and the gate that opens with the first actual. */
module Forecast {
  import opened Schema

  /** Local days, numbered from a Monday: when each starts, and the day of an
      instant.  Days may be of any length. */
  datatype Calendar = Calendar(dayStart: int -> int, dayOf: int -> int) {
    ghost predicate Valid() {
      && (forall d, e :: d < e ==> dayStart(d) < dayStart(e))
      && (forall t :: dayStart(dayOf(t)) <= t < dayStart(dayOf(t) + 1))
    }

    function Week(t: int): int { dayOf(t) / 7 }

    function WeekStart(w: int): int { dayStart(7 * w) }

    function WeekEnd(w: int): int { dayStart(7 * w + 7) }
  }

  // ----- tokens by day -----

  predicate InRange(e: Event, from: int, until: Option<int>) {
    e.IsTurn() && e.at >= from && (until.Some? ==> e.at < until.value)
  }

  function RangeSum(es: seq<Event>, from: int, until: Option<int>, n: nat): int
    requires n <= |es|
  {
    if n == 0 then 0
    else RangeSum(es, from, until, n - 1) + (if InRange(es[n - 1], from, until) then es[n - 1].Tokens() else 0)
  }

  /** One day's total, None when no turn of the range falls on it. */
  function DayTotal(es: seq<Event>, cal: Calendar, from: int, until: Option<int>, d: int, n: nat): Option<int>
    requires n <= |es|
  {
    if n == 0 then None
    else
      var before, e := DayTotal(es, cal, from, until, d, n - 1), es[n - 1];
      if InRange(e, from, until) && cal.dayOf(e.at) == d then Some(OrZero(before) + e.Tokens()) else before
  }

  function OrderSum(order: seq<int>, byDay: map<int, int>, n: nat): int
    requires n <= |order| && forall i :: 0 <= i < |order| ==> order[i] in byDay
  {
    if n == 0 then 0 else OrderSum(order, byDay, n - 1) + byDay[order[n - 1]]
  }

  /** The list of days met, and what each holds. */
  datatype Daily = Daily(order: seq<int>, byDay: map<int, int>)

  predicate Listed(d: Daily) {
    && (forall i :: 0 <= i < |d.order| ==> d.order[i] in d.byDay)
    && (forall i, j :: 0 <= i < j < |d.order| ==> d.order[i] != d.order[j])
    && (forall day :: day in d.byDay ==> day in d.order)
  }

  function At(byDay: map<int, int>, d: int): Option<int> { if d in byDay then Some(byDay[d]) else None }

  function AddTo(d: Daily, day: int, tokens: int): Daily {
    Daily(if day in d.byDay then d.order else d.order + [day],
          d.byDay[day := OrZero(At(d.byDay, day)) + tokens])
  }

  lemma {:induction false} OrderSumSame(order: seq<int>, a: map<int, int>, b: map<int, int>, n: nat)
    requires n <= |order| && forall i :: 0 <= i < |order| ==> order[i] in a && order[i] in b
    requires forall i :: 0 <= i < n ==> a[order[i]] == b[order[i]]
    ensures OrderSum(order, a, n) == OrderSum(order, b, n)
  {
    if n > 0 { OrderSumSame(order, a, b, n - 1); }
  }

  lemma {:induction false} OrderSumPrefix(order: seq<int>, day: int, byDay: map<int, int>, n: nat)
    requires n <= |order| && day in byDay && forall i :: 0 <= i < |order| ==> order[i] in byDay
    ensures OrderSum(order + [day], byDay, n) == OrderSum(order, byDay, n)
  {
    if n > 0 { OrderSumPrefix(order, day, byDay, n - 1); }
  }

  lemma {:induction false} OrderSumChanges(
      order: seq<int>, a: map<int, int>, b: map<int, int>, k: nat, n: nat, tokens: int)
    requires n <= |order| && k < |order| && forall i :: 0 <= i < |order| ==> order[i] in a && order[i] in b
    requires forall i :: 0 <= i < |order| && i != k ==> a[order[i]] == b[order[i]]
    requires b[order[k]] == a[order[k]] + tokens
    ensures OrderSum(order, b, n) == OrderSum(order, a, n) + (if k < n then tokens else 0)
  {
    if n > 0 { OrderSumChanges(order, a, b, k, n - 1, tokens); }
  }

  function Sum(d: Daily): int
    requires Listed(d)
  {
    OrderSum(d.order, d.byDay, |d.order|)
  }

  lemma AddToAdds(d: Daily, day: int, tokens: int)
    requires Listed(d) && Listed(AddTo(d, day, tokens))
    ensures Sum(AddTo(d, day, tokens)) == Sum(d) + tokens
  {
    var d' := AddTo(d, day, tokens);
    if day in d.byDay {
      var k :| 0 <= k < |d.order| && d.order[k] == day;
      OrderSumChanges(d.order, d.byDay, d'.byDay, k, |d.order|, tokens);
    } else {
      assert forall i :: 0 <= i < |d.order| ==> d'.order[i] == d.order[i];
      OrderSumPrefix(d.order, day, d'.byDay, |d.order|);
      OrderSumSame(d.order, d.byDay, d'.byDay, |d.order|);
    }
  }

  /** The totals of the first n rows. */
  function Totals(es: seq<Event>, cal: Calendar, from: int, until: Option<int>, n: nat): Daily
    requires n <= |es|
  {
    if n == 0 then Daily([], map[])
    else
      var before, e := Totals(es, cal, from, until, n - 1), es[n - 1];
      if InRange(e, from, until) then AddTo(before, cal.dayOf(e.at), e.Tokens()) else before
  }

  /** Each day is listed once, holds its own turns, and all days together hold
      every turn of the range. */
  lemma {:induction false} TotalsAre(es: seq<Event>, cal: Calendar, from: int, until: Option<int>, n: nat)
    requires n <= |es|
    ensures Listed(Totals(es, cal, from, until, n))
    ensures Sum(Totals(es, cal, from, until, n)) == RangeSum(es, from, until, n)
  {
    if n > 0 {
      TotalsAre(es, cal, from, until, n - 1);
      var d, e := Totals(es, cal, from, until, n - 1), es[n - 1];
      AddToAdds(d, cal.dayOf(e.at), e.Tokens());
    }
  }

  lemma {:induction false} DayHolds(es: seq<Event>, cal: Calendar, from: int, until: Option<int>, d: int, n: nat)
    requires n <= |es|
    ensures At(Totals(es, cal, from, until, n).byDay, d) == DayTotal(es, cal, from, until, d, n)
  {
    if n > 0 { DayHolds(es, cal, from, until, d, n - 1); }
  }

  /** dailyTokenTotals, over the stored rows. */
  method DailyTokenTotals(es: seq<Event>, cal: Calendar, from: int, until: Option<int>) returns (d: Daily)
    ensures d == Totals(es, cal, from, until, |es|)
  {
    d := Daily([], map[]);
    for n := 0 to |es|
      invariant d == Totals(es, cal, from, until, n)
    {
      var e := es[n];
      if !e.IsTurn() || e.at < from || (until.Some? && e.at >= until.value) {
        continue;
      }
      var day := cal.dayOf(e.at);
      var order := d.order;
      if day !in d.byDay {
        order := order + [day];
      }
      d := Daily(order, d.byDay[day := OrZero(At(d.byDay, day)) + e.Tokens()]);
    }
  }

  // ----- a week's actual -----

  /** The tokens of the turns whose local day lies in the week. */
  function WeekTokens(es: seq<Event>, cal: Calendar, w: int, n: nat): int
    requires n <= |es|
  {
    if n == 0 then 0
    else
      WeekTokens(es, cal, w, n - 1)
      + (if es[n - 1].IsTurn() && cal.Week(es[n - 1].at) == w then es[n - 1].Tokens() else 0)
  }

  /** An instant is in a week exactly when it is between the week's two Mondays. */
  lemma WeekIff(cal: Calendar, t: int, w: int)
    requires cal.Valid()
    ensures cal.Week(t) == w <==> cal.WeekStart(w) <= t < cal.WeekEnd(w)
  {
  }

  lemma {:induction false} RangeIsWeek(es: seq<Event>, cal: Calendar, w: int, n: nat)
    requires n <= |es| && cal.Valid()
    ensures RangeSum(es, cal.WeekStart(w), Some(cal.WeekEnd(w)), n) == WeekTokens(es, cal, w, n)
  {
    if n > 0 {
      RangeIsWeek(es, cal, w, n - 1);
      WeekIff(cal, es[n - 1].at, w);
    }
  }

  lemma {:induction false} DayOfRange(es: seq<Event>, cal: Calendar, from: int, until: Option<int>, d: int, n: nat)
    requires n <= |es| && DayTotal(es, cal, from, until, d, n).Some?
    ensures exists k :: 0 <= k < n && InRange(es[k], from, until) && cal.dayOf(es[k].at) == d
  {
    if !(InRange(es[n - 1], from, until) && cal.dayOf(es[n - 1].at) == d) {
      DayOfRange(es, cal, from, until, d, n - 1);
    }
  }

  lemma {:induction false} DayInWeek(es: seq<Event>, cal: Calendar, w: int, d: int)
    requires cal.Valid() && d in Totals(es, cal, cal.WeekStart(w), Some(cal.WeekEnd(w)), |es|).byDay
    ensures d < cal.dayOf(cal.WeekEnd(w))
  {
    var from, until := cal.WeekStart(w), Some(cal.WeekEnd(w));
    DayHolds(es, cal, from, until, d, |es|);
    DayOfRange(es, cal, from, until, d, |es|);
    var k :| 0 <= k < |es| && InRange(es[k], from, until) && cal.dayOf(es[k].at) == d;
  }

  /** actualTokensForWeek: all of the week's turns, the last day's included. */
  method ActualTokensForWeek(es: seq<Event>, cal: Calendar, w: int) returns (total: int)
    requires cal.Valid()
    ensures total == WeekTokens(es, cal, w, |es|)
  {
    var from, until := cal.WeekStart(w), Some(cal.WeekEnd(w));
    var daily := DailyTokenTotals(es, cal, from, until);
    TotalsAre(es, cal, from, until, |es|);
    RangeIsWeek(es, cal, w, |es|);
    total := SumBefore(es, cal, w, daily);
  }

  /** Adds the days before the week's end day. */
  method SumBefore(ghost es: seq<Event>, cal: Calendar, w: int, daily: Daily) returns (total: int)
    requires cal.Valid() && Listed(daily) && daily == Totals(es, cal, cal.WeekStart(w), Some(cal.WeekEnd(w)), |es|)
    ensures total == Sum(daily)
  {
    var end := cal.dayOf(cal.WeekEnd(w));
    total := 0;
    for n := 0 to |daily.order|
      invariant total == OrderSum(daily.order, daily.byDay, n)
    {
      var day := daily.order[n];
      DayInWeek(es, cal, w, day);
      if day >= end {
        continue;
      }
      total := total + daily.byDay[day];
    }
  }

  // ----- a week's plan -----

  /** Go's integer division. */
  function Quot(a: int, n: nat): int
    requires n > 0
  {
    if a >= 0 then a / n else -((-a) / n)
  }

  type Lookup = int -> Option<int>

  /** Sum and count of the day's last m occurrences that have any turn. */
  function Past(at: Lookup, day: int, m: nat): (int, nat) {
    if m == 0 then (0, 0)
    else
      var before, v := Past(at, day, m - 1), at(day - 7 * m);
      if v.Some? then (before.0 + v.value, before.1 + 1) else before
  }

  function Average(at: Lookup, day: int): int {
    var p := Past(at, day, 4);
    if p.1 > 0 then Quot(p.0, p.1) else 0
  }

  function LineSum(at: Lookup, w: int, n: nat): int {
    if n == 0 then 0 else LineSum(at, w, n - 1) + Average(at, 7 * w + n - 1)
  }

  function LookupIn(byDay: map<int, int>): Lookup { (d: int) => At(byDay, d) }

  method PlanLine(byDay: map<int, int>, w: int) returns (line: seq<int>)
    ensures |line| == 7 && forall i :: 0 <= i < 7 ==> line[i] == Average(LookupIn(byDay), 7 * w + i)
  {
    ghost var at := LookupIn(byDay);
    line := [];
    for i := 0 to 7
      invariant |line| == i && forall k :: 0 <= k < i ==> line[k] == Average(at, 7 * w + k)
    {
      var day := 7 * w + i;
      var sum, n := 0, 0;
      for m := 0 to 4
        invariant (sum, n) == Past(at, day, m)
      {
        var key := day - 7 * (m + 1);
        if key in byDay {
          sum, n := sum + byDay[key], n + 1;
        }
      }
      var avg := 0;
      if n > 0 {
        avg := Quot(sum, n);
      }
      line := line + [avg];
    }
  }

  lemma {:induction false} PastBetween(at: Lookup, day: int, m: nat, lo: int, hi: int)
    requires forall k :: 1 <= k <= m && at(day - 7 * k).Some? ==> lo <= at(day - 7 * k).value <= hi
    ensures var p := Past(at, day, m); lo * p.1 <= p.0 <= hi * p.1
  {
    if m > 0 {
      PastBetween(at, day, m - 1, lo, hi);
      var p := Past(at, day, m - 1);
      assert lo * (p.1 + 1) == lo * p.1 + lo && hi * (p.1 + 1) == hi * p.1 + hi;
    }
  }

  lemma QuotBetween(sum: int, n: nat, lo: int, hi: int)
    requires n > 0 && 0 <= lo && lo * n <= sum <= hi * n
    ensures lo <= Quot(sum, n) <= hi
  {
    var q := sum / n;
    assert sum == n * q + sum % n;
    Order(n, q + 1, lo);
    Order(n, hi + 1, q);
    assert n * (q + 1) == n * q + n && n * (hi + 1) == n * hi + n;
  }

  lemma Order(n: nat, a: int, b: int)
    requires n > 0
    ensures a <= b ==> n * a <= n * b
  {
  }

  /** A day's plan lies between the least and the largest of its last four
      occurrences that had any turn, and is zero when none had. */
  lemma PlanBetween(at: Lookup, day: int, lo: int, hi: int)
    requires 0 <= lo && forall k :: 1 <= k <= 4 && at(day - 7 * k).Some? ==> lo <= at(day - 7 * k).value <= hi
    ensures if exists k :: 1 <= k <= 4 && at(day - 7 * k).Some?
            then lo <= Average(at, day) <= hi else Average(at, day) == 0
  {
    PastBetween(at, day, 4, lo, hi);
    PastCounts(at, day, 4);
    var p := Past(at, day, 4);
    if p.1 > 0 { QuotBetween(p.0, p.1, lo, hi); }
  }

  lemma {:induction false} PastCounts(at: Lookup, day: int, m: nat)
    ensures Past(at, day, m).1 > 0 <==> exists k :: 1 <= k <= m && at(day - 7 * k).Some?
  {
    if m > 0 {
      PastCounts(at, day, m - 1);
      if k :| 1 <= k <= m && at(day - 7 * k).Some? { assert k == m || k <= m - 1; }
    }
  }

  /** The day totals of everything from four weeks before the week on. */
  function PlanDays(es: seq<Event>, cal: Calendar, w: int): map<int, int> {
    Totals(es, cal, cal.dayStart(7 * w - 28), None, |es|).byDay
  }

  function PlanOf(es: seq<Event>, cal: Calendar, w: int): int { LineSum(LookupIn(PlanDays(es, cal, w)), w, 7) }

  method SumLine(line: seq<int>, ghost at: Lookup, w: int) returns (total: int)
    requires |line| == 7 && forall i :: 0 <= i < 7 ==> line[i] == Average(at, 7 * w + i)
    ensures total == LineSum(at, w, 7)
  {
    total := 0;
    for i := 0 to 7
      invariant total == LineSum(at, w, i)
    {
      total := total + line[i];
    }
  }

  method PlanTokensForWeek(es: seq<Event>, cal: Calendar, w: int) returns (total: int)
    ensures total == PlanOf(es, cal, w)
  {
    var daily := DailyTokenTotals(es, cal, cal.dayStart(7 * w - 28), None);
    var line := PlanLine(daily.byDay, w);
    total := SumLine(line, LookupIn(daily.byDay), w);
  }

  // ----- what the two figures are -----

  predicate TurnOn(cal: Calendar, d: int, e: Event) { !OnlyCounts(e) && cal.dayOf(e.at) == d }

  /** The tokens an event adds to a local day. */
  function OnDay(cal: Calendar, d: int): Event -> int { (e: Event) => if TurnOn(cal, d, e) then AllTokens(e) else 0 }

  lemma {:induction false} DayTotalIs(es: seq<Event>, cal: Calendar, from: int, d: int, n: nat)
    requires n <= |es| && cal.Valid() && from <= cal.dayStart(d)
    ensures OrZero(DayTotal(es, cal, from, None, d, n)) == Total(es, OnDay(cal, d), n)
    ensures DayTotal(es, cal, from, None, d, n).Some? <==> exists k :: 0 <= k < n && TurnOn(cal, d, es[k])
  {
    if n > 0 {
      DayTotalIs(es, cal, from, d, n - 1);
      DayTotalGrows(es, cal, from, d, n);
    }
  }

  lemma DayTotalGrows(es: seq<Event>, cal: Calendar, from: int, d: int, n: nat)
    requires 0 < n <= |es| && cal.Valid() && from <= cal.dayStart(d)
    ensures DayTotal(es, cal, from, None, d, n)
      == if TurnOn(cal, d, es[n - 1]) then Some(OrZero(DayTotal(es, cal, from, None, d, n - 1)) + AllTokens(es[n - 1]))
         else DayTotal(es, cal, from, None, d, n - 1)
  {
    assert cal.dayOf(es[n - 1].at) == d ==> from <= es[n - 1].at;
  }

  /** For every day from four weeks before the week on, the plan goes by all the
      turns stored for that local day. */
  lemma {:induction false} PlanDaysAre(es: seq<Event>, cal: Calendar, w: int, d: int)
    requires cal.Valid() && d >= 7 * w - 28
    ensures At(PlanDays(es, cal, w), d)
         == if exists k :: 0 <= k < |es| && TurnOn(cal, d, es[k]) then Some(Total(es, OnDay(cal, d), |es|)) else None
  {
    var from := cal.dayStart(7 * w - 28);
    assert from <= cal.dayStart(d);
    DayHolds(es, cal, from, None, d, |es|);
    DayTotalIs(es, cal, from, d, |es|);
  }

  function Present(o: Option<int>): nat { if o == None then 0 else 1 }

  /** A day's average is the quotient, cut off toward zero, of what the days one
      to four weeks before it hold by how many of those hold anything. */
  lemma AverageIs(at: Lookup, day: int)
    ensures var n := Present(at(day - 7)) + Present(at(day - 14)) + Present(at(day - 21)) + Present(at(day - 28));
            var sum := OrZero(at(day - 7)) + OrZero(at(day - 14)) + OrZero(at(day - 21)) + OrZero(at(day - 28));
            var avg := Average(at, day);
            && (n == 0 ==> avg == 0)
            && (n > 0 && sum >= 0 ==> n * avg <= sum < n * (avg + 1))
            && (n > 0 && sum < 0 ==> n * (avg - 1) < sum <= n * avg)
  {
    var n := Present(at(day - 7)) + Present(at(day - 14)) + Present(at(day - 21)) + Present(at(day - 28));
    var sum := OrZero(at(day - 7)) + OrZero(at(day - 14)) + OrZero(at(day - 21)) + OrZero(at(day - 28));
    PastIs(at, day);
    if n > 0 { QuotIs(sum, n); }
  }

  lemma {:induction false} PastIs(at: Lookup, day: int)
    ensures Past(at, day, 4)
      == (OrZero(at(day - 7)) + OrZero(at(day - 14)) + OrZero(at(day - 21)) + OrZero(at(day - 28)),
          Present(at(day - 7)) + Present(at(day - 14)) + Present(at(day - 21)) + Present(at(day - 28)))
  {
    assert Past(at, day, 1) == (OrZero(at(day - 7)), Present(at(day - 7)));
    var two := Past(at, day, 2);
    assert two == (OrZero(at(day - 7)) + OrZero(at(day - 14)), Present(at(day - 7)) + Present(at(day - 14)));
    var three := Past(at, day, 3);
    assert three == (two.0 + OrZero(at(day - 21)), two.1 + Present(at(day - 21)));
  }

  lemma QuotIs(sum: int, n: nat)
    requires n > 0
    ensures var q := Quot(sum, n);
            && (sum >= 0 ==> n * q <= sum < n * (q + 1))
            && (sum < 0 ==> n * (q - 1) < sum <= n * q)
  {
    var up := if sum >= 0 then sum else -sum;
    var q := up / n;
    assert up == n * q + up % n;
    assert n * (q + 1) == n * q + n;
    assert n * (-q - 1) == -(n * q) - n && n * (-q) == -(n * q);
  }

  /** A week's plan is its seven days' averages. */
  lemma PlanIs(es: seq<Event>, cal: Calendar, w: int)
    ensures var at := LookupIn(PlanDays(es, cal, w));
      PlanOf(es, cal, w)
      == Average(at, 7 * w) + Average(at, 7 * w + 1) + Average(at, 7 * w + 2) + Average(at, 7 * w + 3)
         + Average(at, 7 * w + 4) + Average(at, 7 * w + 5) + Average(at, 7 * w + 6)
  {
    LineSumIs(LookupIn(PlanDays(es, cal, w)), w);
  }

  lemma {:induction false} LineSumIs(at: Lookup, w: int)
    ensures LineSum(at, w, 7)
      == Average(at, 7 * w) + Average(at, 7 * w + 1) + Average(at, 7 * w + 2) + Average(at, 7 * w + 3)
         + Average(at, 7 * w + 4) + Average(at, 7 * w + 5) + Average(at, 7 * w + 6)
  {
    assert LineSum(at, w, 1) == Average(at, 7 * w);
    assert LineSum(at, w, 3) == LineSum(at, w, 1) + Average(at, 7 * w + 1) + Average(at, 7 * w + 2);
    assert LineSum(at, w, 5) == LineSum(at, w, 3) + Average(at, 7 * w + 3) + Average(at, 7 * w + 4);
    assert LineSum(at, w, 7) == LineSum(at, w, 5) + Average(at, 7 * w + 5) + Average(at, 7 * w + 6);
  }

  /** A week's actual is the tokens of the turns between its two Mondays. */
  lemma {:induction false} ActualIs(es: seq<Event>, cal: Calendar, w: int, of: Event -> int, n: nat)
    requires n <= |es| && cal.Valid()
    requires forall e :: of(e) == if !OnlyCounts(e) && cal.dayStart(7 * w) <= e.at < cal.dayStart(7 * w + 7)
                                  then AllTokens(e) else 0
    ensures WeekTokens(es, cal, w, n) == Total(es, of, n)
  {
    if n > 0 {
      ActualIs(es, cal, w, of, n - 1);
      WeekIff(cal, es[n - 1].at, w);
    }
  }

  // ----- the score book -----

  datatype Score = Score(plan: int, actual: Option<int>)

  /** forecast_scores, keyed by week. */
  type Scores = map<int, Score>

  function WithPlan(s: Scores, w: int, plan: int): Scores {
    if w in s then s else s[w := Score(plan, None)]
  }

  function WithActual(s: Scores, w: int, actual: int): Scores {
    if w in s && s[w].actual.None? then s[w := s[w].(actual := Some(actual))] else s
  }

  class ScoreBook {
    var scores: Scores

    constructor ()
      ensures scores == map[]
    {
      scores := map[];
    }

    /** INSERT ... ON CONFLICT DO NOTHING. */
    method InsertForecastPlan(w: int, plan: int)
      modifies this
      ensures scores == WithPlan(old(scores), w, plan)
    {
      if w !in scores {
        scores := scores[w := Score(plan, None)];
      }
    }

    /** UPDATE ... WHERE actual_tokens IS NULL. */
    method RecordForecastActual(w: int, actual: int)
      modifies this
      ensures scores == WithActual(old(scores), w, actual)
    {
      if w in scores && scores[w].actual.None? {
        scores := scores[w := scores[w].(actual := Some(actual))];
      }
    }

    /** Records this week's plan if it has none, then the actual of every week
        that has ended without one. */
    method EnsureScored(es: seq<Event>, cal: Calendar, now: int)
      requires cal.Valid()
      modifies this
      ensures scores == Ensured(old(scores), es, cal, now)
    {
      var w := cal.Week(now);
      if w !in scores {
        var plan := PlanTokensForWeek(es, cal, w);
        InsertForecastPlan(w, plan);
      }
      ScoreEnded(es, cal, now);
    }

    /** The second half of the pass: every unscored week that has ended. */
    method ScoreEnded(es: seq<Event>, cal: Calendar, now: int)
      requires cal.Valid()
      modifies this
      ensures scores == FilledAll(old(scores), es, cal, now)
    {
      var left, listed := scores.Keys, scores;
      ghost var final := FilledAll(listed, es, cal, now);
      while left != {}
        invariant left <= listed.Keys && scores.Keys == listed.Keys
        invariant forall v :: v in listed ==> scores[v] == if v in left then listed[v] else final[v]
        decreases |left|
      {
        assert (forall v :: v !in left) ==> left <= {};
        var v :| v in left;
        left := left - {v};
        if listed[v].actual.Some? || now < cal.WeekEnd(v) {
          continue;
        }
        var actual := ActualTokensForWeek(es, cal, v);
        RecordForecastActual(v, actual);
      }
      assert scores == final;
    }

    /** Build's gate: locked until some week has an actual. */
    method Locked() returns (locked: bool)
      ensures locked <==> !Unlocked(scores)
    {
      var left := scores.Keys;
      var scored := 0;
      while left != {}
        invariant left <= scores.Keys
        invariant scored >= 0 && (scored > 0 <==> exists v :: v in scores && v !in left && scores[v].actual.Some?)
        decreases |left|
      {
        assert (forall v :: v !in left) ==> left <= {};
        var v :| v in left;
        left := left - {v};
        if scores[v].actual.Some? {
          scored := scored + 1;
        }
      }
      locked := scored == 0;
    }
  }

  /** A week's row after the pass. */
  function Filled(s: Score, es: seq<Event>, cal: Calendar, v: int, now: int): Score {
    if s.actual.None? && now >= cal.WeekEnd(v) then s.(actual := Some(WeekTokens(es, cal, v, |es|))) else s
  }

  function Planned(s: Scores, es: seq<Event>, cal: Calendar, now: int): Scores {
    WithPlan(s, cal.Week(now), PlanOf(es, cal, cal.Week(now)))
  }

  function FilledAll(s: Scores, es: seq<Event>, cal: Calendar, now: int): Scores {
    map v | v in s :: Filled(s[v], es, cal, v, now)
  }

  /** The book after one call. */
  function Ensured(s: Scores, es: seq<Event>, cal: Calendar, now: int): Scores {
    FilledAll(Planned(s, es, cal, now), es, cal, now)
  }

  predicate Unlocked(s: Scores) { exists v :: v in s && s[v].actual.Some? }

  /** Right after a call, every week on the books that has ended has its actual. */
  lemma EndedWeeksAreScored(s: Scores, es: seq<Event>, cal: Calendar, now: int, w: int)
    requires w in Ensured(s, es, cal, now) && now >= cal.WeekEnd(w)
    ensures Ensured(s, es, cal, now)[w].actual.Some?
  {
  }

  /** A second call at the same time changes nothing, whatever was stored since. */
  lemma RepeatChangesNothing(s: Scores, es: seq<Event>, es': seq<Event>, cal: Calendar, now: int)
    ensures Ensured(Ensured(s, es, cal, now), es', cal, now) == Ensured(s, es, cal, now)
  {
    var once := Ensured(s, es, cal, now);
    assert cal.Week(now) in once;
    assert Planned(once, es', cal, now) == once;
    assert forall v :: v in once ==> Filled(once[v], es', cal, v, now) == once[v];
  }

  // ----- one week over a run of calls -----

  /** What one call means to one week: it falls in it, it comes at or after its
      end, and what it would record. */
  datatype Tick = Tick(inWeek: bool, ended: bool, plan: int, actual: int)

  function RowStep(before: Option<Score>, t: Tick): Option<Score> {
    var planned := if before.None? && t.inWeek then Some(Score(t.plan, None)) else before;
    if planned.Some? && planned.value.actual.None? && t.ended then Some(planned.value.(actual := Some(t.actual)))
    else planned
  }

  /** The week's row after the first n calls. */
  function RowAfter(ticks: nat -> Tick, n: nat): Option<Score> {
    if n == 0 then None else RowStep(RowAfter(ticks, n - 1), ticks(n - 1))
  }

  predicate Visits(ticks: nat -> Tick, n: nat) { exists i: nat :: i < n && ticks(i).inWeek }

  lemma {:induction false} RowIff(ticks: nat -> Tick, n: nat)
    ensures RowAfter(ticks, n).Some? <==> Visits(ticks, n)
  {
    if n > 0 {
      RowIff(ticks, n - 1);
      assert Visits(ticks, n) <==> Visits(ticks, n - 1) || ticks(n - 1).inWeek;
    }
  }

  lemma {:induction false} RowPlanIsFirst(ticks: nat -> Tick, n: nat, i: nat)
    requires i < n && ticks(i).inWeek && !Visits(ticks, i)
    ensures RowAfter(ticks, n).Some? && RowAfter(ticks, n).value.plan == ticks(i).plan
  {
    if n == i + 1 { RowIff(ticks, i); } else { RowPlanIsFirst(ticks, n - 1, i); }
  }

  /** Call j would record the actual: after the end, with a plan on the books. */
  predicate Ripe(ticks: nat -> Tick, j: nat) { ticks(j).ended && Visits(ticks, j) }

  predicate Scored(ticks: nat -> Tick, n: nat) { exists j: nat :: j < n && Ripe(ticks, j) }

  lemma {:induction false} RowScoredIff(ticks: nat -> Tick, n: nat)
    requires forall i: nat :: !(ticks(i).inWeek && ticks(i).ended)
    ensures (RowAfter(ticks, n).Some? && RowAfter(ticks, n).value.actual.Some?) <==> Scored(ticks, n)
  {
    if n > 0 {
      RowScoredIff(ticks, n - 1);
      RowIff(ticks, n - 1);
      assert Scored(ticks, n) <==> Scored(ticks, n - 1) || Ripe(ticks, n - 1);
    }
  }

  lemma {:induction false} RowActualIsFirst(ticks: nat -> Tick, n: nat, j: nat)
    requires forall i: nat :: !(ticks(i).inWeek && ticks(i).ended)
    requires j < n && Ripe(ticks, j) && !Scored(ticks, j)
    ensures RowAfter(ticks, n).Some? && RowAfter(ticks, n).value.actual == Some(ticks(j).actual)
  {
    if n == j + 1 {
      RowIff(ticks, j);
      RowScoredIff(ticks, j);
    } else {
      RowActualIsFirst(ticks, n - 1, j);
    }
  }

  // ----- runs -----

  /** One call: what the store holds then, and when it is. */
  datatype Call = Call(es: seq<Event>, now: int)

  function BookAfter(step: (Scores, nat) -> Scores, n: nat): Scores {
    if n == 0 then map[] else step(BookAfter(step, n - 1), n - 1)
  }

  function Steps(run: nat -> Call, cal: Calendar): (Scores, nat) -> Scores {
    (s: Scores, i: nat) => Ensured(s, run(i).es, cal, run(i).now)
  }

  /** The book after the first n calls of a run; the clock may do anything. */
  function Book(run: nat -> Call, cal: Calendar, n: nat): Scores { BookAfter(Steps(run, cal), n) }

  function Row(s: Scores, w: int): Option<Score> { if w in s then Some(s[w]) else None }

  function TickOf(call: Call, cal: Calendar, w: int): Tick {
    Tick(cal.Week(call.now) == w, call.now >= cal.WeekEnd(w),
         PlanOf(call.es, cal, w), WeekTokens(call.es, cal, w, |call.es|))
  }

  function Ticks(run: nat -> Call, cal: Calendar, w: int): nat -> Tick { (i: nat) => TickOf(run(i), cal, w) }

  lemma RowOfEnsured(s: Scores, call: Call, cal: Calendar, w: int)
    ensures Row(Ensured(s, call.es, cal, call.now), w) == RowStep(Row(s, w), TickOf(call, cal, w))
  {
  }

  predicate Follows(step: (Scores, nat) -> Scores, ticks: nat -> Tick, w: int, s: Scores, i: nat) {
    Row(step(s, i), w) == RowStep(Row(s, w), ticks(i))
  }

  lemma {:induction false} RowsFollow(step: (Scores, nat) -> Scores, ticks: nat -> Tick, n: nat, w: int)
    requires forall s, i: nat :: Follows(step, ticks, w, s, i)
    ensures Row(BookAfter(step, n), w) == RowAfter(ticks, n)
  {
    if n > 0 {
      RowsFollow(step, ticks, n - 1, w);
      assert Follows(step, ticks, w, BookAfter(step, n - 1), n - 1);
    }
  }

  /** The book is its weeks' rows, each on its own. */
  lemma {:induction false} BookIsRows(run: nat -> Call, cal: Calendar, n: nat, w: int)
    ensures Row(Book(run, cal, n), w) == RowAfter(Ticks(run, cal, w), n)
  {
    forall s, i: nat ensures Follows(Steps(run, cal), Ticks(run, cal, w), w, s, i) {
      RowOfEnsured(s, run(i), cal, w);
    }
    RowsFollow(Steps(run, cal), Ticks(run, cal, w), n, w);
  }

  lemma NeverBoth(run: nat -> Call, cal: Calendar, w: int)
    requires cal.Valid()
    ensures forall i: nat :: !(Ticks(run, cal, w)(i).inWeek && Ticks(run, cal, w)(i).ended)
  {
    forall i: nat ensures !(Ticks(run, cal, w)(i).inWeek && Ticks(run, cal, w)(i).ended) {
      WeekIff(cal, run(i).now, w);
    }
  }

  predicate FallsIn(run: nat -> Call, cal: Calendar, w: int, i: nat) { cal.Week(run(i).now) == w }

  predicate Visited(run: nat -> Call, cal: Calendar, w: int, n: nat) {
    exists i: nat :: i < n && FallsIn(run, cal, w, i)
  }

  lemma VisitsAre(run: nat -> Call, cal: Calendar, w: int, n: nat)
    ensures Visits(Ticks(run, cal, w), n) <==> Visited(run, cal, w, n)
  {
    var ticks := Ticks(run, cal, w);
    assert forall i: nat :: ticks(i).inWeek <==> FallsIn(run, cal, w, i);
  }

  /** A week is on the books exactly when some call fell in it. */
  lemma PlannedIff(run: nat -> Call, cal: Calendar, n: nat, w: int)
    ensures w in Book(run, cal, n) <==> Visited(run, cal, w, n)
  {
    BookIsRows(run, cal, n, w);
    RowIff(Ticks(run, cal, w), n);
    VisitsAre(run, cal, w, n);
  }

  /** Its plan is the one that the first such call computed, however many follow. */
  lemma PlanWrittenOnce(run: nat -> Call, cal: Calendar, n: nat, i: nat, w: int)
    requires i < n && FallsIn(run, cal, w, i) && !Visited(run, cal, w, i)
    ensures w in Book(run, cal, n) && Book(run, cal, n)[w].plan == PlanOf(run(i).es, cal, w)
  {
    BookIsRows(run, cal, n, w);
    VisitsAre(run, cal, w, i);
    RowPlanIsFirst(Ticks(run, cal, w), n, i);
  }

  /** Call j comes at or after the week's end and an earlier call fell in the week. */
  predicate Closes(run: nat -> Call, cal: Calendar, w: int, j: nat) {
    run(j).now >= cal.WeekEnd(w) && Visited(run, cal, w, j)
  }

  predicate Closed(run: nat -> Call, cal: Calendar, w: int, n: nat) {
    exists j: nat :: j < n && Closes(run, cal, w, j)
  }

  lemma RipeAre(run: nat -> Call, cal: Calendar, w: int, n: nat)
    ensures Ripe(Ticks(run, cal, w), n) <==> Closes(run, cal, w, n)
    ensures Scored(Ticks(run, cal, w), n) <==> Closed(run, cal, w, n)
  {
    var ticks := Ticks(run, cal, w);
    forall j: nat ensures Ripe(ticks, j) <==> Closes(run, cal, w, j) { VisitsAre(run, cal, w, j); }
  }

  /** A week has an actual exactly when some call closes it. */
  lemma ScoredIff(run: nat -> Call, cal: Calendar, n: nat, w: int)
    requires cal.Valid()
    ensures (w in Book(run, cal, n) && Book(run, cal, n)[w].actual.Some?) <==> Closed(run, cal, w, n)
  {
    BookIsRows(run, cal, n, w);
    NeverBoth(run, cal, w);
    RowScoredIff(Ticks(run, cal, w), n);
    RipeAre(run, cal, w, n);
  }

  /** The actual is the week's tokens as the first such call saw them, however
      many follow. */
  lemma {:induction false} ActualWrittenOnce(run: nat -> Call, cal: Calendar, n: nat, j: nat, w: int)
    requires cal.Valid() && j < n && Closes(run, cal, w, j) && !Closed(run, cal, w, j)
    ensures w in Book(run, cal, n)
    ensures Book(run, cal, n)[w].actual == Some(WeekTokens(run(j).es, cal, w, |run(j).es|))
  {
    BookIsRows(run, cal, n, w);
    NeverBoth(run, cal, w);
    RipeAre(run, cal, w, j);
    RowActualIsFirst(Ticks(run, cal, w), n, j);
  }

  lemma {:induction false} RowStays(ticks: nat -> Tick, m: nat, n: nat)
    requires m <= n && RowAfter(ticks, m).Some? && RowAfter(ticks, m).value.actual.Some?
    ensures RowAfter(ticks, n) == RowAfter(ticks, m)
  {
    if m < n { RowStays(ticks, m, n - 1); }
  }

  /** Once some week is scored the forecast never locks again. */
  lemma StaysUnlocked(run: nat -> Call, cal: Calendar, m: nat, n: nat)
    requires m <= n && Unlocked(Book(run, cal, m))
    ensures Unlocked(Book(run, cal, n))
  {
    var v :| v in Book(run, cal, m) && Book(run, cal, m)[v].actual.Some?;
    BookIsRows(run, cal, m, v);
    BookIsRows(run, cal, n, v);
    RowStays(Ticks(run, cal, v), m, n);
    assert v in Book(run, cal, n) && Book(run, cal, n)[v].actual.Some?;
  }
}
