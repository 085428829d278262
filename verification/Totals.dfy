/** Lifetime totals of a running session: one priced row per model, against
    pricing every stored turn. */
module SessionTotals {
  import opened Schema
  import opened Pricing

  /** One row of GROUP BY vendor, session_id, model. */
  datatype ModelTotal = ModelTotal(model: string, usage: Usage, minAt: int)

  function ModelUsage(turns: seq<Event>, model: string, n: nat): Usage
    requires n <= |turns|
  {
    if n == 0 then NO_USAGE
    else if turns[n - 1].model == model then Plus(ModelUsage(turns, model, n - 1), UsageOf(turns[n - 1]))
    else ModelUsage(turns, model, n - 1)
  }

  predicate EarliestOf(turns: seq<Event>, model: string, at: int) {
    && (exists k :: 0 <= k < |turns| && turns[k].model == model && turns[k].at == at)
    && (forall k :: 0 <= k < |turns| && turns[k].model == model ==> at <= turns[k].at)
  }

  /** One row for each model that occurs, in any order, each summing its turns. */
  predicate Groups(rows: seq<ModelTotal>, turns: seq<Event>) {
    && (forall i, j :: 0 <= i < j < |rows| ==> rows[i].model != rows[j].model)
    && (forall k :: 0 <= k < |turns| ==> HasRow(rows, turns[k].model, |rows|))
    && (forall i :: 0 <= i < |rows| ==> Sums(rows[i], turns))
  }

  predicate Sums(r: ModelTotal, turns: seq<Event>) {
    r.usage == ModelUsage(turns, r.model, |turns|) && EarliestOf(turns, r.model, r.minAt)
  }

  predicate HasRow(rows: seq<ModelTotal>, model: string, n: nat)
    requires n <= |rows|
  {
    exists i :: 0 <= i < n && rows[i].model == model
  }

  // ----- aggregate then price, or price then add -----

  function RowCost(rows: seq<ModelTotal>, price: Price, n: nat): real
    requires n <= |rows|
  {
    if n == 0 then 0.0 else RowCost(rows, price, n - 1) + price(rows[n - 1].model, rows[n - 1].usage)
  }

  function TurnCost(turns: seq<Event>, price: Price, n: nat): real
    requires n <= |turns|
  {
    if n == 0 then 0.0 else TurnCost(turns, price, n - 1) + price(turns[n - 1].model, UsageOf(turns[n - 1]))
  }

  function ModelCost(turns: seq<Event>, model: string, price: Price, n: nat): real
    requires n <= |turns|
  {
    if n == 0 then 0.0
    else ModelCost(turns, model, price, n - 1)
         + (if turns[n - 1].model == model then price(model, UsageOf(turns[n - 1])) else 0.0)
  }

  /** The turns before n, model by model over the first m rows. */
  function ModelCosts(rows: seq<ModelTotal>, turns: seq<Event>, price: Price, m: nat, n: nat): real
    requires m <= |rows| && n <= |turns|
  {
    if m == 0 then 0.0
    else ModelCosts(rows, turns, price, m - 1, n) + ModelCost(turns, rows[m - 1].model, price, n)
  }

  lemma {:induction false} UsagePrice(turns: seq<Event>, model: string, price: Price, n: nat)
    requires n <= |turns| && Additive(price)
    ensures price(model, ModelUsage(turns, model, n)) == ModelCost(turns, model, price, n)
  {
    if n > 0 { UsagePrice(turns, model, price, n - 1); }
  }

  lemma {:induction false} RowsAreModels(rows: seq<ModelTotal>, turns: seq<Event>, price: Price, m: nat)
    requires m <= |rows| && Additive(price)
    requires forall i :: 0 <= i < |rows| ==> Sums(rows[i], turns)
    ensures RowCost(rows, price, m) == ModelCosts(rows, turns, price, m, |turns|)
  {
    if m > 0 {
      RowsAreModels(rows, turns, price, m - 1);
      assert Sums(rows[m - 1], turns);
      UsagePrice(turns, rows[m - 1].model, price, |turns|);
    }
  }

  /** One more turn adds its price to one row's model, if any row has it. */
  lemma {:induction false} OneTurnMore(rows: seq<ModelTotal>, turns: seq<Event>, price: Price, m: nat, n: nat)
    requires m <= |rows| && 0 < n <= |turns|
    requires forall i, j :: 0 <= i < j < |rows| ==> rows[i].model != rows[j].model
    ensures ModelCosts(rows, turns, price, m, n) == ModelCosts(rows, turns, price, m, n - 1)
      + (if HasRow(rows, turns[n - 1].model, m) then price(turns[n - 1].model, UsageOf(turns[n - 1])) else 0.0)
  {
    if m > 0 {
      OneTurnMore(rows, turns, price, m - 1, n);
      assert HasRow(rows, turns[n - 1].model, m)
        <==> HasRow(rows, turns[n - 1].model, m - 1) || rows[m - 1].model == turns[n - 1].model;
    }
  }

  lemma {:induction false} NoTurns(rows: seq<ModelTotal>, turns: seq<Event>, price: Price, m: nat)
    requires m <= |rows|
    ensures ModelCosts(rows, turns, price, m, 0) == 0.0
  {
    if m > 0 { NoTurns(rows, turns, price, m - 1); }
  }

  lemma {:induction false} ModelsAreTurns(rows: seq<ModelTotal>, turns: seq<Event>, price: Price, n: nat)
    requires n <= |turns| && Groups(rows, turns)
    ensures ModelCosts(rows, turns, price, |rows|, n) == TurnCost(turns, price, n)
  {
    if n == 0 {
      NoTurns(rows, turns, price, |rows|);
    } else {
      ModelsAreTurns(rows, turns, price, n - 1);
      OneTurnMore(rows, turns, price, |rows|, n);
    }
  }

  /** For every linear price, the aggregated rows cost what the turns cost. */
  lemma {:induction false} AggregateThenPrice(rows: seq<ModelTotal>, turns: seq<Event>, price: Price)
    requires Groups(rows, turns) && Additive(price)
    ensures RowCost(rows, price, |rows|) == TurnCost(turns, price, |turns|)
  {
    RowsAreModels(rows, turns, price, |rows|);
    ModelsAreTurns(rows, turns, price, |turns|);
  }

  // ----- what the session card shows -----

  function TokensOf(u: Usage): int { u.input + u.cacheWrite + u.cacheRead + u.output }

  function RowTokens(rows: seq<ModelTotal>, n: nat): int
    requires n <= |rows|
  {
    if n == 0 then 0 else RowTokens(rows, n - 1) + TokensOf(rows[n - 1].usage)
  }

  function RowTurns(rows: seq<ModelTotal>, n: nat): int
    requires n <= |rows|
  {
    if n == 0 then 0 else RowTurns(rows, n - 1) + rows[n - 1].usage.turns
  }

  function TurnTokens(turns: seq<Event>, n: nat): int
    requires n <= |turns|
  {
    if n == 0 then 0 else TurnTokens(turns, n - 1) + turns[n - 1].Tokens()
  }

  /** start.IsZero() || r.MinAt.Before(start), row by row. */
  function RowStart(rows: seq<ModelTotal>, n: nat): int
    requires n <= |rows|
  {
    if n == 0 then 0
    else
      var start := RowStart(rows, n - 1);
      if start == 0 || rows[n - 1].minAt < start then rows[n - 1].minAt else start
  }

  /** The start a card that showed one shows after its rows: a zero time is
      taken for "not set". */
  function StartAfter(rows: seq<ModelTotal>, shown: int): int {
    if RowStart(rows, |rows|) != 0 then RowStart(rows, |rows|) else shown
  }

  /** The rebuilt event of a row. */
  function Synthetic(vendor: string, r: ModelTotal): Event {
    Event(vendor, "", "", "", 0, r.model, r.usage.input, Some(r.usage.cacheWrite), Some(r.usage.cacheRead),
      r.usage.output)
  }

  function Synthetics(vendor: string, rows: seq<ModelTotal>): (es: seq<Event>)
    ensures |es| == |rows| && forall i :: 0 <= i < |rows| ==> es[i] == Synthetic(vendor, rows[i])
  {
    seq(|rows|, i requires 0 <= i < |rows| => Synthetic(vendor, rows[i]))
  }

  /** A running session's card: the fields the totals overwrite. */
  class Session {
    const vendor: string
    var tokens: int
    var cost: real
    var turnCount: int
    var start: int
    var headline: Option<BasisCost>

    constructor (vendor: string, tokens: int, cost: real, turnCount: int, start: int, headline: Option<BasisCost>)
      ensures this.vendor == vendor && this.tokens == tokens && this.cost == cost
      ensures this.turnCount == turnCount && this.start == start && this.headline == headline
    {
      this.vendor, this.tokens, this.cost := vendor, tokens, cost;
      this.turnCount, this.start, this.headline := turnCount, start, headline;
    }

    /** Overwrites the card from the session's rows; without any, leaves it alone. */
    method Apply(cfg: Config, rows: seq<ModelTotal>)
      modifies this
      ensures rows == [] ==>
        tokens == old(tokens) && turnCount == old(turnCount) && cost == old(cost) && start == old(start)
          && headline == old(headline)
      ensures rows != [] ==>
        && tokens == RowTokens(rows, |rows|) && turnCount == RowTurns(rows, |rows|)
        && cost == RowCost(rows, SubPrice(cfg, vendor), |rows|)
        && start == StartAfter(rows, old(start))
        && headline == Headline(cfg, vendor,
          CostSum(Synthetics(vendor, rows), vendor, HeadlinePrice(cfg, vendor), |rows|))
    {
      if rows == [] {
        return;
      }
      var sum, turns, usd, first := 0, 0, 0.0, 0;
      var synth: seq<Event> := [];
      for n := 0 to |rows|
        invariant sum == RowTokens(rows, n) && turns == RowTurns(rows, n) && first == RowStart(rows, n)
        invariant usd == RowCost(rows, SubPrice(cfg, vendor), n)
        invariant |synth| == n && forall i :: 0 <= i < n ==> synth[i] == Synthetic(vendor, rows[i])
      {
        var r := rows[n];
        sum := sum + TokensOf(r.usage);
        turns := turns + r.usage.turns;
        if first == 0 || r.minAt < first {
          first := r.minAt;
        }
        usd := usd + EventCost(cfg, vendor, r.model, r.usage).sub;
        synth := synth + [Synthetic(vendor, r)];
      }
      assert synth == Synthetics(vendor, rows);
      tokens, cost, turnCount := sum, usd, turns;
      var vcs := CostForEvents(cfg, synth, [vendor]);
      headline := vcs[0].headline;
      if first != 0 {
        start := first;
      }
    }
  }

  // ----- the two forms agree -----

  function TokenPrice(): Price { (_, u: Usage) => TokensOf(u) as real }

  function TurnPrice(): Price { (_, u: Usage) => u.turns as real }

  lemma {:induction false} RowCountsAsCost(rows: seq<ModelTotal>, n: nat)
    requires n <= |rows|
    ensures RowCost(rows, TokenPrice(), n) == RowTokens(rows, n) as real
    ensures RowCost(rows, TurnPrice(), n) == RowTurns(rows, n) as real
  {
    if n > 0 { RowCountsAsCost(rows, n - 1); }
  }

  lemma {:induction false} TurnCountsAsCost(turns: seq<Event>, n: nat)
    requires n <= |turns|
    ensures TurnCost(turns, TokenPrice(), n) == TurnTokens(turns, n) as real
    ensures TurnCost(turns, TurnPrice(), n) == n as real
  {
    if n > 0 { TurnCountsAsCost(turns, n - 1); }
  }

  /** Tokens, turn count and subscription cost: the same as turn by turn. */
  lemma {:induction false} TotalsAreTurnSums(cfg: Config, vendor: string, rows: seq<ModelTotal>, turns: seq<Event>)
    requires Groups(rows, turns)
    ensures RowTokens(rows, |rows|) == TurnTokens(turns, |turns|)
    ensures RowTurns(rows, |rows|) == |turns|
    ensures RowCost(rows, SubPrice(cfg, vendor), |rows|) == TurnCost(turns, SubPrice(cfg, vendor), |turns|)
  {
    RowCountsAreTurnCounts(rows, turns);
    SubAdditive(cfg, vendor);
    AggregateThenPrice(rows, turns, SubPrice(cfg, vendor));
  }

  lemma CountsAdditive()
    ensures Additive(TokenPrice()) && Additive(TurnPrice())
  {
  }

  lemma {:induction false} RowCountsAreTurnCounts(rows: seq<ModelTotal>, turns: seq<Event>)
    requires Groups(rows, turns)
    ensures RowTokens(rows, |rows|) == TurnTokens(turns, |turns|) && RowTurns(rows, |rows|) == |turns|
  {
    CountsAdditive();
    AggregateThenPrice(rows, turns, TokenPrice());
    AggregateThenPrice(rows, turns, TurnPrice());
    RowCountsAsCost(rows, |rows|);
    TurnCountsAsCost(turns, |turns|);
  }

  lemma {:induction false} OwnCost(es: seq<Event>, vendor: string, price: Price, n: nat)
    requires n <= |es| && forall k :: 0 <= k < |es| ==> es[k].vendor == vendor
    ensures CostSum(es, vendor, price, n) == TurnCost(es, price, n)
  {
    if n > 0 { OwnCost(es, vendor, price, n - 1); }
  }

  /** A price that does not look at how many turns the tokens came from. */
  ghost predicate IgnoresTurns(price: Price) {
    forall model, u: Usage, k: int :: price(model, u.(turns := k)) == price(model, u)
  }

  lemma HeadlineIgnoresTurns(cfg: Config, vendor: string)
    ensures IgnoresTurns(HeadlinePrice(cfg, vendor))
  {
  }

  lemma {:induction false} SyntheticCost(vendor: string, rows: seq<ModelTotal>, price: Price, n: nat)
    requires n <= |rows| && IgnoresTurns(price)
    ensures CostSum(Synthetics(vendor, rows), vendor, price, n) == RowCost(rows, price, n)
  {
    if n > 0 {
      var r := rows[n - 1];
      SyntheticCost(vendor, rows, price, n - 1);
      assert UsageOf(Synthetic(vendor, r)) == r.usage.(turns := 1);
    }
  }

  /** The headline of the rebuilt events is the headline of the turns
      themselves: same basis, same label, same dollars and credits. */
  lemma {:induction false} HeadlineIsTurnHeadline(cfg: Config, vendor: string, rows: seq<ModelTotal>, turns: seq<Event>)
    requires Groups(rows, turns) && forall k :: 0 <= k < |turns| ==> turns[k].vendor == vendor
    ensures Headline(cfg, vendor, CostSum(Synthetics(vendor, rows), vendor, HeadlinePrice(cfg, vendor), |rows|))
      == Headline(cfg, vendor, CostSum(turns, vendor, HeadlinePrice(cfg, vendor), |turns|))
    ensures rows == [] <==> turns == []
  {
    var price := HeadlinePrice(cfg, vendor);
    HeadlineAdditive(cfg, vendor);
    HeadlineIgnoresTurns(cfg, vendor);
    SyntheticCost(vendor, rows, price, |rows|);
    AggregateThenPrice(rows, turns, price);
    OwnCost(turns, vendor, price, |turns|);
    if rows != [] { assert Sums(rows[0], turns); }
    if turns != [] { assert HasRow(rows, turns[0].model, |rows|); }
  }

  predicate Earliest(turns: seq<Event>, at: int) {
    && (exists k :: 0 <= k < |turns| && turns[k].at == at)
    && (forall k :: 0 <= k < |turns| ==> at <= turns[k].at)
  }

  lemma {:induction false} RowStartIsLeast(rows: seq<ModelTotal>, n: nat)
    requires n <= |rows| && forall i :: 0 <= i < |rows| ==> rows[i].minAt > 0
    ensures forall i :: 0 <= i < n ==> 0 < RowStart(rows, n) <= rows[i].minAt
    ensures n > 0 ==> exists i :: 0 <= i < n && rows[i].minAt == RowStart(rows, n)
  {
    if n > 0 { RowStartIsLeast(rows, n - 1); }
  }

  /** When every turn has a time, the start is the earliest of them. */
  lemma {:induction false} StartIsEarliest(rows: seq<ModelTotal>, turns: seq<Event>)
    requires Groups(rows, turns) && turns != [] && forall k :: 0 <= k < |turns| ==> turns[k].at > 0
    ensures RowStart(rows, |rows|) != 0 && Earliest(turns, RowStart(rows, |rows|))
  {
    assert HasRow(rows, turns[0].model, |rows|);
    forall i | 0 <= i < |rows| ensures rows[i].minAt > 0 {
      assert Sums(rows[i], turns);
    }
    RowStartIsLeast(rows, |rows|);
    var start := RowStart(rows, |rows|);
    forall k | 0 <= k < |turns| ensures start <= turns[k].at {
      assert HasRow(rows, turns[k].model, |rows|);
      var i :| 0 <= i < |rows| && rows[i].model == turns[k].model;
      assert Sums(rows[i], turns);
    }
    var i :| 0 <= i < |rows| && rows[i].minAt == start;
    assert Sums(rows[i], turns);
  }

  lemma {:induction false} RowStartZeroIff(rows: seq<ModelTotal>, n: nat)
    requires 0 < n <= |rows| && forall i :: 0 <= i < |rows| ==> rows[i].minAt >= 0
    ensures RowStart(rows, n) >= 0 && (RowStart(rows, n) == 0 <==> rows[n - 1].minAt == 0)
  {
    if n > 1 { RowStartZeroIff(rows, n - 1); }
  }

  /** The start a card ends up with is that of its earliest turn if and only if
      every turn has a time, whatever the order of the rows; but for a card that
      showed no start and whose last row's model has a turn without a time. */
  lemma StartIsEarliestIff(rows: seq<ModelTotal>, turns: seq<Event>, shown: int)
    requires Groups(rows, turns) && turns != [] && forall k :: 0 <= k < |turns| ==> turns[k].at >= 0
    ensures rows != []
    ensures Earliest(turns, StartAfter(rows, shown))
      <==> (forall k :: 0 <= k < |turns| ==> turns[k].at > 0) || (shown == 0 && rows[|rows| - 1].minAt == 0)
  {
    assert HasRow(rows, turns[0].model, |rows|);
    forall i | 0 <= i < |rows| ensures rows[i].minAt >= 0 {
      assert Sums(rows[i], turns);
    }
    RowStartZeroIff(rows, |rows|);
    if forall k :: 0 <= k < |turns| ==> turns[k].at > 0 {
      StartIsEarliest(rows, turns);
    }
  }

  // ----- the rows themselves -----

  /** The stored turns of one session, without the synthetic tool-only rows. */
  function TurnsOf(stored: seq<Event>, vendor: string, sessionID: string, n: nat): (turns: seq<Event>)
    requires n <= |stored|
    ensures forall k :: 0 <= k < |turns| ==> turns[k].vendor == vendor && turns[k].IsTurn()
  {
    if n == 0 then []
    else
      var e := stored[n - 1];
      TurnsOf(stored, vendor, sessionID, n - 1)
      + (if e.vendor == vendor && e.sessionID == sessionID && e.IsTurn() then [e] else [])
  }

  /** Whatever is counted, these turns amount to what the session's turns among
      the stored rows do. */
  lemma {:induction false} TurnsAre(stored: seq<Event>, vendor: string, sessionID: string, of: Event -> int, n: nat)
    requires n <= |stored|
    ensures Total(TurnsOf(stored, vendor, sessionID, n), of, |TurnsOf(stored, vendor, sessionID, n)|)
      == Total(stored, (e: Event) => if e.vendor == vendor && e.sessionID == sessionID && !OnlyCounts(e)
                                     then of(e) else 0, n)
  {
    if n > 0 {
      var before, e := TurnsOf(stored, vendor, sessionID, n - 1), stored[n - 1];
      TurnsAre(stored, vendor, sessionID, of, n - 1);
      assert (before + [e])[..|before|] == before && before + [] == before;
      TotalOfPrefix(before + [e], of, |before|, |before|);
    }
  }

  /** The query for one session: a row per model, in the order of first occurrence. */
  method Totals(stored: seq<Event>, vendor: string, sessionID: string) returns (rows: seq<ModelTotal>)
    ensures Groups(rows, TurnsOf(stored, vendor, sessionID, |stored|))
  {
    rows := [];
    for n := 0 to |stored|
      invariant Groups(rows, TurnsOf(stored, vendor, sessionID, n))
    {
      var e := stored[n];
      ghost var turns := TurnsOf(stored, vendor, sessionID, n);
      if e.vendor == vendor && e.sessionID == sessionID && e.IsTurn() {
        rows := AddTurn(rows, turns, e);
      } else {
        assert turns + [] == turns;
      }
    }
  }

  method AddTurn(rows: seq<ModelTotal>, ghost turns: seq<Event>, e: Event) returns (more: seq<ModelTotal>)
    requires Groups(rows, turns)
    ensures Groups(more, turns + [e])
  {
    var i := 0;
    while i < |rows| && rows[i].model != e.model
      invariant 0 <= i <= |rows| && forall k :: 0 <= k < i ==> rows[k].model != e.model
    {
      i := i + 1;
    }
    if i < |rows| {
      more := rows[i := WithTurn(rows[i], e)];
    } else {
      more := rows + [ModelTotal(e.model, UsageOf(e), e.at)];
    }
    AddedTurn(rows, turns, e, i, more);
  }

  lemma {:induction false} ModelUsagePrefix(turns: seq<Event>, e: Event, model: string, n: nat)
    requires n <= |turns|
    ensures ModelUsage(turns + [e], model, n) == ModelUsage(turns, model, n)
  {
    if n > 0 { ModelUsagePrefix(turns, e, model, n - 1); }
  }

  lemma {:induction false} ModelUsageAbsent(turns: seq<Event>, model: string, n: nat)
    requires n <= |turns| && forall k :: 0 <= k < n ==> turns[k].model != model
    ensures ModelUsage(turns, model, n) == NO_USAGE
  {
    if n > 0 { ModelUsageAbsent(turns, model, n - 1); }
  }

  lemma EarliestMore(turns: seq<Event>, e: Event, model: string, at: int)
    requires EarliestOf(turns, model, at)
    ensures EarliestOf(turns + [e], model, if e.model == model && e.at < at then e.at else at)
  {
    var k :| 0 <= k < |turns| && turns[k].model == model && turns[k].at == at;
    assert (turns + [e])[k] == turns[k] && (turns + [e])[|turns|] == e;
  }

  lemma EarliestFirst(turns: seq<Event>, e: Event)
    requires forall k :: 0 <= k < |turns| ==> turns[k].model != e.model
    ensures EarliestOf(turns + [e], e.model, e.at)
  {
    assert (turns + [e])[|turns|] == e;
  }

  function WithTurn(r: ModelTotal, e: Event): ModelTotal {
    ModelTotal(r.model, Plus(r.usage, UsageOf(e)), if e.at < r.minAt then e.at else r.minAt)
  }

  lemma OldRowSums(r: ModelTotal, turns: seq<Event>, e: Event)
    requires Sums(r, turns)
    ensures Sums(if r.model == e.model then WithTurn(r, e) else r, turns + [e])
  {
    ModelUsagePrefix(turns, e, r.model, |turns|);
    EarliestMore(turns, e, r.model, r.minAt);
  }

  lemma NewRowSums(turns: seq<Event>, e: Event)
    requires forall k :: 0 <= k < |turns| ==> turns[k].model != e.model
    ensures Sums(ModelTotal(e.model, UsageOf(e), e.at), turns + [e])
  {
    ModelUsagePrefix(turns, e, e.model, |turns|);
    ModelUsageAbsent(turns, e.model, |turns|);
    EarliestFirst(turns, e);
  }

  lemma KeepsRows(rows: seq<ModelTotal>, more: seq<ModelTotal>, model: string)
    requires HasRow(rows, model, |rows|) && |rows| <= |more|
    requires forall j :: 0 <= j < |rows| ==> more[j].model == rows[j].model
    ensures HasRow(more, model, |more|)
  {
    var j :| 0 <= j < |rows| && rows[j].model == model;
    assert more[j].model == model;
  }

  lemma AddedTurn(rows: seq<ModelTotal>, turns: seq<Event>, e: Event, i: nat, more: seq<ModelTotal>)
    requires Groups(rows, turns) && i <= |rows|
    requires forall k :: 0 <= k < i ==> rows[k].model != e.model
    requires i < |rows| ==> rows[i].model == e.model && more == rows[i := WithTurn(rows[i], e)]
    requires i == |rows| ==> more == rows + [ModelTotal(e.model, UsageOf(e), e.at)]
    ensures Groups(more, turns + [e])
  {
    forall j | 0 <= j < |more| ensures Sums(more[j], turns + [e]) {
      if j < |rows| {
        assert Sums(rows[j], turns);
        OldRowSums(rows[j], turns, e);
      } else {
        NewRowSums(turns, e);
      }
    }
    forall k | 0 <= k < |turns + [e]| ensures HasRow(more, (turns + [e])[k].model, |more|) {
      if k < |turns| {
        KeepsRows(rows, more, turns[k].model);
      } else {
        assert more[i].model == e.model;
      }
    }
  }
}
