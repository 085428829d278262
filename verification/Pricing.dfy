/** The price books: what one event costs, and what a set of events costs on
    every basis its vendor's book covers. */
module Pricing {
  import opened Schema

  /** Dollars for a million tokens of each class. */
  datatype Rate = Rate(input: real, cacheWrite: real, cacheRead: real, output: real, caption: string)

  type Book = map<string, Rate>

  /** EventCost and CostForEvents price OpenAI from two different books. */
  datatype Config = Config(
    anthropic: Book, openAI: Book, openAIPrices: Book, copilot: Book,
    outputFactor: real, calibratedOn: string, creditUSD: real)
  {
    predicate SubscriptionConfigured() { calibratedOn != "" && calibratedOn != "example" }

    function CreditUnit(): real { if creditUSD > 0.0 then creditUSD else 0.01 }
  }

  /** Tokens by class, and how many turns they come from. */
  datatype Usage = Usage(input: int, cacheWrite: int, cacheRead: int, output: int, turns: int)

  const NO_USAGE := Usage(0, 0, 0, 0, 0)

  function UsageOf(e: Event): Usage {
    Usage(e.input, OrZero(e.cacheWrite), OrZero(e.cacheRead), e.output, 1)
  }

  function Plus(a: Usage, b: Usage): Usage {
    Usage(a.input + b.input, a.cacheWrite + b.cacheWrite, a.cacheRead + b.cacheRead, a.output + b.output,
      a.turns + b.turns)
  }

  /** What a model's usage costs. */
  type Price = (string, Usage) -> real

  function AtRate(r: Rate, u: Usage): real {
    (u.input as real * r.input + u.cacheWrite as real * r.cacheWrite
     + u.cacheRead as real * r.cacheRead + u.output as real * r.output) / 1_000_000.0
  }

  function Listed(book: Book, model: string, u: Usage): real {
    if model in book then AtRate(book[model], u) else 0.0
  }

  function ListPrice(book: Book): Price { (model, u) => Listed(book, model, u) }

  /** Cache writes are not charged. */
  function OpenAIPrice(book: Book): Price { (model, u: Usage) => Listed(book, model, u.(cacheWrite := 0)) }

  /** The output-driven share of the subscription. */
  function SubscriptionShare(cfg: Config, model: string, u: Usage): real {
    if model in cfg.anthropic then
      (u.output as real * cfg.anthropic[model].output + u.input as real * cfg.anthropic[model].input)
      / 1_000_000.0 * cfg.outputFactor
    else 0.0
  }

  function SubscriptionPrice(cfg: Config): Price { (model, u) => SubscriptionShare(cfg, model, u) }

  datatype Quote = Quote(usd: real, sub: real, caption: string, unpriced: bool)

  function LabelIn(book: Book, model: string): string { if model in book then book[model].caption else model }

  function EventCost(cfg: Config, vendor: string, model: string, u: Usage): Quote {
    if vendor == "anthropic" then
      Quote(Listed(cfg.anthropic, model, u), SubscriptionShare(cfg, model, u),
            LabelIn(cfg.anthropic, model), model !in cfg.anthropic)
    else if vendor == "openai" then
      var usd := OpenAIPrice(cfg.openAIPrices)(model, u);
      Quote(usd, usd, LabelIn(cfg.openAIPrices, model), model !in cfg.openAIPrices)
    else if vendor == "github" then
      var usd := Listed(cfg.copilot, model, u);
      Quote(usd, usd, LabelIn(cfg.copilot, model), model !in cfg.copilot)
    else
      Quote(0.0, 0.0, model, true)
  }

  // ----- sums over events -----

  function CostSum(events: seq<Event>, vendor: string, price: Price, n: nat): real
    requires n <= |events|
  {
    if n == 0 then 0.0
    else
      var e := events[n - 1];
      CostSum(events, vendor, price, n - 1) + (if e.vendor == vendor then price(e.model, UsageOf(e)) else 0.0)
  }

  /** The loop behind each of the four cost sums. */
  method SumCost(events: seq<Event>, vendor: string, price: Price) returns (usd: real)
    ensures usd == CostSum(events, vendor, price, |events|)
  {
    usd := 0.0;
    for n := 0 to |events|
      invariant usd == CostSum(events, vendor, price, n)
    {
      var e := events[n];
      if e.vendor != vendor {
        continue;
      }
      usd := usd + price(e.model, UsageOf(e));
    }
  }

  datatype Basis = ApiList | Subscription | Credits

  datatype BasisCost = BasisCost(basis: Basis, caption: string, usd: real, credits: real)

  datatype VendorCost = VendorCost(vendor: string, bases: seq<BasisCost>, headline: Option<BasisCost>)

  function Find(bases: seq<BasisCost>, basis: Basis): Option<BasisCost> {
    if bases == [] then None else if bases[0].basis == basis then Some(bases[0]) else Find(bases[1..], basis)
  }

  lemma {:induction false} FindOnly(bases: seq<BasisCost>)
    ensures bases == [] ==> forall b :: Find(bases, b) == None
    ensures |bases| == 1 ==> forall b :: Find(bases, b) == if bases[0].basis == b then Some(bases[0]) else None
    ensures |bases| == 2 ==>
      forall b :: Find(bases, b) == if bases[0].basis == b then Some(bases[0]) else Find([bases[1]], b)
  {
    if |bases| == 2 { assert bases[1..] == [bases[1]]; }
  }

  function HeadlineBasis(vendor: string, bases: seq<BasisCost>): Option<BasisCost> {
    var credits, share, list := Find(bases, Credits), Find(bases, Subscription), Find(bases, ApiList);
    if vendor == "github" && credits.Some? then credits
    else if share.Some? then share
    else if list.Some? then Some(list.value.(caption := "API list (upper bound)"))
    else None
  }

  function BasisPrice(cfg: Config, vendor: string, basis: Basis): Price {
    if vendor == "anthropic" then
      if basis == Subscription then SubscriptionPrice(cfg) else ListPrice(cfg.anthropic)
    else if vendor == "openai" then OpenAIPrice(cfg.openAI)
    else if vendor == "github" then ListPrice(cfg.copilot)
    else (_, _) => 0.0
  }

  /** The price behind a vendor's headline. */
  function HeadlinePrice(cfg: Config, vendor: string): Price {
    BasisPrice(cfg, vendor, if cfg.SubscriptionConfigured() then Subscription else ApiList)
  }

  /** Credits for Copilot, the subscription share when configured, else the API
      list as an upper bound, and nothing for a vendor without a book. */
  function Headline(cfg: Config, vendor: string, usd: real): Option<BasisCost> {
    if vendor == "github" then
      Some(BasisCost(Credits, "GitHub Copilot credits", usd, usd / cfg.CreditUnit()))
    else if vendor == "anthropic" && cfg.SubscriptionConfigured() then
      Some(BasisCost(Subscription, "Subscription share", usd, 0.0))
    else if vendor == "anthropic" || vendor == "openai" then
      Some(BasisCost(ApiList, "API list (upper bound)", usd, 0.0))
    else None
  }

  /** A line in dollars alone. */
  predicate Shows(b: BasisCost, basis: Basis, caption: string) {
    b.basis == basis && b.caption == caption && b.credits == 0.0
  }

  /** Which basis each vendor leads with, its label, and what a credit is worth. */
  lemma HeadlineIs(cfg: Config, vendor: string, usd: real)
    ensures Headline(cfg, "github", usd)
         == Some(BasisCost(Credits, "GitHub Copilot credits", usd,
              if cfg.creditUSD > 0.0 then usd / cfg.creditUSD else 100.0 * usd))
    ensures Headline(cfg, "anthropic", usd)
         == Some(if cfg.calibratedOn == "" || cfg.calibratedOn == "example"
                 then BasisCost(ApiList, "API list (upper bound)", usd, 0.0)
                 else BasisCost(Subscription, "Subscription share", usd, 0.0))
    ensures Headline(cfg, "openai", usd) == Some(BasisCost(ApiList, "API list (upper bound)", usd, 0.0))
    ensures vendor != "github" && vendor != "anthropic" && vendor != "openai" ==> Headline(cfg, vendor, usd) == None
    ensures Headline(cfg, vendor, usd).Some? ==>
      HeadlinePrice(cfg, vendor) == BasisPrice(cfg, vendor, Headline(cfg, vendor, usd).value.basis)
  {
  }

  method PriceVendor(cfg: Config, vendor: string, events: seq<Event>) returns (vc: VendorCost)
    ensures vc.vendor == vendor
    ensures vc.headline == Headline(cfg, vendor, CostSum(events, vendor, HeadlinePrice(cfg, vendor), |events|))
    ensures forall k :: 0 <= k < |vc.bases| ==>
      vc.bases[k].usd == CostSum(events, vendor, BasisPrice(cfg, vendor, vc.bases[k].basis), |events|)
    ensures vendor == "anthropic" && cfg.SubscriptionConfigured() ==>
      && |vc.bases| == 2 && Shows(vc.bases[0], ApiList, "API list")
      && Shows(vc.bases[1], Subscription, "Subscription share")
    ensures (vendor == "anthropic" && !cfg.SubscriptionConfigured()) || vendor == "openai" ==>
      |vc.bases| == 1 && Shows(vc.bases[0], ApiList, "API list")
    ensures vendor == "github" ==>
      && |vc.bases| == 1 && vc.bases[0].basis == Credits && vc.bases[0].caption == "GitHub Copilot credits"
      && vc.bases[0].credits * cfg.CreditUnit() == vc.bases[0].usd
    ensures vendor != "anthropic" && vendor != "openai" && vendor != "github" ==> vc.bases == []
  {
    var bases: seq<BasisCost> := [];
    match vendor {
      case "anthropic" =>
        var usd := SumCost(events, vendor, ListPrice(cfg.anthropic));
        bases := bases + [BasisCost(ApiList, "API list", usd, 0.0)];
        if cfg.SubscriptionConfigured() {
          var share := SumCost(events, vendor, SubscriptionPrice(cfg));
          bases := bases + [BasisCost(Subscription, "Subscription share", share, 0.0)];
        }
      case "openai" =>
        var usd := SumCost(events, vendor, OpenAIPrice(cfg.openAI));
        bases := bases + [BasisCost(ApiList, "API list", usd, 0.0)];
      case "github" =>
        var usd := SumCost(events, vendor, ListPrice(cfg.copilot));
        bases := bases + [BasisCost(Credits, "GitHub Copilot credits", usd, usd / cfg.CreditUnit())];
      case _ =>
    }
    FindOnly(bases);
    vc := VendorCost(vendor, bases, HeadlineBasis(vendor, bases));
  }

  function OfVendor(events: seq<Event>, vendor: string, n: nat): seq<Event>
    requires n <= |events|
  {
    if n == 0 then []
    else OfVendor(events, vendor, n - 1) + (if events[n - 1].vendor == vendor then [events[n - 1]] else [])
  }

  /** The headline of one vendor, priced over all the events. */
  predicate HeadlineOf(cfg: Config, events: seq<Event>, vendor: string, vc: VendorCost) {
    vc.vendor == vendor
    && vc.headline == Headline(cfg, vendor, CostSum(events, vendor, HeadlinePrice(cfg, vendor), |events|))
  }

  method GroupByVendor(events: seq<Event>, order: seq<string>) returns (byVendor: map<string, seq<Event>>)
    requires forall k :: 0 <= k < |events| ==> events[k].vendor in order
    ensures forall v :: v in order ==> v in byVendor && byVendor[v] == OfVendor(events, v, |events|)
  {
    byVendor := map v | v in order :: [];
    for n := 0 to |events|
      invariant forall v :: v in order ==> v in byVendor && byVendor[v] == OfVendor(events, v, n)
    {
      var e := events[n];
      byVendor := byVendor[e.vendor := byVendor[e.vendor] + [e]];
    }
  }

  /** Groups by vendor and prices each group; order is the sorted list of the
      vendors that occur. */
  method CostForEvents(cfg: Config, events: seq<Event>, order: seq<string>) returns (out: seq<VendorCost>)
    requires forall k :: 0 <= k < |events| ==> events[k].vendor in order
    ensures |out| == |order|
    ensures forall i :: 0 <= i < |order| ==> HeadlineOf(cfg, events, order[i], out[i])
  {
    var byVendor := GroupByVendor(events, order);
    out := [];
    for i := 0 to |order|
      invariant |out| == i
      invariant forall k :: 0 <= k < i ==> HeadlineOf(cfg, events, order[k], out[k])
    {
      var v := order[i];
      var vc := PriceVendor(cfg, v, byVendor[v]);
      GroupingCostsNothing(events, v, HeadlinePrice(cfg, v), |events|);
      assert HeadlineOf(cfg, events, v, vc);
      out := out + [vc];
    }
  }

  lemma {:induction false} PrefixCost(a: seq<Event>, b: seq<Event>, vendor: string, price: Price, n: nat)
    requires n <= |a| <= |b| && forall k :: 0 <= k < n ==> a[k] == b[k]
    ensures CostSum(a, vendor, price, n) == CostSum(b, vendor, price, n)
  {
    if n > 0 { PrefixCost(a, b, vendor, price, n - 1); }
  }

  /** A vendor's own events cost what the vendor's share of all events costs. */
  lemma {:induction false} GroupingCostsNothing(events: seq<Event>, vendor: string, price: Price, n: nat)
    requires n <= |events|
    ensures CostSum(OfVendor(events, vendor, n), vendor, price, |OfVendor(events, vendor, n)|)
      == CostSum(events, vendor, price, n)
  {
    if n > 0 {
      var group, e := OfVendor(events, vendor, n - 1), events[n - 1];
      GroupingCostsNothing(events, vendor, price, n - 1);
      PrefixCost(group, group + [e], vendor, price, |group|);
      assert (group + [e])[|group|] == e;
      assert group + [] == group;
    }
  }

  /** Whatever is counted, a vendor's group amounts to its share of all events. */
  lemma {:induction false} OfVendorIs(events: seq<Event>, vendor: string, of: Event -> int, n: nat)
    requires n <= |events|
    ensures Total(OfVendor(events, vendor, n), of, |OfVendor(events, vendor, n)|)
      == Total(events, (e: Event) => if e.vendor == vendor then of(e) else 0, n)
  {
    if n > 0 {
      var group, e := OfVendor(events, vendor, n - 1), events[n - 1];
      OfVendorIs(events, vendor, of, n - 1);
      assert (group + [e])[..|group|] == group && group + [] == group;
      TotalOfPrefix(group + [e], of, |group|, |group|);
    }
  }

  // ----- prices are linear in the usage -----

  ghost predicate Additive(price: Price) {
    && (forall model :: price(model, NO_USAGE) == 0.0)
    && (forall model, a, b :: price(model, Plus(a, b)) == price(model, a) + price(model, b))
  }

  lemma ProductAdds(a: int, b: int, r: real)
    ensures (a + b) as real * r == a as real * r + b as real * r
  {
  }

  lemma ShareAdds(cfg: Config, model: string, a: Usage, b: Usage)
    ensures SubscriptionShare(cfg, model, Plus(a, b))
        == SubscriptionShare(cfg, model, a) + SubscriptionShare(cfg, model, b)
    ensures SubscriptionShare(cfg, model, NO_USAGE) == 0.0
  {
    if model in cfg.anthropic {
      var r := cfg.anthropic[model];
      ProductAdds(a.output, b.output, r.output);
      ProductAdds(a.input, b.input, r.input);
    }
  }

  lemma SubscriptionAdditive(cfg: Config)
    ensures Additive(SubscriptionPrice(cfg))
  {
    forall model, a: Usage, b: Usage
      ensures SubscriptionShare(cfg, model, Plus(a, b))
          == SubscriptionShare(cfg, model, a) + SubscriptionShare(cfg, model, b)
    {
      ShareAdds(cfg, model, a, b);
    }
    forall model ensures SubscriptionShare(cfg, model, NO_USAGE) == 0.0 {
      ShareAdds(cfg, model, NO_USAGE, NO_USAGE);
    }
  }

  /** Whatever the vendor and the books, every basis is linear in the usage ... */
  lemma BasisAdditive(cfg: Config, vendor: string, basis: Basis)
    ensures Additive(BasisPrice(cfg, vendor, basis))
  {
    SubscriptionAdditive(cfg);
  }

  /** ... and so is the headline. */
  lemma HeadlineAdditive(cfg: Config, vendor: string)
    ensures Additive(HeadlinePrice(cfg, vendor))
  {
    BasisAdditive(cfg, vendor, if cfg.SubscriptionConfigured() then Subscription else ApiList);
  }

  /** The per-event subscription cost, as a price. */
  function SubPrice(cfg: Config, vendor: string): Price { (model, u) => EventCost(cfg, vendor, model, u).sub }

  lemma SubAdditive(cfg: Config, vendor: string)
    ensures Additive(SubPrice(cfg, vendor))
  {
    forall model, a: Usage, b: Usage
      ensures SubPrice(cfg, vendor)(model, Plus(a, b))
          == SubPrice(cfg, vendor)(model, a) + SubPrice(cfg, vendor)(model, b)
    {
    }
    forall model ensures SubPrice(cfg, vendor)(model, NO_USAGE) == 0.0 {
    }
  }

  // ----- which rate goes with which tokens -----

  /** What the price charges, in dollars for a million tokens of each class. */
  ghost predicate Charges(price: Price, model: string, input: real, cacheWrite: real, cacheRead: real, output: real) {
    && (forall n: int, k: int :: price(model, Usage(n, 0, 0, 0, k)) == n as real * input / 1_000_000.0)
    && (forall n: int, k: int :: price(model, Usage(0, n, 0, 0, k)) == n as real * cacheWrite / 1_000_000.0)
    && (forall n: int, k: int :: price(model, Usage(0, 0, n, 0, k)) == n as real * cacheRead / 1_000_000.0)
    && (forall n: int, k: int :: price(model, Usage(0, 0, 0, n, k)) == n as real * output / 1_000_000.0)
  }

  /** The dollars of EventCost, as a price. */
  function UsdPrice(cfg: Config, vendor: string): Price { (model, u) => EventCost(cfg, vendor, model, u).usd }

  lemma UsdAdditive(cfg: Config, vendor: string)
    ensures Additive(UsdPrice(cfg, vendor))
  {
    forall model, a: Usage, b: Usage
      ensures UsdPrice(cfg, vendor)(model, Plus(a, b))
          == UsdPrice(cfg, vendor)(model, a) + UsdPrice(cfg, vendor)(model, b)
    {
    }
    forall model ensures UsdPrice(cfg, vendor)(model, NO_USAGE) == 0.0 {
    }
  }

  lemma ListCharges(price: Price, book: Book, model: string)
    requires model in book && forall u: Usage :: price(model, u) == Listed(book, model, u)
    ensures var r := book[model]; Charges(price, model, r.input, r.cacheWrite, r.cacheRead, r.output)
  {
  }

  lemma OpenAICharges(price: Price, book: Book, model: string)
    requires model in book && forall u: Usage :: price(model, u) == Listed(book, model, u.(cacheWrite := 0))
    ensures var r := book[model]; Charges(price, model, r.input, 0.0, r.cacheRead, r.output)
  {
  }

  lemma ShareCharges(price: Price, cfg: Config, model: string)
    requires model in cfg.anthropic && forall u: Usage :: price(model, u) == SubscriptionShare(cfg, model, u)
    ensures var r, f := cfg.anthropic[model], cfg.outputFactor;
            Charges(price, model, r.input * f, 0.0, 0.0, r.output * f)
  {
  }

  lemma NothingCharges(price: Price, model: string)
    requires forall u: Usage :: price(model, u) == 0.0
    ensures Charges(price, model, 0.0, 0.0, 0.0, 0.0)
  {
  }

  /** Anthropic's events: each class at its rate in the book; the subscription
      share charges output and input only, scaled by the factor. */
  lemma AnthropicRates(cfg: Config, model: string)
    requires model in cfg.anthropic
    ensures var r, f := cfg.anthropic[model], cfg.outputFactor;
      && Charges(BasisPrice(cfg, "anthropic", ApiList), model, r.input, r.cacheWrite, r.cacheRead, r.output)
      && Charges(UsdPrice(cfg, "anthropic"), model, r.input, r.cacheWrite, r.cacheRead, r.output)
      && Charges(BasisPrice(cfg, "anthropic", Subscription), model, r.input * f, 0.0, 0.0, r.output * f)
      && Charges(SubPrice(cfg, "anthropic"), model, r.input * f, 0.0, 0.0, r.output * f)
  {
    ListCharges(BasisPrice(cfg, "anthropic", ApiList), cfg.anthropic, model);
    ListCharges(UsdPrice(cfg, "anthropic"), cfg.anthropic, model);
    ShareCharges(BasisPrice(cfg, "anthropic", Subscription), cfg, model);
    ShareCharges(SubPrice(cfg, "anthropic"), cfg, model);
  }

  /** OpenAI's: cache writes are free, and the price of an event comes from
      another book than the vendor's. */
  lemma OpenAIRates(cfg: Config, model: string)
    ensures model in cfg.openAI ==>
      var r := cfg.openAI[model];
      Charges(BasisPrice(cfg, "openai", ApiList), model, r.input, 0.0, r.cacheRead, r.output)
    ensures model in cfg.openAIPrices ==>
      var r := cfg.openAIPrices[model];
      && Charges(UsdPrice(cfg, "openai"), model, r.input, 0.0, r.cacheRead, r.output)
      && Charges(SubPrice(cfg, "openai"), model, r.input, 0.0, r.cacheRead, r.output)
  {
    if model in cfg.openAI { OpenAICharges(BasisPrice(cfg, "openai", ApiList), cfg.openAI, model); }
    if model in cfg.openAIPrices {
      OpenAICharges(UsdPrice(cfg, "openai"), cfg.openAIPrices, model);
      OpenAICharges(SubPrice(cfg, "openai"), cfg.openAIPrices, model);
    }
  }

  /** Copilot's. */
  lemma CopilotRates(cfg: Config, model: string)
    requires model in cfg.copilot
    ensures var r := cfg.copilot[model];
      && Charges(BasisPrice(cfg, "github", Credits), model, r.input, r.cacheWrite, r.cacheRead, r.output)
      && Charges(UsdPrice(cfg, "github"), model, r.input, r.cacheWrite, r.cacheRead, r.output)
      && Charges(SubPrice(cfg, "github"), model, r.input, r.cacheWrite, r.cacheRead, r.output)
  {
    ListCharges(BasisPrice(cfg, "github", Credits), cfg.copilot, model);
    ListCharges(UsdPrice(cfg, "github"), cfg.copilot, model);
    ListCharges(SubPrice(cfg, "github"), cfg.copilot, model);
  }

  /** What a vendor's book does not list is free, on every basis. */
  lemma UnlistedIsFree(cfg: Config, vendor: string, model: string, basis: Basis)
    requires vendor == "anthropic" ==> model !in cfg.anthropic
    requires vendor == "openai" ==> model !in cfg.openAI
    requires vendor == "github" ==> model !in cfg.copilot
    ensures Charges(BasisPrice(cfg, vendor, basis), model, 0.0, 0.0, 0.0, 0.0)
  {
    NothingCharges(BasisPrice(cfg, vendor, basis), model);
  }

  /** An event's label is its book's caption; without one its label is the
      model's name, it is free, and it is marked. */
  lemma EventLabels(cfg: Config, vendor: string, model: string, u: Usage)
    ensures var q := EventCost(cfg, vendor, model, u);
      if vendor == "anthropic" && model in cfg.anthropic then
        !q.unpriced && q.caption == cfg.anthropic[model].caption
      else if vendor == "openai" && model in cfg.openAIPrices then
        !q.unpriced && q.caption == cfg.openAIPrices[model].caption
      else if vendor == "github" && model in cfg.copilot then
        !q.unpriced && q.caption == cfg.copilot[model].caption
      else q == Quote(0.0, 0.0, model, true)
  {
  }

  /** A class of tokens over the first n events of a vendor and a model. */
  function ClassSum(events: seq<Event>, vendor: string, model: string, class': Event -> int, n: nat): int
    requires n <= |events|
  {
    Total(events, (e: Event) => if e.vendor == vendor && e.model == model then class'(e) else 0, n)
  }

  lemma PriceSplits(price: Price, model: string, i: real, w: real, r: real, o: real, u: Usage)
    requires Additive(price) && Charges(price, model, i, w, r, o)
    ensures price(model, u)
      == (u.input as real * i + u.cacheWrite as real * w + u.cacheRead as real * r + u.output as real * o) / 1_000_000.0
  {
    var a, b := Usage(u.input, 0, 0, 0, u.turns), Usage(0, u.cacheWrite, 0, 0, 0);
    var c, d := Usage(0, 0, u.cacheRead, 0, 0), Usage(0, 0, 0, u.output, 0);
    assert Plus(a, b) == Usage(u.input, u.cacheWrite, 0, 0, u.turns);
    assert Plus(c, d) == Usage(0, 0, u.cacheRead, u.output, 0);
    assert Plus(Plus(a, b), Plus(c, d)) == u;
  }

  /** The same price for every other model, and nothing for this one. */
  function Except(price: Price, model: string): Price { (m, u) => if m == model then 0.0 else price(m, u) }

  function ClassSums(events: seq<Event>, vendor: string, model: string, n: nat): Usage
    requires n <= |events|
  {
    Usage(ClassSum(events, vendor, model, Input(), n), ClassSum(events, vendor, model, CacheWrite(), n),
          ClassSum(events, vendor, model, CacheRead(), n), ClassSum(events, vendor, model, Output(), n),
          ClassSum(events, vendor, model, One(), n))
  }

  lemma ClassSumsGrow(events: seq<Event>, vendor: string, model: string, n: nat)
    requires 0 < n <= |events|
    ensures ClassSums(events, vendor, model, n)
      == if events[n - 1].vendor == vendor && events[n - 1].model == model
         then Plus(ClassSums(events, vendor, model, n - 1), UsageOf(events[n - 1]))
         else ClassSums(events, vendor, model, n - 1)
  {
  }

  lemma {:induction false} BillSplits(events: seq<Event>, vendor: string, model: string, price: Price, n: nat)
    requires n <= |events| && Additive(price)
    ensures CostSum(events, vendor, price, n)
      == price(model, ClassSums(events, vendor, model, n)) + CostSum(events, vendor, Except(price, model), n)
  {
    if n == 0 {
      assert ClassSums(events, vendor, model, 0) == NO_USAGE;
    } else {
      BillSplits(events, vendor, model, price, n - 1);
      ClassSumsGrow(events, vendor, model, n);
    }
  }

  /** Over any events, a vendor's tokens of one model add to the bill, class by
      class, what the price charges for a million; the rest of the bill is that
      of the other models. */
  lemma {:induction false} DollarsAreRates(
      events: seq<Event>, vendor: string, model: string, price: Price, i: real, w: real, r: real, o: real, n: nat)
    requires n <= |events| && Additive(price) && Charges(price, model, i, w, r, o)
    ensures CostSum(events, vendor, price, n)
      == (ClassSum(events, vendor, model, Input(), n) as real * i
          + ClassSum(events, vendor, model, CacheWrite(), n) as real * w
          + ClassSum(events, vendor, model, CacheRead(), n) as real * r
          + ClassSum(events, vendor, model, Output(), n) as real * o) / 1_000_000.0
         + CostSum(events, vendor, Except(price, model), n)
  {
    BillSplits(events, vendor, model, price, n);
    PriceSplits(price, model, i, w, r, o, ClassSums(events, vendor, model, n));
  }
}
