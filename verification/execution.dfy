/**
 * `UltraFastOrderExecutor`: the paper sell leg with its fill menu, the buy
 * leg's escalation scenarios, and `execute_arbitrage_trade`, which sizes the
 * trade, feeds the sell leg's filled quantity into the buy leg and combines
 * the logs. The two random draws are explicit oracle arguments.
 */
module Execution {
  import opened Scanner
  import opened Timeline

  /** The configuration `execute_arbitrage_trade` reads. */
  datatype Config = Config(paperTrading: bool, maxLotsPerTrade: int, eth: AssetParams, btc: AssetParams)

  /** `ETH_PARAMS if asset == "ETH" else BTC_PARAMS`. */
  function ParamsFor(cfg: Config, asset: string): AssetParams {
    if asset == "ETH" then cfg.eth else cfg.btc
  }

  /** Which entry of the paper fill menu `[q, q-1, q-2, q-3, int(q*0.7)]` was drawn. */
  datatype FillDraw = Full | OneShort | TwoShort | ThreeShort | SeventyPercent

  /** Which outcome of the paper buy sequence was drawn. */
  datatype BuyScenario = Instant | Adjustment | MatchPrice | Abandon

  /** The random draws of one trade. */
  datatype Oracle = Oracle(fill: FillDraw, scenario: BuyScenario)

  /** Python's `int(q * 0.7)`: seven tenths, truncated toward zero. */
  function SeventyPercentOf(q: int): int {
    if q >= 0 then (7 * q) / 10 else -((7 * -q) / 10)
  }

  function FillMenu(q: int, draw: FillDraw): int {
    match draw
    case Full => q
    case OneShort => q - 1
    case TwoShort => q - 2
    case ThreeShort => q - 3
    case SeventyPercent => SeventyPercentOf(q)
  }

  /** The menu entries, and for an order of at least one lot none exceeds it. */
  lemma FillMenuEntries(q: int, draw: FillDraw)
    ensures FillMenu(q, draw) in {q, q - 1, q - 2, q - 3, SeventyPercentOf(q)}
    ensures q >= 1 ==> FillMenu(q, draw) <= q
  {
  }

  /** `max(1, n)`. */
  function AtLeastOne(n: int): int {
    if n >= 1 then n else 1
  }

  /** From five lots up every menu entry is at least two, so the clamp to one lot never applies. */
  lemma LargeOrderNeverClamped(price: real, q: int, draw: FillDraw)
    requires q >= 5
    ensures FillMenu(q, draw) >= 2
    ensures SellWithPartialFill(true, price, q, draw).filled == FillMenu(q, draw)
  {
  }

  datatype SellOutcome = SellOutcome(filled: int, log: Log)

  /**
   * `execute_sell_with_partial_fill`. In paper mode the fill is the drawn menu
   * entry raised to at least 1; the log holds the order, then either the full
   * fill or the partial fill and the cancelled rest. Otherwise the order fills
   * in full with an empty log.
   */
  function SellWithPartialFill(paper: bool, price: real, q: int, draw: FillDraw): (r: SellOutcome)
    ensures q >= 1 ==> 1 <= r.filled <= q
    ensures paper ==> r.filled in {AtLeastOne(q), AtLeastOne(q - 1), AtLeastOne(q - 2), AtLeastOne(q - 3), AtLeastOne(SeventyPercentOf(q))}
    ensures paper && FillMenu(q, draw) >= 1 ==> r.filled == FillMenu(q, draw)
    ensures paper && FillMenu(q, draw) < 1 ==> r.filled == 1
    ensures !paper ==> r.filled == q
  {
    if paper then
      var drawn := FillMenu(q, draw);
      FillMenuEntries(q, draw);
      var filled := AtLeastOne(drawn);
      var placed := AddStep(Empty, SellPlaced(q, price));
      if filled == q then
        SellOutcome(filled, AddStep(placed, SellFilled(filled, price)))
      else
        SellOutcome(filled, AddStep(AddStep(placed, SellPartlyFilled(filled, q, price)), SellCancelled(q - filled)))
    else
      SellOutcome(q, Empty)
  }

  /**
   * The sell leg's log: in paper mode the order, then either the full fill or
   * the partial fill and the cancelled remainder; nothing in live mode. Every
   * entry is a sell event.
   */
  lemma SellLog(paper: bool, price: real, q: int, draw: FillDraw)
    ensures var r := SellWithPartialFill(paper, price, q, draw);
            var s := r.log.steps;
            && (!paper ==> s == [])
            && (paper && r.filled == q ==> s == [SellPlaced(q, price), SellFilled(q, price)])
            && (paper && r.filled != q ==> s == [SellPlaced(q, price), SellPartlyFilled(r.filled, q, price), SellCancelled(q - r.filled)])
            && (forall i :: 0 <= i < |s| ==> s[i].IsSell())
  {
    var r := SellWithPartialFill(paper, price, q, draw);
    var s := r.log.steps;
    if paper {
      if r.filled == q {
        assert s == [SellPlaced(q, price), SellFilled(q, price)];
      } else {
        assert s == [SellPlaced(q, price), SellPartlyFilled(r.filled, q, price), SellCancelled(q - r.filled)];
      }
    }
  }

  datatype BuyOutcome = BuyOutcome(success: bool, finalPrice: real, log: Log)

  /** The buy events that name a quantity carry exactly `q`, and no sell event appears. */
  predicate BuyEventsFor(steps: seq<Event>, q: int) {
    forall i :: 0 <= i < |steps| ==>
      && !steps[i].IsSell()
      && (steps[i].BuyPlaced? ==> steps[i].qty == q)
      && (steps[i].BuyFilled? ==> steps[i].qty == q)
  }

  /** The price an event quotes, if it quotes one. */
  function QuotedPrice(e: Event): seq<real> {
    match e
    case BuyPlaced(_, price) => [price]
    case BuyRepriced(price) => [price]
    case BuyRepricedToSell(price) => [price]
    case _ => []
  }

  /** The prices the buy sequence quotes, in order: the original and each repricing. */
  function QuotedPrices(steps: seq<Event>): seq<real> {
    if |steps| == 0 then [] else QuotedPrice(steps[0]) + QuotedPrices(steps[1..])
  }

  lemma QuotedPricesOfOne(a: Event)
    ensures QuotedPrices([a]) == QuotedPrice(a)
  {
    assert [a][1..] == [];
    assert QuotedPrices([a]) == QuotedPrice(a) + QuotedPrices([]);
  }

  lemma QuotedPricesOfTwo(a: Event, b: Event)
    ensures QuotedPrices([a, b]) == QuotedPrice(a) + QuotedPrice(b)
  {
    assert [a, b][1..] == [b];
    QuotedPricesOfOne(b);
  }

  lemma QuotedPricesOfThree(a: Event, b: Event, c: Event)
    ensures QuotedPrices([a, b, c]) == QuotedPrice(a) + QuotedPrice(b) + QuotedPrice(c)
  {
    assert [a, b, c][1..] == [b, c];
    QuotedPricesOfTwo(b, c);
  }

  lemma QuotedPricesOfFour(a: Event, b: Event, c: Event, d: Event)
    ensures QuotedPrices([a, b, c, d]) == QuotedPrice(a) + QuotedPrice(b) + QuotedPrice(c) + QuotedPrice(d)
  {
    assert [a, b, c, d][1..] == [b, c, d];
    QuotedPricesOfThree(b, c, d);
  }

  /**
   * `execute_buy_sequence` for exactly `q` lots. Paper outcomes: instant fill at
   * the original price; one increment; the increment and then the sell price;
   * or the same two repricings and abandonment. Only abandonment fails.
   */
  function BuySequence(paper: bool, increment: real, originalPrice: real, sellPrice: real, q: int, scenario: BuyScenario): (r: BuyOutcome)
    ensures r.success <==> !(paper && scenario == Abandon)
    ensures !paper || scenario == Instant ==> r.finalPrice == originalPrice
    ensures paper && scenario == Adjustment ==> r.finalPrice == originalPrice + increment
    ensures paper && (scenario == MatchPrice || scenario == Abandon) ==> r.finalPrice == sellPrice
  {
    var placed := AddStep(Empty, BuyPlaced(q, originalPrice));
    if paper then
      match scenario
      case Instant =>
        BuyOutcome(true, originalPrice, AddStep(placed, BuyFilled(q, originalPrice)))
      case Adjustment =>
        var bumped := originalPrice + increment;
        BuyOutcome(true, bumped, AddStep(AddStep(placed, BuyRepriced(bumped)), BuyFilled(q, bumped)))
      case MatchPrice =>
        var bumped := originalPrice + increment;
        var escalated := AddStep(AddStep(placed, BuyRepriced(bumped)), BuyRepricedToSell(sellPrice));
        BuyOutcome(true, sellPrice, AddStep(escalated, BuyFilled(q, sellPrice)))
      case Abandon =>
        var bumped := originalPrice + increment;
        var escalated := AddStep(AddStep(placed, BuyRepriced(bumped)), BuyRepricedToSell(sellPrice));
        BuyOutcome(false, sellPrice, AddStep(escalated, BuyAbandoned))
    else
      BuyOutcome(true, originalPrice, placed)
  }

  function Last<T>(s: seq<T>): T
    requires |s| > 0
  {
    s[|s| - 1]
  }

  /**
   * The entries the buy sequence logs, written out per scenario: the order,
   * then the repricings the scenario goes through, then the fill or the
   * abandonment. Live mode logs only the order.
   */
  function BuyScript(paper: bool, increment: real, originalPrice: real, sellPrice: real, q: int, scenario: BuyScenario): seq<Event> {
    var bumped := originalPrice + increment;
    if !paper then [BuyPlaced(q, originalPrice)]
    else match scenario
      case Instant => [BuyPlaced(q, originalPrice), BuyFilled(q, originalPrice)]
      case Adjustment => [BuyPlaced(q, originalPrice), BuyRepriced(bumped), BuyFilled(q, bumped)]
      case MatchPrice => [BuyPlaced(q, originalPrice), BuyRepriced(bumped), BuyRepricedToSell(sellPrice), BuyFilled(q, sellPrice)]
      case Abandon => [BuyPlaced(q, originalPrice), BuyRepriced(bumped), BuyRepricedToSell(sellPrice), BuyAbandoned]
  }

  /** The buy sequence's `add_step` calls produce exactly the scripted entries. */
  lemma BuyLogEntries(paper: bool, increment: real, originalPrice: real, sellPrice: real, q: int, scenario: BuyScenario)
    ensures BuySequence(paper, increment, originalPrice, sellPrice, q, scenario).log.steps
            == BuyScript(paper, increment, originalPrice, sellPrice, q, scenario)
  {
    var s := BuySequence(paper, increment, originalPrice, sellPrice, q, scenario).log.steps;
    var placed := AddStep(Empty, BuyPlaced(q, originalPrice));
    assert placed.steps == [BuyPlaced(q, originalPrice)];
    var bumped := originalPrice + increment;
    if paper {
      match scenario
      case Instant =>
        assert s == placed.steps + [BuyFilled(q, originalPrice)];
      case Adjustment =>
        assert s == placed.steps + [BuyRepriced(bumped)] + [BuyFilled(q, bumped)];
      case MatchPrice =>
        assert s == placed.steps + [BuyRepriced(bumped)] + [BuyRepricedToSell(sellPrice)] + [BuyFilled(q, sellPrice)];
      case Abandon =>
        assert s == placed.steps + [BuyRepriced(bumped)] + [BuyRepricedToSell(sellPrice)] + [BuyAbandoned];
    }
  }

  /**
   * The buy log starts with the order for `q` lots, every buy event that names
   * a quantity names `q`, no sell event appears, and in paper mode it ends with
   * the fill at the final price or with the abandonment.
   */
  lemma BuyLog(paper: bool, increment: real, originalPrice: real, sellPrice: real, q: int, scenario: BuyScenario)
    ensures var r := BuySequence(paper, increment, originalPrice, sellPrice, q, scenario);
            var s := r.log.steps;
            && |s| >= 1 && s[0] == BuyPlaced(q, originalPrice)
            && BuyEventsFor(s, q)
            && (paper ==> Last(s) == if r.success then BuyFilled(q, r.finalPrice) else BuyAbandoned)
  {
    BuyLogEntries(paper, increment, originalPrice, sellPrice, q, scenario);
    ScriptEvents(paper, increment, originalPrice, sellPrice, q, scenario);
  }

  lemma ScriptEvents(paper: bool, increment: real, originalPrice: real, sellPrice: real, q: int, scenario: BuyScenario)
    ensures var s := BuyScript(paper, increment, originalPrice, sellPrice, q, scenario);
            && |s| >= 1 && s[0] == BuyPlaced(q, originalPrice)
            && BuyEventsFor(s, q)
            && (paper ==> Last(s) == if scenario == Abandon then BuyAbandoned
                                     else BuyFilled(q, BuySequence(paper, increment, originalPrice, sellPrice, q, scenario).finalPrice))
  {
    var s := BuyScript(paper, increment, originalPrice, sellPrice, q, scenario);
    forall i | 0 <= i < |s|
      ensures !s[i].IsSell() && (s[i].BuyPlaced? ==> s[i].qty == q) && (s[i].BuyFilled? ==> s[i].qty == q)
    {
    }
  }

  predicate NonDecreasing(xs: seq<real>) {
    forall i, j :: 0 <= i < j < |xs| ==> xs[i] <= xs[j]
  }

  /**
   * When the increment is non-negative and does not carry the original price
   * past the sell price, the quoted prices never fall, never exceed the sell
   * price, and the final price is the last one quoted.
   */
  lemma BuyEscalationBounded(paper: bool, increment: real, originalPrice: real, sellPrice: real, q: int, scenario: BuyScenario)
    requires 0.0 <= increment && originalPrice + increment <= sellPrice
    ensures var r := BuySequence(paper, increment, originalPrice, sellPrice, q, scenario);
            var prices := QuotedPrices(r.log.steps);
            && |prices| >= 1
            && NonDecreasing(prices)
            && (forall i :: 0 <= i < |prices| ==> prices[i] <= sellPrice)
            && originalPrice <= r.finalPrice <= sellPrice
            && r.finalPrice == Last(prices)
  {
    BuyLogEntries(paper, increment, originalPrice, sellPrice, q, scenario);
    var prices := ScriptPrices(paper, increment, originalPrice, sellPrice, scenario);
    ScriptQuotes(paper, increment, originalPrice, sellPrice, q, scenario);
    if paper && scenario != Instant {
      if scenario == Adjustment {
        TwoPricesBounded(originalPrice, originalPrice + increment, sellPrice);
      } else {
        ThreePricesBounded(originalPrice, originalPrice + increment, sellPrice);
      }
    }
  }

  /** The prices the scripted buy log quotes. */
  function ScriptPrices(paper: bool, increment: real, originalPrice: real, sellPrice: real, scenario: BuyScenario): seq<real> {
    if !paper || scenario == Instant then [originalPrice]
    else if scenario == Adjustment then [originalPrice, originalPrice + increment]
    else [originalPrice, originalPrice + increment, sellPrice]
  }

  lemma ScriptQuotes(paper: bool, increment: real, originalPrice: real, sellPrice: real, q: int, scenario: BuyScenario)
    ensures QuotedPrices(BuyScript(paper, increment, originalPrice, sellPrice, q, scenario))
            == ScriptPrices(paper, increment, originalPrice, sellPrice, scenario)
  {
    var bumped := originalPrice + increment;
    var placed := BuyPlaced(q, originalPrice);
    if !paper {
      QuotedPricesOfOne(placed);
    } else {
      match scenario
      case Instant =>
        QuotedPricesOfTwo(placed, BuyFilled(q, originalPrice));
      case Adjustment =>
        QuotedPricesOfThree(placed, BuyRepriced(bumped), BuyFilled(q, bumped));
      case MatchPrice =>
        QuotedPricesOfFour(placed, BuyRepriced(bumped), BuyRepricedToSell(sellPrice), BuyFilled(q, sellPrice));
      case Abandon =>
        QuotedPricesOfFour(placed, BuyRepriced(bumped), BuyRepricedToSell(sellPrice), BuyAbandoned);
    }
  }

  lemma TwoPricesBounded(a: real, b: real, top: real)
    requires a <= b <= top
    ensures NonDecreasing([a, b]) && forall i :: 0 <= i < 2 ==> [a, b][i] <= top
  {
  }

  lemma ThreePricesBounded(a: real, b: real, c: real)
    requires a <= b <= c
    ensures NonDecreasing([a, b, c]) && forall i :: 0 <= i < 3 ==> [a, b, c][i] <= c
  {
  }

  /**
   * The buy sequence quotes the order's price and then one price per
   * repricing: no repricing live or on an instant fill, one on an adjustment,
   * and two (the increment, then the sell price) on a match or an abandonment.
   */
  lemma BuyQuoteCount(paper: bool, increment: real, originalPrice: real, sellPrice: real, q: int, scenario: BuyScenario)
    ensures var n := |QuotedPrices(BuySequence(paper, increment, originalPrice, sellPrice, q, scenario).log.steps)|;
            && (!paper || scenario == Instant ==> n == 1)
            && (paper && scenario == Adjustment ==> n == 2)
            && (paper && (scenario == MatchPrice || scenario == Abandon) ==> n == 3)
  {
    BuyLogEntries(paper, increment, originalPrice, sellPrice, q, scenario);
    ScriptQuotes(paper, increment, originalPrice, sellPrice, q, scenario);
  }

  /**
   * Without that bound the increment tier can quote above the sell price and
   * the match tier then falls back to it: an opportunity bought at 1.50 and sold
   * at 1.55 with an increment of 0.10 fills at 1.60 in the adjustment scenario.
   */
  lemma IncrementCanPassSellPrice()
    ensures var r := BuySequence(true, 0.10, 1.50, 1.55, 1, Adjustment);
            r.success && r.finalPrice == 1.60 && r.finalPrice > 1.55
    ensures var r := BuySequence(true, 0.10, 1.50, 1.55, 1, MatchPrice);
            !NonDecreasing(QuotedPrices(r.log.steps))
  {
    var r := BuySequence(true, 0.10, 1.50, 1.55, 1, MatchPrice);
    BuyLogEntries(true, 0.10, 1.50, 1.55, 1, MatchPrice);
    assert r.log.steps == [BuyPlaced(1, 1.50), BuyRepriced(1.60), BuyRepricedToSell(1.55), BuyFilled(1, 1.55)];
    QuotedPricesOfFour(BuyPlaced(1, 1.50), BuyRepriced(1.60), BuyRepricedToSell(1.55), BuyFilled(1, 1.55));
    var prices := QuotedPrices(r.log.steps);
    assert prices == [1.50, 1.60, 1.55];
    assert prices[1] > prices[2];
  }

  /** The outcome of one `execute_arbitrage_trade` call. */
  datatype TradeOutcome =
    | NotSized
    | SellTimeout(ordered: int)
    | Executed(ordered: int, filled: int, bought: bool, finalPrice: real, log: Log)

  /** `min(buy_qty, sell_qty, MAX_LOTS_PER_TRADE)`. */
  function TradeQty(cfg: Config, o: Opportunity): int {
    Min(Min(o.buyQty, o.sellQty), cfg.maxLotsPerTrade)
  }

  /** The trade size is one of the three bounds and exceeds none of them. */
  lemma TradeQtyIsMinimum(cfg: Config, o: Opportunity)
    ensures var q := TradeQty(cfg, o);
            && q <= o.buyQty && q <= o.sellQty && q <= cfg.maxLotsPerTrade
            && (q == o.buyQty || q == o.sellQty || q == cfg.maxLotsPerTrade)
  {
  }

  /** `execute_arbitrage_trade` without its exception handler and alerts. */
  function ExecuteTrade(cfg: Config, asset: string, o: Opportunity, draws: Oracle): (r: TradeOutcome)
    ensures r.NotSized? <==> TradeQty(cfg, o) < 1
    ensures !r.SellTimeout?
    ensures r.Executed? ==>
              && r.ordered == TradeQty(cfg, o)
              && r.ordered <= o.buyQty && r.ordered <= o.sellQty && r.ordered <= cfg.maxLotsPerTrade
              && 1 <= r.filled <= r.ordered
              && (r.bought <==> !(cfg.paperTrading && draws.scenario == Abandon))
  {
    var q := TradeQty(cfg, o);
    if q < 1 then NotSized
    else
      var sell := SellWithPartialFill(cfg.paperTrading, o.sellPremium, q, draws.fill);
      if sell.filled < 1 then SellTimeout(q)
      else
        var buy := BuySequence(cfg.paperTrading, ParamsFor(cfg, asset).priceIncrement,
                               o.buyPremium, o.sellPremium, sell.filled, draws.scenario);
        Executed(q, sell.filled, buy.success, buy.finalPrice, Combine(sell.log, buy.log))
  }

  /**
   * The buy leg is sized by the sell leg's fill, never by the ordered
   * quantity: every buy event that names a quantity carries `filled`, and the
   * combined log is the sell leg's entries followed by the buy leg's.
   */
  lemma BuyLegUsesFilledQuantity(cfg: Config, asset: string, o: Opportunity, draws: Oracle)
    ensures var r := ExecuteTrade(cfg, asset, o, draws);
            r.Executed? ==>
              var sell := SellWithPartialFill(cfg.paperTrading, o.sellPremium, r.ordered, draws.fill);
              && r.filled == sell.filled
              && IsPrefix(sell.log, r.log)
              && BuyEventsFor(r.log.steps[|sell.log.steps|..], r.filled)
              && r.log.steps[|sell.log.steps|] == BuyPlaced(r.filled, o.buyPremium)
              && (forall i :: 0 <= i < |sell.log.steps| ==> r.log.steps[i].IsSell())
  {
    var r := ExecuteTrade(cfg, asset, o, draws);
    if r.Executed? {
      var sell := SellWithPartialFill(cfg.paperTrading, o.sellPremium, r.ordered, draws.fill);
      SellLog(cfg.paperTrading, o.sellPremium, r.ordered, draws.fill);
      BuyLog(cfg.paperTrading, ParamsFor(cfg, asset).priceIncrement, o.buyPremium, o.sellPremium, r.filled, draws.scenario);
    }
  }

  /** What `execute_arbitrage_trade` returns. */
  function Succeeded(r: TradeOutcome): bool {
    r.Executed? && r.bought
  }

  /** The trade reports success exactly when it was sized and no paper abandonment was drawn. */
  lemma SucceededIff(cfg: Config, asset: string, o: Opportunity, draws: Oracle)
    ensures Succeeded(ExecuteTrade(cfg, asset, o, draws)) <==> TradeQty(cfg, o) >= 1 && !(cfg.paperTrading && draws.scenario == Abandon)
  {
  }

  /** `profit = sell_premium - final_price`. */
  function ProfitPerLot(o: Opportunity, r: TradeOutcome): real
    requires r.Executed?
  {
    o.sellPremium - r.finalPrice
  }

  /** `total_pnl = profit * filled_qty`. */
  function TotalPnl(o: Opportunity, r: TradeOutcome): real
    requires r.Executed?
  {
    ProfitPerLot(o, r) * (r.filled as real)
  }

  /**
   * The realised P&L per scenario on a paper trade of a valid opportunity: the
   * expected profit on an instant fill, one increment less after an
   * adjustment, and zero once the buy price has been raised to the sell price.
   */
  lemma PaperPnlByScenario(cfg: Config, asset: string, o: Opportunity, draws: Oracle)
    requires cfg.paperTrading && Valid(o, ParamsFor(cfg, asset))
    ensures var r := ExecuteTrade(cfg, asset, o, draws);
            r.Executed? ==>
              && (draws.scenario == Instant ==> ProfitPerLot(o, r) == o.profit)
              && (draws.scenario == Adjustment ==> ProfitPerLot(o, r) == o.profit - ParamsFor(cfg, asset).priceIncrement)
              && (draws.scenario == MatchPrice || draws.scenario == Abandon ==> ProfitPerLot(o, r) == 0.0)
  {
    var r := ExecuteTrade(cfg, asset, o, draws);
    if r.Executed? {
      var sell := SellWithPartialFill(cfg.paperTrading, o.sellPremium, r.ordered, draws.fill);
      var buy := BuySequence(cfg.paperTrading, ParamsFor(cfg, asset).priceIncrement, o.buyPremium, o.sellPremium, sell.filled, draws.scenario);
      assert r.finalPrice == buy.finalPrice;
    }
  }

  /**
   * With an increment between zero and the minimum profit, a completed paper
   * trade of a valid opportunity never loses money.
   */
  lemma PaperTradeNeverLoses(cfg: Config, asset: string, o: Opportunity, draws: Oracle)
    requires cfg.paperTrading && Valid(o, ParamsFor(cfg, asset))
    requires 0.0 <= ParamsFor(cfg, asset).priceIncrement <= ParamsFor(cfg, asset).minProfit
    ensures var r := ExecuteTrade(cfg, asset, o, draws);
            r.Executed? ==> ProfitPerLot(o, r) >= 0.0 && TotalPnl(o, r) >= 0.0
  {
    var r := ExecuteTrade(cfg, asset, o, draws);
    var p := ParamsFor(cfg, asset);
    assert o.buyPremium + p.priceIncrement <= o.sellPremium;
    TradeFinalPrice(cfg, asset, o, draws);
    if r.Executed? {
      PnlNonNegative(o, r);
    }
  }

  /** The trade's final price is the buy leg's, and it never passes the sell price while the increment is within the spread. */
  lemma TradeFinalPrice(cfg: Config, asset: string, o: Opportunity, draws: Oracle)
    requires 0.0 <= ParamsFor(cfg, asset).priceIncrement
    requires o.buyPremium + ParamsFor(cfg, asset).priceIncrement <= o.sellPremium
    ensures var r := ExecuteTrade(cfg, asset, o, draws);
            r.Executed? ==> r.finalPrice <= o.sellPremium
  {
    var r := ExecuteTrade(cfg, asset, o, draws);
    if r.Executed? {
      var inc := ParamsFor(cfg, asset).priceIncrement;
      var buy := BuySequence(cfg.paperTrading, inc, o.buyPremium, o.sellPremium, r.filled, draws.scenario);
      assert r.finalPrice == buy.finalPrice;
    }
  }

  /** A trade filled at or below the sell price books a non-negative profit per lot and in total. */
  lemma PnlNonNegative(o: Opportunity, r: TradeOutcome)
    requires r.Executed? && r.finalPrice <= o.sellPremium && r.filled >= 0
    ensures ProfitPerLot(o, r) >= 0.0 && TotalPnl(o, r) >= 0.0
  {
    NonNegativeProduct(ProfitPerLot(o, r), r.filled as real);
  }

  lemma NonNegativeProduct(a: real, b: real)
    requires a >= 0.0 && b >= 0.0
    ensures a * b >= 0.0
  {
  }

  /**
   * A buy leg that is abandoned leaves the trade short by the sold quantity:
   * the log ends with the abandonment and the last quoted price is the sell price.
   */
  lemma AbandonLeavesShort(cfg: Config, asset: string, o: Opportunity, draws: Oracle)
    ensures var r := ExecuteTrade(cfg, asset, o, draws);
            r.Executed? && !r.bought ==>
              && cfg.paperTrading && draws.scenario == Abandon
              && Last(r.log.steps) == BuyAbandoned
              && r.finalPrice == o.sellPremium
              && 1 <= r.filled <= r.ordered
  {
    var r := ExecuteTrade(cfg, asset, o, draws);
    if r.Executed? && !r.bought {
      var sell := SellWithPartialFill(cfg.paperTrading, o.sellPremium, r.ordered, draws.fill);
      SellLog(cfg.paperTrading, o.sellPremium, r.ordered, draws.fill);
      BuyLog(cfg.paperTrading, ParamsFor(cfg, asset).priceIncrement, o.buyPremium, o.sellPremium, r.filled, draws.scenario);
    }
  }

  /** The built-in defaults: paper trading, 10 lots per trade, and the ETH and BTC thresholds. */
  const DefaultEth := AssetParams(3.00, 0.20, 0.10)
  const DefaultBtc := AssetParams(20.00, 3.00, 1.00)
  const DefaultConfig := Config(true, 10, DefaultEth, DefaultBtc)

  /**
   * Under the default thresholds, for either asset, a completed trade of a
   * scanned opportunity never realises a loss.
   */
  lemma DefaultTradesNeverLose(asset: string, o: Opportunity, draws: Oracle)
    requires Valid(o, ParamsFor(DefaultConfig, asset))
    ensures var r := ExecuteTrade(DefaultConfig, asset, o, draws);
            r.Executed? ==> ProfitPerLot(o, r) >= 0.0 && TotalPnl(o, r) >= 0.0
  {
    PaperTradeNeverLoses(DefaultConfig, asset, o, draws);
  }
}
