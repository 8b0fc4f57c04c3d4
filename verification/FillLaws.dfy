/**
 When an order fills, at which price and for how much, said from the prices of the bar and the fields
 of the order alone (internal/backtest/broker.go:219-478 and 602-763).
 */
module FillLaws {
  import opened Basics
  import opened Market
  import opened Positions
  import opened Books
  import opened Ledgers
  import opened QueueLaws
  import opened Twap

  // ---- What a bar shows ----

  /** The opens and closes of the side of the market that takes the order. */
  function SidePrices(bp: BarPrices, side: Side): seq<real> {
    if side == Buy then [bp.askOpen, bp.askClose, bp.open, bp.close]
    else [bp.bidOpen, bp.bidClose, bp.open, bp.close]
  }

  /** Some price of the bar is at this one or above it. */
  ghost predicate RisesTo(cfg: Config, bp: BarPrices, side: Side, p: real) {
    match cfg.triggerMode
    case CanonicalTrigger => bp.high > 0.0 && p <= bp.high
    case BidAskEnvelope => exists v :: v in SidePrices(bp, side) && v > 0.0 && p <= v
  }

  /** Some price of the bar is at this one or below it. */
  ghost predicate FallsTo(cfg: Config, bp: BarPrices, side: Side, p: real) {
    match cfg.triggerMode
    case CanonicalTrigger => bp.low > 0.0 && bp.low <= p
    case BidAskEnvelope => exists v :: v in SidePrices(bp, side) && v > 0.0 && v <= p
  }

  /** The bar moves through the stop price: up to it for a buy, down to it for a sell. */
  ghost predicate StopIsMet(cfg: Config, o: Order, bp: BarPrices) {
    || (o.side == Buy && RisesTo(cfg, bp, Buy, o.stopPrice))
    || (o.side == Sell && FallsTo(cfg, bp, Sell, o.stopPrice))
  }

  /** The bar offers the limit price: down to it for a buy, up to it for a sell. */
  ghost predicate LimitIsMet(cfg: Config, o: Order, bp: BarPrices) {
    || (o.side == Buy && FallsTo(cfg, bp, Buy, o.price))
    || (o.side == Sell && RisesTo(cfg, bp, Sell, o.price))
  }

  ghost predicate IsMet(cfg: Config, o: Order, bp: BarPrices) {
    match o.kind
    case Market => true
    case TwapMarket => true
    case Limit => LimitIsMet(cfg, o, bp)
    case Stop => StopIsMet(cfg, o, bp)
    case StopLimit => StopIsMet(cfg, o, bp) && LimitIsMet(cfg, o, bp)
  }

  // ---- The terms of a fill ----

  /** The price an order opens at: under bid/ask execution the ask for a buy and the bid for any other
      side, where there is one. */
  function OpenOf(cfg: Config, bp: BarPrices, side: Side): real {
    var quoted := if side == Buy then bp.askOpen else bp.bidOpen;
    if cfg.executionMode == CanonicalExecution || quoted <= 0.0 then bp.open else quoted
  }

  function CloseOf(cfg: Config, bp: BarPrices, side: Side): real {
    var quoted := if side == Buy then bp.askClose else bp.bidClose;
    if cfg.executionMode == CanonicalExecution || quoted <= 0.0 then bp.close else quoted
  }

  /** The dearer of two prices for a buy, the cheaper for any other side. */
  function Worse(side: Side, a: real, b: real): real {
    if (side == Buy) == (a <= b) then b else a
  }

  function Better(side: Side, a: real, b: real): real {
    if (side == Buy) == (a <= b) then a else b
  }

  /** A buy pays a share more, any other side gets a share less. */
  function Slipped(side: Side, p: real, share: real): real {
    if side == Buy then p * (1.0 + share) else p * (1.0 - share)
  }

  function PriceOf(cfg: Config, o: Order, open: real): real {
    match o.kind
    case Market => Slipped(o.side, open, cfg.slippagePct)
    case TwapMarket => Slipped(o.side, open, cfg.slippagePct)
    case Stop => Slipped(o.side, Worse(o.side, open, o.stopPrice), cfg.slippagePct)
    case Limit => Better(o.side, open, o.price)
    case StopLimit => Better(o.side, open, o.price)
  }

  /** The price a notional amount is divided by. */
  function SizedAt(cfg: Config, o: Order, open: real): real {
    if o.kind == Market || o.kind == TwapMarket then open else PriceOf(cfg, o, open)
  }

  /** The order asks for something at a price: a quantity, or a notional amount that the price
      converts. */
  predicate Asks(o: Order, p: real) {
    o.qty > 0.0 || (o.notional > 0.0 && p > 0.0)
  }

  /** `n` fills of `qty` are what the order asks for: its quantity, or else its notional amount. */
  predicate IsSize(o: Order, p: real, n: nat, qty: real) {
    if o.qty > 0.0 then qty * n as real == o.qty else qty * n as real * p == o.notional
  }

  function Parts(o: Order): nat { if o.kind == TwapMarket && o.twapBars > 1 then o.twapBars else 1 }

  // ---- Ranges ----

  lemma LowMeans(prices: seq<real>, p: real)
    ensures ValidPrice(MinAvailable(prices)) && MinAvailable(prices) <= p
      <==> exists v :: v in prices && v > 0.0 && v <= p
  {
    hide MinAvailable;
    if exists v :: v in prices && v > 0.0 && v <= p {
      var v :| v in prices && v > 0.0 && v <= p;
      assert ValidPrice(v) && MinAvailable(prices) <= v;
    }
  }

  lemma HighMeans(prices: seq<real>, p: real)
    ensures ValidPrice(MaxAvailable(prices)) && MaxAvailable(prices) >= p
      <==> exists v :: v in prices && v > 0.0 && p <= v
  {
    hide MaxAvailable;
    if exists v :: v in prices && v > 0.0 && p <= v {
      var v :| v in prices && v > 0.0 && p <= v;
      assert ValidPrice(v) && v <= MaxAvailable(prices);
    }
  }

  lemma RangeMeans(cfg: Config, bp: BarPrices, side: Side, p: real)
    ensures var (low, high) := TriggerRange(bp, side, cfg.triggerMode);
      && (ValidPrice(high) && high >= p <==> RisesTo(cfg, bp, side, p))
      && (ValidPrice(low) && low <= p <==> FallsTo(cfg, bp, side, p))
  {
    LowMeans(SidePrices(bp, side), p);
    HighMeans(SidePrices(bp, side), p);
    RangeOfSide(bp, side);
    hide MinAvailable;
    hide MaxAvailable;
    hide SidePrices;
    hide TriggerRange;
  }

  lemma RangeOfSide(bp: BarPrices, side: Side)
    ensures TriggerRange(bp, side, BidAskEnvelope)
         == (MinAvailable(SidePrices(bp, side)), MaxAvailable(SidePrices(bp, side)))
    ensures TriggerRange(bp, side, CanonicalTrigger) == (bp.low, bp.high)
  {
    hide MinAvailable;
    hide MaxAvailable;
  }

  lemma SlippedIs(side: Side, p: real, share: real)
    ensures ApplySlippage(p, side, share) == Slipped(side, p, share)
  {
  }

  lemma ConvertedSize(o: Order, p: real, n: nat)
    requires n >= 1 && Asks(o, p)
    ensures ResolveQty(o, p) > 0.0 && ResolveQty(o, p) / n as real > 0.0
    ensures IsSize(o, p, n, ResolveQty(o, p) / n as real)
  {
    var whole := ResolveQty(o, p);
    if o.qty <= 0.0 {
      QuotientPositive(o.notional, p);
      assert whole * p == o.notional;
    }
    SliceIsPart(whole, n);
    assert whole / n as real * n as real == whole;
  }

  /** Which prices an order is executed at before slippage. */
  lemma OpenIs(cfg: Config, bp: BarPrices, side: Side)
    ensures ExecutionOpen(bp, side, cfg.executionMode) == OpenOf(cfg, bp, side)
    ensures ExecutionClose(bp, side, cfg.executionMode) == CloseOf(cfg, bp, side)
  {
  }

  // ---- One order on one bar ----

  /** The bar fills the order: it has an open, shows what the order waits for, and the order asks for
      something at a price that is one. */
  ghost predicate Fills(cfg: Config, o: Order, bp: BarPrices) {
    var open := OpenOf(cfg, bp, o.side);
    open > 0.0 && IsMet(cfg, o, bp) && Asks(o, SizedAt(cfg, o, open)) && PriceOf(cfg, o, open) > 0.0
  }

  lemma CheckedIs(o: Order, at: real, n: nat, price: real, reference: real)
    requires n >= 1
    ensures var q := CheckedQuote(ResolveQty(o, at) / n as real, price, reference);
      && (q.Quote? <==> Asks(o, at) && price > 0.0)
      && (q.Quote? ==> q.price == price && q.reference == reference && IsSize(o, at, n, q.qty))
      && (q == NoQuote(false) <==> Asks(o, at) && price <= 0.0)
  {
    if Asks(o, at) {
      ConvertedSize(o, at, n);
    }
  }

  /** The quote of an order at an open: there is one if the order is met, asks for something and has a
      price, and it is at the order's terms. */
  predicate IsQuoteOf(cfg: Config, o: Order, open: real, met: bool, q: Quote) {
    var p, at := PriceOf(cfg, o, open), SizedAt(cfg, o, open);
    && (q.Quote? <==> met && Asks(o, at) && p > 0.0)
    && (q.Quote? ==> q.price == p && q.reference == open && IsSize(o, at, Parts(o), q.qty))
    && (q == NoQuote(false) <==> met && Asks(o, at) && p <= 0.0)
  }

  lemma MarketTerms(cfg: Config, o: Order, open: real)
    requires o.kind == Market
    ensures IsQuoteOf(cfg, o, open, true,
      CheckedQuote(ResolveQty(o, open), ApplySlippage(open, o.side, cfg.slippagePct), open))
  {
    SlippedIs(o.side, open, cfg.slippagePct);
    CheckedIs(o, open, 1, PriceOf(cfg, o, open), open);
  }

  lemma TwapTerms(cfg: Config, o: Order, open: real)
    requires o.kind == TwapMarket && open > 0.0
    ensures IsQuoteOf(cfg, o, open, true, TwapQuote(o, open, cfg.slippagePct))
  {
    SlippedIs(o.side, open, cfg.slippagePct);
    CheckedIs(o, open, Parts(o), PriceOf(cfg, o, open), open);
    if Asks(o, open) {
      ConvertedSize(o, open, 1);
    }
  }

  lemma LimitTerms(cfg: Config, o: Order, open: real, low: real, high: real)
    requires o.kind == Limit || o.kind == StopLimit
    ensures IsQuoteOf(cfg, o, open,
      (o.side == Buy && low > 0.0 && low <= o.price) || (o.side == Sell && high > 0.0 && high >= o.price),
      LimitQuote(o, open, low, high))
  {
    CheckedIs(o, PriceOf(cfg, o, open), 1, PriceOf(cfg, o, open), open);
  }

  lemma StopTerms(cfg: Config, o: Order, open: real)
    requires o.kind == Stop && o.side != Unset
    ensures IsQuoteOf(cfg, o, open, true, StopQuote(o, open, cfg.slippagePct))
  {
    SlippedIs(o.side, Worse(o.side, open, o.stopPrice), cfg.slippagePct);
    CheckedIs(o, PriceOf(cfg, o, open), 1, PriceOf(cfg, o, open), open);
  }

  lemma NotMet(cfg: Config, o: Order, open: real)
    ensures IsQuoteOf(cfg, o, open, false, NoQuote(true))
  {
  }

  lemma QuoteTerms(cfg: Config, o: Order, bp: BarPrices)
    requires OpenOf(cfg, bp, o.side) > 0.0
    ensures IsQuoteOf(cfg, o, OpenOf(cfg, bp, o.side), IsMet(cfg, o, bp), BarQuote(cfg, o, bp))
  {
    var open := OpenOf(cfg, bp, o.side);
    var (low, high) := TriggerRange(bp, o.side, cfg.triggerMode);
    OpenIs(cfg, bp, o.side);
    RangeMeans(cfg, bp, o.side, o.stopPrice);
    RangeMeans(cfg, bp, o.side, o.price);
    NotMet(cfg, o, open);
    match o.kind {
      case Market => MarketTerms(cfg, o, open);
      case TwapMarket => TwapTerms(cfg, o, open);
      case Limit => LimitTerms(cfg, o, open, low, high);
      case Stop =>
        if o.side != Unset {
          StopTerms(cfg, o, open);
        }
      case StopLimit => LimitTerms(cfg, o, open, low, high);
    }
    hide OpenOf;
    hide ExecutionOpen;
    hide TriggerRange;
    hide RisesTo;
    hide FallsTo;
    hide IsQuoteOf;
    hide LimitQuote;
    hide StopQuote;
    hide TwapQuote;
    hide CheckedQuote;
    hide ApplySlippage;
    hide ResolveQty;
  }

  /** When a bar fills an order, at what price and for how much, for all five order types. */
  lemma FillsIff(cfg: Config, o: Order, bp: BarPrices)
    ensures var open := OpenOf(cfg, bp, o.side);
      var p, at := PriceOf(cfg, o, open), SizedAt(cfg, o, open);
      var q := BarQuote(cfg, o, bp);
      && (q.Quote? <==> Fills(cfg, o, bp))
      && (q.Quote? ==> q.price == p && q.reference == open && IsSize(o, at, Parts(o), q.qty))
      && (q == NoQuote(false) <==> open <= 0.0 || (IsMet(cfg, o, bp) && Asks(o, at) && p <= 0.0))
  {
    var open := OpenOf(cfg, bp, o.side);
    OpenIs(cfg, bp, o.side);
    if open > 0.0 {
      QuoteTerms(cfg, o, bp);
    }
    hide OpenOf;
    hide ExecutionOpen;
    hide IsMet;
    hide TriggerRange;
    hide PriceOf;
    hide Asks;
    hide IsSize;
    hide TwapQuote;
    hide LimitQuote;
    hide StopQuote;
    hide CheckedQuote;
  }

  // ---- Without slippage a fill is inside the bar ----

  /** The bar has traded at the price, as far as it shows. */
  ghost predicate Within(cfg: Config, bp: BarPrices, side: Side, p: real) {
    RisesTo(cfg, bp, side, p) && FallsTo(cfg, bp, side, p)
  }

  lemma WithinBetween(cfg: Config, bp: BarPrices, side: Side, a: real, b: real, p: real)
    requires Within(cfg, bp, side, a)
    requires
      || p == a
      || (p == b && a <= b && RisesTo(cfg, bp, side, b))
      || (p == b && b <= a && FallsTo(cfg, bp, side, b))
    ensures Within(cfg, bp, side, p)
  {
    if p == b && cfg.triggerMode.BidAskEnvelope? {
      if a <= b {
        var v :| v in SidePrices(bp, side) && v > 0.0 && v <= a;
        assert v <= b;
      } else {
        var v :| v in SidePrices(bp, side) && v > 0.0 && a <= v;
        assert b <= v;
      }
    }
  }

  lemma NoSlippage(side: Side, p: real)
    ensures Slipped(side, p, 0.0) == p
  {
  }

  lemma WithinCanonical(cfg: Config, bp: BarPrices, side: Side, p: real)
    requires Within(cfg, bp, side, p) && cfg.triggerMode == CanonicalTrigger
    ensures bp.low <= p <= bp.high
  {
  }

  /** Without slippage every fill, of any order type, is at a price the bar has traded at, if it has
      traded at the open. */
  lemma PriceIsInBar(cfg: Config, o: Order, bp: BarPrices)
    requires cfg.slippagePct == 0.0 && BarQuote(cfg, o, bp).Quote?
    requires Within(cfg, bp, o.side, OpenOf(cfg, bp, o.side))
    ensures Within(cfg, bp, o.side, BarQuote(cfg, o, bp).price)
    ensures cfg.triggerMode == CanonicalTrigger ==> bp.low <= BarQuote(cfg, o, bp).price <= bp.high
  {
    var open := OpenOf(cfg, bp, o.side);
    FillsIff(cfg, o, bp);
    NoSlippage(o.side, open);
    NoSlippage(o.side, Worse(o.side, open, o.stopPrice));
    hide BarQuote;
    hide OpenOf;
    hide Slipped;
    hide RisesTo;
    hide FallsTo;
    var price := PriceOf(cfg, o, open);
    WithinBetween(cfg, bp, o.side, open, if o.kind == Stop then o.stopPrice else o.price, price);
    if cfg.triggerMode == CanonicalTrigger {
      WithinCanonical(cfg, bp, o.side, price);
    }
  }

  // ---- One turn ----

  /** The order may execute: it is not reduce-only, or it names an entry and is against it. */
  predicate MayExecute(b: Book, o: Order) {
    !o.reduceOnly || CanReduce(b, o)
  }

  /** A reduce-only order is for all of its entry, whatever it was submitted for. */
  function SizedNow(b: Book, o: Order): Order {
    var entry := EntryOf(b, EntryKey(o.security, o.entryID)).qty;
    if o.reduceOnly then o.(qty := if entry < 0.0 then -entry else entry, notional := 0.0) else o
  }

  lemma SizedIff(b: Book, o: Order)
    ensures Sized(b.entries, o) == if MayExecute(b, o) then Some(SizedNow(b, o)) else None
  {
  }

  /** The commission of a fill: a fixed charge, a share of its amount, or a charge for each unit. */
  function Charge(cfg: Config, qty: real, amount: real): real {
    match cfg.commissionModel
    case NoCommission => 0.0
    case Flat => cfg.commissionValue
    case Percent => cfg.commissionValue * amount
    case PerUnit => cfg.commissionValue * qty
  }

  lemma CommissionIs(cfg: Config, qty: real, price: real, notional: real)
    ensures CommissionForNotional(cfg, qty, price, notional)
         == if qty > 0.0 && price > 0.0 then Charge(cfg, qty, notional) else 0.0
    ensures Commission(cfg, qty, price) == CommissionForNotional(cfg, qty, price, price * qty)
  {
  }

  /** The trade of an order, filled at a price that slippage is measured from another. */
  predicate IsTradeOf(cfg: Config, b: Book, o: Order, barIndex: int, price: real, reference: real, t: Trade) {
    && t.id == b.nextTID && t.orderID == (if o.id == 0 then b.nextOID else o.id)
    && t.entryID == o.entryID && t.reduceOnly == o.reduceOnly && t.security == o.security && t.side == o.side
    && t.barIndex == barIndex && t.fillPrice == price
    && t.slippage == (if price < reference then reference - price else price - reference)
    && t.commission == Charge(cfg, t.qty, t.qty * price)
  }

  lemma TradeIs(cfg: Config, b: Book, o: Order, q: Quote, barIndex: int)
    requires q.Quote? && q.qty > 0.0 && q.price > 0.0
    ensures IsTradeOf(cfg, b, o, barIndex, q.price, q.reference, TradeOf(cfg, b, o, q, barIndex))
    ensures TradeOf(cfg, b, o, q, barIndex).qty == q.qty
  {
    CommissionIs(cfg, q.qty, q.price, q.qty * q.price);
    hide CommissionForNotional;
  }

  lemma SameTerms(cfg: Config, b: Book, o: Order, open: real)
    ensures PriceOf(cfg, SizedNow(b, o), open) == PriceOf(cfg, o, open)
    ensures SizedAt(cfg, SizedNow(b, o), open) == SizedAt(cfg, o, open)
    ensures Parts(SizedNow(b, o)) == Parts(o) && SizedNow(b, o).side == o.side
  {
  }

  lemma SameTrade(cfg: Config, b: Book, o: Order, price: real, reference: real, barIndex: int, t: Trade)
    requires IsTradeOf(cfg, b, SizedNow(b, o), barIndex, price, reference, t)
    ensures IsTradeOf(cfg, b, o, barIndex, price, reference, t)
  {
  }

  /** One order on one bar, in any state: it fills if and only if it may execute and the bar fills it,
      and the trade is at its terms. Otherwise nothing has happened and it is kept. */
  lemma TurnFillsIff(cfg: Config, b: Book, o: Order, barIndex: int)
    requires b.quotes.Some?
    ensures var out := ExecuteOnBar(cfg, b, o, barIndex);
      var bp, now := b.quotes.value(o.security), SizedNow(b, o);
      var open := OpenOf(cfg, bp, o.side);
      && (out.trade.Some? <==> MayExecute(b, o) && Fills(cfg, now, bp))
      && (out.trade.Some? ==>
            && IsTradeOf(cfg, b, o, barIndex, PriceOf(cfg, o, open), open, out.trade.value)
            && IsSize(now, SizedAt(cfg, o, open), Parts(o), out.trade.value.qty))
      && (out.trade.None? ==> out.book == b && KeptOrder(o, out) == [o])
  {
    var bp, now := b.quotes.value(o.security), SizedNow(b, o);
    SizedIff(b, o);
    FillsIff(cfg, now, bp);
    QuoteIsValid(cfg, now, bp, 0.0);
    SameTerms(cfg, b, o, OpenOf(cfg, bp, o.side));
    hide BarQuote;
    hide Sized;
    hide OpenOf;
    hide Fills;
    hide IsTradeOf;
    hide IsSize;
    hide PriceOf;
    hide SizedAt;
    if MayExecute(b, o) && BarQuote(cfg, now, bp).Quote? {
      var q := BarQuote(cfg, now, bp);
      TradeIs(cfg, b, now, q, barIndex);
      SameTrade(cfg, b, o, q.price, q.reference, barIndex, TradeOf(cfg, b, now, q, barIndex));
    }
    hide TradeOf;
    hide Fill;
  }

  // ---- ProcessPending ----

  lemma ProcessIsSweep(cfg: Config, b: Book, barIndex: int)
    requires b.quotes.Some? && b.pending != []
    ensures var s := Sweep(cfg, b, b.pending, barIndex);
      Process(cfg, b, barIndex).0.pending == s.remaining && Process(cfg, b, barIndex).1 == s.fills
  {
    hide Sweep;
  }

  lemma PlainIsSized(b: Book, o: Order)
    requires !o.reduceOnly
    ensures MayExecute(b, o) && SizedNow(b, o) == o
  {
  }

  /** What a trade says that has nothing to do with the state it was made in. */
  predicate Matches(cfg: Config, o: Order, barIndex: int, price: real, t: Trade) {
    && t.entryID == o.entryID && t.reduceOnly == o.reduceOnly && t.security == o.security && t.side == o.side
    && t.barIndex == barIndex && t.fillPrice == price && t.commission == Charge(cfg, t.qty, t.qty * price)
  }

  lemma TradeMatches(cfg: Config, b: Book, o: Order, barIndex: int, price: real, reference: real, t: Trade)
    requires IsTradeOf(cfg, b, o, barIndex, price, reference, t)
    ensures Matches(cfg, o, barIndex, price, t)
  {
  }

  /** In any state whose queue is in order, as it is in every reachable one: an order that is not
      reduce-only is filled by ProcessPending if and only if its bar fills it, whatever else waits with
      it. It then has one trade, at its terms, and has left the queue unless it is sliced; otherwise it
      waits unchanged. */
  lemma ProcessFillsIff(cfg: Config, b: Book, o: Order, barIndex: int)
    requires b.quotes.Some? && Queued(b.pending, b.nextOID) && o in b.pending && !o.reduceOnly
    ensures var (b', fills) := Process(cfg, b, barIndex);
      var bp := b.quotes.value(o.security);
      var open := OpenOf(cfg, bp, o.side);
      var mine := ById(fills, o.id);
      if Fills(cfg, o, bp) then
        && |mine| == 1 && Matches(cfg, o, barIndex, PriceOf(cfg, o, open), mine[0])
        && IsSize(o, SizedAt(cfg, o, open), Parts(o), mine[0].qty)
        && (o.kind != TwapMarket ==> o.id !in OrderIds(b'.pending))
      else mine == [] && o in b'.pending
  {
    hide *;
    var open := OpenOf(cfg, b.quotes.value(o.security), o.side);
    var s := Sweep(cfg, b, b.pending, barIndex);
    ProcessIsSweep(cfg, b, barIndex);
    var i, out := SweepTurn(cfg, b, b.pending, o, barIndex);
    var at := Sweep(cfg, b, b.pending[..i], barIndex);
    IdIsPositive(b.pending, b.nextOID, o);
    TurnIsPlaced(s, o, out);
    FillsOfTurn(out);
    TurnFillsIff(cfg, at.book, o, barIndex);
    PlainIsSized(at.book, o);
    if out.trade.Some? {
      TradeMatches(cfg, at.book, o, barIndex, PriceOf(cfg, o, open), open, out.trade.value);
      TurnOfOrder(cfg, at.book, o, barIndex);
    }
  }

  /** An order that the bar does not meet stays pending as it is, reduce-only or not. */
  lemma UnmetOrderWaits(cfg: Config, b: Book, o: Order, barIndex: int)
    requires b.quotes.Some? && Queued(b.pending, b.nextOID) && o in b.pending
    requires !IsMet(cfg, o, b.quotes.value(o.security))
    ensures var (b', fills) := Process(cfg, b, barIndex); o in b'.pending && ById(fills, o.id) == []
  {
    hide *;
    ProcessIsSweep(cfg, b, barIndex);
    var i, out := SweepTurn(cfg, b, b.pending, o, barIndex);
    var at := Sweep(cfg, b, b.pending[..i], barIndex);
    TurnIsPlaced(Sweep(cfg, b, b.pending, barIndex), o, out);
    FillsOfTurn(out);
    TurnFillsIff(cfg, at.book, o, barIndex);
    UnmetIsNotFilled(cfg, at.book, o, b.quotes.value(o.security));
  }

  lemma UnmetIsNotFilled(cfg: Config, b: Book, o: Order, bp: BarPrices)
    requires !IsMet(cfg, o, bp)
    ensures !Fills(cfg, SizedNow(b, o), bp)
  {
  }

  // ---- Immediate execution ----

  /** Execution at the close: at the close of its side, slipped. */
  lemma CloseFillsIff(cfg: Config, o: Order, bp: BarPrices)
    ensures var close := CloseOf(cfg, bp, o.side);
      var p := Slipped(o.side, close, cfg.slippagePct);
      var q := CloseQuote(cfg, o, bp);
      && (q.Quote? <==> close > 0.0 && Asks(o, close) && p > 0.0)
      && (q.Quote? ==> q.price == p && q.reference == close && IsSize(o, close, 1, q.qty))
  {
    var close := CloseOf(cfg, bp, o.side);
    OpenIs(cfg, bp, o.side);
    SlippedIs(o.side, close, cfg.slippagePct);
    CheckedIs(o, close, 1, Slipped(o.side, close, cfg.slippagePct), close);
  }

  /** The slippage of an immediate stop: a negative extra does not count, and neither does a negative
      sum. */
  function StopSlippage(cfg: Config, extra: real): real {
    Max(0.0, cfg.slippagePct + Max(0.0, extra))
  }

  lemma StopSlippedIs(cfg: Config, side: Side, p: real, extra: real)
    ensures ApplySlippageWithExtra(p, side, cfg.slippagePct, extra) == Slipped(side, p, StopSlippage(cfg, extra))
  {
    NoSlippage(side, p);
    SlippedIs(side, p, StopSlippage(cfg, extra));
  }

  /** An immediate stop: any side but a buy is taken as a sell. */
  lemma StopNowFillsIff(cfg: Config, o: Order, bp: BarPrices, extra: real)
    ensures var open := OpenOf(cfg, bp, o.side);
      var base := Worse(o.side, open, o.stopPrice);
      var p := Slipped(o.side, base, StopSlippage(cfg, extra));
      var q := StopNowQuote(cfg, o, bp, extra);
      && (q.Quote? <==>
            && o.kind == Stop && open > 0.0 && o.stopPrice > 0.0
            && (if o.side == Buy then RisesTo(cfg, bp, o.side, o.stopPrice) else FallsTo(cfg, bp, o.side, o.stopPrice))
            && Asks(o, base) && p > 0.0)
      && (q.Quote? ==> q.price == p && q.reference == base && IsSize(o, base, 1, q.qty))
  {
    var open := OpenOf(cfg, bp, o.side);
    var base := Worse(o.side, open, o.stopPrice);
    OpenIs(cfg, bp, o.side);
    RangeMeans(cfg, bp, o.side, o.stopPrice);
    StopSlippedIs(cfg, o.side, base, extra);
    CheckedIs(o, base, 1, Slipped(o.side, base, StopSlippage(cfg, extra)), base);
    hide TriggerRange;
    hide RisesTo;
    hide FallsTo;
    hide OpenOf;
    hide ExecutionOpen;
    hide CheckedQuote;
    hide Asks;
    hide IsSize;
    hide Slipped;
    hide ApplySlippageWithExtra;
  }

  /** What recording a trade does to the book: it is numbered, listed, paid for and booked on its
      position and entry. */
  ghost predicate Records(cfg: Config, b: Book, b': Book, o: Order, t: Trade) {
    && b'.trades == b.trades + [t] && b'.pending == b.pending && b'.quotes == b.quotes
    && b'.nextTID == b.nextTID + 1
    && b'.nextOID == (if o.id == 0 then b.nextOID + 1 else b.nextOID)
    && b'.cash == b.cash + CashDelta(cfg, PositionOf(b, t.security), t)
    && b'.positions == b.positions[t.security := UpdatePosition(PositionOf(b, t.security), t)]
    && (forall k :: k != EntryKey(t.security, t.entryID) || t.entryID == "" ==> EntryOf(b', k) == EntryOf(b, k))
  }

  lemma RecordedIs(cfg: Config, b: Book, o: Order, q: Quote, barIndex: int)
    requires q.Quote? && q.qty > 0.0 && q.price > 0.0
    ensures var (b', t) := Recorded(cfg, b, o, q, barIndex);
      && t == Some(TradeOf(cfg, b, o, q, barIndex)) && Records(cfg, b, b', o, t.value)
  {
    hide CashDelta;
    hide UpdatePosition;
    hide Commission;
  }

  /** An immediate execution is what the bar would do with the order, recorded. */
  lemma ExecuteNowIff(cfg: Config, b: Book, o: Order, barIndex: int)
    ensures var (b', t) := ExecuteNow(cfg, b, o, barIndex);
      && (t.None? ==> b' == b)
      && (t.Some? <==> b.quotes.Some? && MayExecute(b, o) && Fills(cfg, SizedNow(b, o), b.quotes.value(o.security)))
      && (t.Some? ==>
            var open := OpenOf(cfg, b.quotes.value(o.security), o.side);
            && IsTradeOf(cfg, b, o, barIndex, PriceOf(cfg, o, open), open, t.value)
            && IsSize(SizedNow(b, o), SizedAt(cfg, o, open), Parts(o), t.value.qty)
            && Records(cfg, b, b', o, t.value))
  {
    hide *;
    SizedIff(b, o);
    ExecuteNowCases(cfg, b, o, barIndex);
    if b.quotes.Some? && MayExecute(b, o) {
      var now, bp := SizedNow(b, o), b.quotes.value(o.security);
      var q := BarQuote(cfg, now, bp);
      var open := OpenOf(cfg, bp, o.side);
      SameOrderNow(b, o);
      SameTerms(cfg, b, o, open);
      FillsIff(cfg, now, bp);
      QuoteIsValid(cfg, now, bp, 0.0);
      ValidIsPositive(q);
      if q.Quote? {
        RecordedIs(cfg, b, now, q, barIndex);
        TradeIs(cfg, b, now, q, barIndex);
        SameTrade(cfg, b, o, q.price, q.reference, barIndex, TradeOf(cfg, b, now, q, barIndex));
        SameRecord(cfg, b, o, TradeOf(cfg, b, now, q, barIndex));
      }
    }
  }

  lemma ValidIsPositive(q: Quote)
    requires q.Quote? ==> ValidQuantity(q.qty) && ValidPrice(q.price)
    ensures q.Quote? ==> q.qty > 0.0 && q.price > 0.0
  {
  }

  lemma SameOrderNow(b: Book, o: Order)
    ensures SizedNow(b, o).security == o.security && SizedNow(b, o).id == o.id && SizedNow(b, o).side == o.side
  {
  }

  lemma SameRecord(cfg: Config, b: Book, o: Order, t: Trade)
    ensures forall b' :: Records(cfg, b, b', SizedNow(b, o), t) <==> Records(cfg, b, b', o, t)
  {
    hide CashDelta;
    hide UpdatePosition;
  }

  lemma ExecuteNowCases(cfg: Config, b: Book, o: Order, barIndex: int)
    ensures ExecuteNow(cfg, b, o, barIndex) ==
      if b.quotes.None? || Sized(b.entries, o).None? then (b, None)
      else
        var now := Sized(b.entries, o).value;
        var q := BarQuote(cfg, now, b.quotes.value(o.security));
        if q.Quote? then Recorded(cfg, b, now, q, barIndex) else (b, None)
  {
    hide Sized;
    hide BarQuote;
    hide TradeOf;
    hide Fill;
  }

  lemma ExecuteAtCloseCases(cfg: Config, b: Book, o: Order, barIndex: int)
    ensures ExecuteAtClose(cfg, b, o, barIndex) ==
      if b.quotes.None? || Sized(b.entries, o).None? then (b, None)
      else
        var now := Sized(b.entries, o).value;
        var q := CloseQuote(cfg, now, b.quotes.value(o.security));
        if q.Quote? then Recorded(cfg, b, now, q, barIndex) else (b, None)
  {
    hide Sized;
    hide CloseQuote;
    hide TradeOf;
    hide Fill;
  }

  /** Execution at the close, of any order type: whatever limit or stop it has does not count. */
  lemma ExecuteAtCloseIff(cfg: Config, b: Book, o: Order, barIndex: int)
    ensures var (b', t) := ExecuteAtClose(cfg, b, o, barIndex);
      && (t.None? ==> b' == b)
      && (b.quotes.None? ==> t.None?)
      && (b.quotes.Some? ==>
            var now, close := SizedNow(b, o), CloseOf(cfg, b.quotes.value(o.security), o.side);
            var p := Slipped(o.side, close, cfg.slippagePct);
            && (t.Some? <==> MayExecute(b, o) && close > 0.0 && Asks(now, close) && p > 0.0)
            && (t.Some? ==> IsTradeOf(cfg, b, o, barIndex, p, close, t.value) && IsSize(now, close, 1, t.value.qty)
                              && Records(cfg, b, b', o, t.value)))
  {
    hide *;
    SizedIff(b, o);
    ExecuteAtCloseCases(cfg, b, o, barIndex);
    if b.quotes.Some? && MayExecute(b, o) {
      var now, bp := SizedNow(b, o), b.quotes.value(o.security);
      var q := CloseQuote(cfg, now, bp);
      SameOrderNow(b, o);
      CloseFillsIff(cfg, now, bp);
      QuoteIsValid(cfg, now, bp, 0.0);
      ValidIsPositive(q);
      if q.Quote? {
        RecordedIs(cfg, b, now, q, barIndex);
        TradeIs(cfg, b, now, q, barIndex);
        SameTrade(cfg, b, o, q.price, q.reference, barIndex, TradeOf(cfg, b, now, q, barIndex));
        SameRecord(cfg, b, o, TradeOf(cfg, b, now, q, barIndex));
      }
    }
  }

  lemma ExecuteStopCases(cfg: Config, b: Book, o: Order, barIndex: int, extra: real)
    ensures ExecuteStop(cfg, b, o, barIndex, extra) ==
      if b.quotes.None? then (b, None)
      else
        var q := StopNowQuote(cfg, o, b.quotes.value(o.security), extra);
        if q.Quote? then Recorded(cfg, b, o, q, barIndex) else (b, None)
  {
    hide StopNowQuote;
    hide TradeOf;
    hide Fill;
  }

  /** An immediate stop, for what the order says and whatever its entry holds. */
  lemma ExecuteStopIff(cfg: Config, b: Book, o: Order, barIndex: int, extra: real)
    ensures var (b', t) := ExecuteStop(cfg, b, o, barIndex, extra);
      && (t.None? ==> b' == b)
      && (b.quotes.None? ==> t.None?)
      && (b.quotes.Some? ==>
            var bp := b.quotes.value(o.security);
            var open := OpenOf(cfg, bp, o.side);
            var base := Worse(o.side, open, o.stopPrice);
            var p := Slipped(o.side, base, StopSlippage(cfg, extra));
            && (t.Some? <==>
                  && o.kind == Stop && open > 0.0 && o.stopPrice > 0.0
                  && (if o.side == Buy then RisesTo(cfg, bp, o.side, o.stopPrice)
                      else FallsTo(cfg, bp, o.side, o.stopPrice))
                  && Asks(o, base) && p > 0.0)
            && (t.Some? ==> IsTradeOf(cfg, b, o, barIndex, p, base, t.value) && IsSize(o, base, 1, t.value.qty)
                              && Records(cfg, b, b', o, t.value)))
  {
    hide *;
    ExecuteStopCases(cfg, b, o, barIndex, extra);
    if b.quotes.Some? {
      var bp := b.quotes.value(o.security);
      var q := StopNowQuote(cfg, o, bp, extra);
      StopNowFillsIff(cfg, o, bp, extra);
      QuoteIsValid(cfg, o, bp, extra);
      ValidIsPositive(q);
      if q.Quote? {
        RecordedIs(cfg, b, o, q, barIndex);
        TradeIs(cfg, b, o, q, barIndex);
      }
    }
  }

  // ---- Account units ----

  /** PnL is kept in the base asset only of the security that the account counts in, and never in US
      dollars or without a unit. */
  lemma BaseAssetIff(cfg: Config, s: Security)
    ensures UsesBaseAsset(cfg, s) <==> s.symbol == cfg.accountUnit && cfg.accountUnit !in ["", "USD"]
  {
  }

  // ---- Marks ----

  /** Under exit valuation a position is marked at the price, before slippage, that closing it at the
      close would get under bid/ask execution; under mid valuation halfway between the two, where there
      are both; and otherwise at the close. */
  lemma MarkIs(cfg: Config, qty: real, bp: BarPrices)
    ensures var mark := MarkPrice(cfg, qty, bp);
      match cfg.valuationMode
      case ValueAtExit =>
        mark == CloseOf(cfg.(executionMode := BidAskExecution), bp, if qty >= 0.0 then Sell else Buy)
      case ValueAtMid =>
        if bp.bidClose > 0.0 && bp.askClose > 0.0 then bp.askClose - mark == mark - bp.bidClose else mark == bp.close
      case ValueAtClose => mark == bp.close
  {
  }
}
