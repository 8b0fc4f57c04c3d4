/**
 Orders, trades and the price arithmetic of a fill (internal/backtest/order.go and the pure
 helpers of internal/backtest/broker.go).

 Prices and quantities are reals. A price that is missing, NaN or infinite in the source is any
 price that is not positive here: every use in the source is behind `isValidPrice`.
 */
module Market {
  import opened Basics

  /** A side is an integer in the source, and an order built without Buy() or Sell() carries
      neither of the two: `Unset` stands for those values. */
  datatype Side = Buy | Sell | Unset

  datatype OrderType = Market | TwapMarket | Limit | Stop | StopLimit

  datatype ExecutionMode = CanonicalExecution | BidAskExecution

  datatype ValuationMode = ValueAtClose | ValueAtMid | ValueAtExit

  datatype TriggerMode = CanonicalTrigger | BidAskEnvelope

  datatype CommissionModel = NoCommission | Flat | Percent | PerUnit

  datatype Security = Security(market: string, symbol: string, interval: string, index: int)

  datatype BarPrices = BarPrices(
    open: real, high: real, low: real, close: real,
    bidOpen: real, bidClose: real, askOpen: real, askClose: real)

  datatype Config = Config(
    initialCapital: real, accountUnit: string,
    commissionModel: CommissionModel, commissionValue: real, slippagePct: real,
    executionMode: ExecutionMode, valuationMode: ValuationMode, triggerMode: TriggerMode)

  /** `entryID` is "" for an order that belongs to no logical entry. */
  datatype Order = Order(
    id: int, entryID: string, reduceOnly: bool, security: Security, side: Side, kind: OrderType,
    qty: real, notional: real, price: real, stopPrice: real, twapBars: int)

  datatype Trade = Trade(
    id: int, orderID: int, entryID: string, reduceOnly: bool, security: Security, side: Side,
    qty: real, fillPrice: real, commission: real, slippage: real, barIndex: int)
  {
    /** The signed quantity: only a sell counts down. */
    function Signed(): real {
      if side == Sell then -qty else qty
    }

    function SignedCost(): real {
      Signed() * fillPrice
    }

    /** The cash effect in quote currency: only a buy pays. */
    function NetAmount(): real {
      if side == Buy then -(qty * fillPrice + commission) else qty * fillPrice - commission
    }
  }

  predicate ValidPrice(p: real) { p > 0.0 }

  predicate ValidQuantity(q: real) { q > 0.0 }

  function Fallback(primary: real, secondary: real): real {
    if ValidPrice(primary) then primary else secondary
  }

  /** The least valid price of a list; an invalid price when there is none. */
  function MinAvailable(values: seq<real>): (r: real)
    ensures ValidPrice(r) <==> exists v :: v in values && ValidPrice(v)
    ensures ValidPrice(r) ==> r in values
    ensures forall v :: v in values && ValidPrice(v) ==> r <= v
  {
    if values == [] then 0.0
    else
      var best := MinAvailable(values[..|values| - 1]);
      var v := values[|values| - 1];
      assert values == values[..|values| - 1] + [v];
      if ValidPrice(v) && (!ValidPrice(best) || v < best) then v else best
  }

  /** The greatest valid price of a list; an invalid price when there is none. */
  function MaxAvailable(values: seq<real>): (r: real)
    ensures ValidPrice(r) <==> exists v :: v in values && ValidPrice(v)
    ensures ValidPrice(r) ==> r in values
    ensures forall v :: v in values && ValidPrice(v) ==> v <= r
  {
    if values == [] then 0.0
    else
      var best := MaxAvailable(values[..|values| - 1]);
      var v := values[|values| - 1];
      assert values == values[..|values| - 1] + [v];
      if ValidPrice(v) && (!ValidPrice(best) || v > best) then v else best
  }

  function ExecutionOpen(bp: BarPrices, side: Side, mode: ExecutionMode): real {
    if mode == BidAskExecution then
      if side == Buy then Fallback(bp.askOpen, bp.open) else Fallback(bp.bidOpen, bp.open)
    else bp.open
  }

  function ExecutionClose(bp: BarPrices, side: Side, mode: ExecutionMode): real {
    if mode == BidAskExecution then
      if side == Buy then Fallback(bp.askClose, bp.close) else Fallback(bp.bidClose, bp.close)
    else bp.close
  }

  /** The (low, high) range that stop and limit orders are tested against. */
  function TriggerRange(bp: BarPrices, side: Side, mode: TriggerMode): (real, real) {
    if mode == BidAskEnvelope then
      var values :=
        if side == Buy then [bp.askOpen, bp.askClose, bp.open, bp.close]
        else [bp.bidOpen, bp.bidClose, bp.open, bp.close];
      (MinAvailable(values), MaxAvailable(values))
    else (bp.low, bp.high)
  }

  function ApplySlippage(price: real, side: Side, pct: real): real {
    var slip := price * pct;
    if side == Buy then price + slip else price - slip
  }

  function ApplySlippageWithExtra(price: real, side: Side, base: real, extra: real): real {
    var total := if extra > 0.0 then base + extra else base;
    if total <= 0.0 then price else ApplySlippage(price, side, total)
  }

  function CommissionForNotional(cfg: Config, qty: real, price: real, notional: real): real {
    if !ValidQuantity(qty) || !ValidPrice(price) then 0.0
    else match cfg.commissionModel
      case Flat => cfg.commissionValue
      case Percent => notional * cfg.commissionValue
      case PerUnit => qty * cfg.commissionValue
      case NoCommission => 0.0
  }

  function Commission(cfg: Config, qty: real, price: real): real {
    CommissionForNotional(cfg, qty, price, qty * price)
  }

  function ResolveQty(o: Order, reference: real): real {
    if o.qty > 0.0 then o.qty
    else if o.notional > 0.0 && ValidPrice(reference) then o.notional / reference
    else 0.0
  }

  /** A security whose PnL is kept in the base asset. Unit and symbols are taken as already
      trimmed and upper-cased. */
  predicate UsesBaseAsset(cfg: Config, s: Security) {
    cfg.accountUnit != "" && cfg.accountUnit != "USD" && s.symbol == cfg.accountUnit
  }

  function MarkPrice(cfg: Config, qty: real, bp: BarPrices): real {
    match cfg.valuationMode
    case ValueAtExit => if qty >= 0.0 then Fallback(bp.bidClose, bp.close) else Fallback(bp.askClose, bp.close)
    case ValueAtMid =>
      if ValidPrice(bp.bidClose) && ValidPrice(bp.askClose) then (bp.bidClose + bp.askClose) / 2.0 else bp.close
    case ValueAtClose => bp.close
  }

  /** What one bar offers an order: no fill (`usable` is false when the bar has no usable price, so
      the order must wait), or a quantity and a price, with the price slippage is measured from. */
  datatype Quote = NoQuote(usable: bool) | Quote(qty: real, price: real, reference: real)

  function CheckedQuote(qty: real, price: real, reference: real): Quote {
    if !ValidQuantity(qty) then NoQuote(true)
    else if !ValidPrice(price) then NoQuote(false)
    else Quote(qty, price, reference)
  }

  predicate StopTriggered(o: Order, low: real, high: real) {
    || (o.side == Buy && ValidPrice(high) && high >= o.stopPrice)
    || (o.side == Sell && ValidPrice(low) && low <= o.stopPrice)
  }

  /** A resting limit price that the bar reaches is filled at the better of open and limit. */
  function LimitQuote(o: Order, open: real, low: real, high: real): Quote {
    if o.side == Buy && ValidPrice(low) && low <= o.price then
      var p := Min(open, o.price); CheckedQuote(ResolveQty(o, p), p, open)
    else if o.side == Sell && ValidPrice(high) && high >= o.price then
      var p := Max(open, o.price); CheckedQuote(ResolveQty(o, p), p, open)
    else NoQuote(true)
  }

  function StopQuote(o: Order, open: real, slippagePct: real): Quote {
    var base := if o.side == Buy then Max(open, o.stopPrice) else Min(open, o.stopPrice);
    var p := ApplySlippage(base, o.side, slippagePct);
    CheckedQuote(ResolveQty(o, p), p, open)
  }

  function SlicesLeft(o: Order): (n: nat)
    ensures n >= 1
  {
    if o.twapBars <= 0 then 1 else o.twapBars
  }

  function TwapQuote(o: Order, open: real, slippagePct: real): Quote {
    var total := ResolveQty(o, open);
    if total <= 0.0 then NoQuote(true)
    else CheckedQuote(total / SlicesLeft(o) as real, ApplySlippage(open, o.side, slippagePct), open)
  }

  /** The pricing half of executeOrderOnBar. */
  function BarQuote(cfg: Config, o: Order, bp: BarPrices): Quote {
    var open := ExecutionOpen(bp, o.side, cfg.executionMode);
    if !ValidPrice(open) then NoQuote(false)
    else
      var (low, high) := TriggerRange(bp, o.side, cfg.triggerMode);
      match o.kind
      case Market =>
        CheckedQuote(ResolveQty(o, open), ApplySlippage(open, o.side, cfg.slippagePct), open)
      case TwapMarket =>
        TwapQuote(o, open, cfg.slippagePct)
      case Limit =>
        LimitQuote(o, open, low, high)
      case Stop =>
        if StopTriggered(o, low, high) then StopQuote(o, open, cfg.slippagePct) else NoQuote(true)
      case StopLimit =>
        if StopTriggered(o, low, high) then LimitQuote(o, open, low, high) else NoQuote(true)
  }

  /** The pricing half of ExecuteOrderAtCloseNow. */
  function CloseQuote(cfg: Config, o: Order, bp: BarPrices): Quote {
    var close := ExecutionClose(bp, o.side, cfg.executionMode);
    if !ValidPrice(close) then NoQuote(false)
    else CheckedQuote(ResolveQty(o, close), ApplySlippage(close, o.side, cfg.slippagePct), close)
  }

  /** The pricing half of ExecuteStopOrderNow. Any side but Buy is taken as a sell here. */
  function StopNowQuote(cfg: Config, o: Order, bp: BarPrices, extra: real): Quote {
    var open := ExecutionOpen(bp, o.side, cfg.executionMode);
    if o.kind != Stop || !ValidPrice(open) || !ValidPrice(o.stopPrice) then NoQuote(false)
    else
      var (low, high) := TriggerRange(bp, o.side, cfg.triggerMode);
      var triggered :=
        if o.side == Buy then ValidPrice(high) && high >= o.stopPrice
        else ValidPrice(low) && low <= o.stopPrice;
      if !triggered then NoQuote(true)
      else
        var base := if o.side == Buy then Max(open, o.stopPrice) else Min(open, o.stopPrice);
        CheckedQuote(ResolveQty(o, base), ApplySlippageWithExtra(base, o.side, cfg.slippagePct, extra), base)
  }

  lemma SlippageIsAdverse(price: real, side: Side, pct: real)
    requires price >= 0.0 && pct >= 0.0
    ensures side == Buy ==> ApplySlippage(price, side, pct) >= price
    ensures side != Buy ==> ApplySlippage(price, side, pct) <= price
  {
    assert price * pct >= 0.0;
  }

  /** An order is never filled on better terms than its type allows: a limit is not overrun, a
      triggered stop is not beaten, a market order does not improve on the open. */
  predicate KeepsTerms(o: Order, q: Quote)
    requires q.Quote?
  {
    match o.kind
    case Market => if o.side == Buy then q.price >= q.reference else q.price <= q.reference
    case TwapMarket => if o.side == Buy then q.price >= q.reference else q.price <= q.reference
    case Stop => o.side != Unset && if o.side == Buy then q.price >= o.stopPrice else q.price <= o.stopPrice
    case Limit => o.side != Unset && if o.side == Buy then q.price <= o.price else q.price >= o.price
    case StopLimit => o.side != Unset && if o.side == Buy then q.price <= o.price else q.price >= o.price
  }

  lemma StopKeepsTerms(o: Order, open: real, low: real, high: real, slippagePct: real)
    requires ValidPrice(open) && slippagePct >= 0.0 && StopTriggered(o, low, high)
    requires o.kind == Stop && StopQuote(o, open, slippagePct).Quote?
    ensures KeepsTerms(o, StopQuote(o, open, slippagePct))
  {
    var base := if o.side == Buy then Max(open, o.stopPrice) else Min(open, o.stopPrice);
    SlippageIsAdverse(base, o.side, slippagePct);
  }

  /** Whatever the bar and the order type. */
  lemma QuoteKeepsTerms(cfg: Config, o: Order, bp: BarPrices)
    requires cfg.slippagePct >= 0.0
    ensures var q := BarQuote(cfg, o, bp);
      q.Quote? ==> ValidQuantity(q.qty) && ValidPrice(q.price) && KeepsTerms(o, q)
  {
    var open := ExecutionOpen(bp, o.side, cfg.executionMode);
    if ValidPrice(open) {
      var (low, high) := TriggerRange(bp, o.side, cfg.triggerMode);
      SlippageIsAdverse(open, o.side, cfg.slippagePct);
      if o.kind == Stop && StopTriggered(o, low, high) && StopQuote(o, open, cfg.slippagePct).Quote? {
        StopKeepsTerms(o, open, low, high, cfg.slippagePct);
      }
    }
  }
}
