/**
 Concrete runs on which the broker does not do what its documentation promises. The exact
 conditions are RunPnl and EquityContinuity in PnlLaws.dfy, ReduceOnlyStop in QueueLaws.dfy, and
 LeavesFlatIff and DroppedOpenIff in TwapReduce.dfy.
 */
module Surprises {
  import opened Basics
  import opened Market
  import opened Positions
  import opened Sums
  import opened Books
  import opened Ledgers
  import opened PnlLaws
  import opened QueueLaws
  import opened TwapReduce

  const SPY := Security("us", "SPY", "1d", 0)

  function Plain(valuation: ValuationMode): Config {
    Config(1000.0, "USD", NoCommission, 0.0, 0.0, CanonicalExecution, valuation, CanonicalTrigger)
  }

  function Flat100(): Quotes {
    (s: Security) => BarPrices(100.0, 100.0, 100.0, 100.0, 0.0, 0.0, 0.0, 0.0)
  }

  function OrderFor(side: Side, kind: OrderType, entryID: string, reduceOnly: bool, qty: real): Order {
    Order(0, entryID, reduceOnly, SPY, side, kind, qty, 0.0, 0.0, 100.0, 0)
  }

  lemma SidelessGain(b: Book)
    requires b == Initial(Plain(ValueAtClose)).(quotes := Some(Flat100()))
    ensures var cfg, o := Plain(ValueAtClose), OrderFor(Unset, OrderType.Market, "", false, 1.0);
      var t := TradeOf(cfg, b, o, Quote(1.0, 100.0, 100.0), 0);
      && Gain(cfg, PositionOf(b, SPY), UpdatePosition(PositionOf(b, SPY), t), t, Flat100()(SPY)) == 200.0
      && AccountCommission(cfg, t) == 0.0
  {
    var cfg, o := Plain(ValueAtClose), OrderFor(Unset, OrderType.Market, "", false, 1.0);
    var t := TradeOf(cfg, b, o, Quote(1.0, 100.0, 100.0), 0);
    assert UpdatePosition(FLAT, t) == Position(1.0, 100.0, 0.0, 100.0);
  }

  lemma EquityIgnoresTrades(cfg: Config, b: Book, trades: seq<Trade>)
    ensures Equity(cfg, b.(trades := trades)) == Equity(cfg, b)
  {
    hide Total;
    hide Worth;
    assert Worths(cfg, b.(trades := trades)) == Worths(cfg, b);
  }

  lemma SidelessFill(b: Book)
    requires b == Initial(Plain(ValueAtClose)).(quotes := Some(Flat100()))
    ensures var cfg, o := Plain(ValueAtClose), OrderFor(Unset, OrderType.Market, "", false, 1.0);
      var after := Apply(cfg, b, ExecuteOrderAtCloseNow(o, 0));
      after == Fill(cfg, b, o, Quote(1.0, 100.0, 100.0), 0).(trades := after.trades)
  {
    var cfg, o := Plain(ValueAtClose), OrderFor(Unset, OrderType.Market, "", false, 1.0);
    assert CloseQuote(cfg, o, Flat100()(SPY)) == Quote(1.0, 100.0, 100.0);
    hide CloseQuote;
    hide Fill;
    hide TradeOf;
  }

  lemma PricedBook(cfg: Config)
    ensures Apply(cfg, Initial(cfg), SetPrices(Flat100())) == Initial(cfg).(quotes := Some(Flat100()))
  {
  }

  /** One unit "traded" with an order that names no side, at the mark and without commission, makes
      twice its price out of nothing. */
  lemma SidelessOrderMakesMoney()
    ensures var cfg := Plain(ValueAtClose);
      var priced := Apply(cfg, Initial(cfg), SetPrices(Flat100()));
      var o := OrderFor(Unset, OrderType.Market, "", false, 1.0);
      Equity(cfg, Apply(cfg, priced, ExecuteOrderAtCloseNow(o, 0))) == Equity(cfg, priced) + 200.0
  {
    var o := OrderFor(Unset, OrderType.Market, "", false, 1.0);
    assert o.security == SPY;
    hide *;
    var cfg, q := Plain(ValueAtClose), Quote(1.0, 100.0, 100.0);
    var b := Apply(cfg, Initial(cfg), SetPrices(Flat100()));
    PricedBook(cfg);
    SidelessGain(b);
    SidelessFill(b);
    FillMovesEquity(cfg, b, o, q, 0);
    EquityIgnoresTrades(cfg, Fill(cfg, b, o, q, 0), Apply(cfg, b, ExecuteOrderAtCloseNow(o, 0)).trades);
  }

  /** Under exit valuation, selling short at the very mark of a flat account costs the spread. */
  lemma ExitValuationChargesTheSpread()
    ensures var cfg := Plain(ValueAtExit);
      var bp := BarPrices(100.0, 100.0, 100.0, 100.0, 99.0, 99.0, 101.0, 101.0);
      var t := Trade(1, 1, "", false, SPY, Sell, 1.0, 99.0, 0.0, 0.0, 0);
      && t.fillPrice == MarkPrice(cfg, FLAT.qty, bp)
      && Gain(cfg, FLAT, UpdatePosition(FLAT, t), t, bp) == -2.0
  {
  }

  /** A reduce-only stop executed immediately opens an entry that did not exist. */
  lemma ReduceOnlyStopOpens()
    ensures var cfg := Plain(ValueAtClose);
      var b := Initial(cfg).(quotes := Some(Flat100()));
      var o := OrderFor(Buy, Stop, "long", true, 1.0);
      && EntryOf(b, KeyOf(o)).qty == 0.0
      && EntryOf(ExecuteStop(cfg, b, o, 0, 0.0).0, KeyOf(o)).qty == 1.0
  {
    var cfg := Plain(ValueAtClose);
    var b := Initial(cfg).(quotes := Some(Flat100()));
    var o := OrderFor(Buy, Stop, "long", true, 1.0);
    assert StopNowQuote(cfg, o, Flat100()(SPY), 0.0) == Quote(1.0, 100.0, 100.0);
  }

  // ---- A reduce-only TWAP order that leaves its entry open ----

  const LONG := EntryKey(SPY, "long")

  /** The book at flat prices, with so much in the entry and these orders waiting. */
  ghost predicate Holds(b: Book, qty: real, pending: seq<Order>) {
    && b.quotes == Some(Flat100())
    && Ledger(b, b.trades) && b.nextOID >= 1
    && EntryOf(b, LONG).qty == qty
    && b.pending == pending
  }

  function Adding(qty: real): Order { OrderFor(Buy, OrderType.Market, "long", false, qty) }

  /** Closes the entry in so many slices. */
  function Closing(id: int, qty: real, slices: int): Order {
    OrderFor(Sell, TwapMarket, "long", true, qty).(id := id, twapBars := slices)
  }

  lemma AddQuote(more: real)
    requires more > 0.0
    ensures BarQuote(Plain(ValueAtClose), Adding(more), Flat100()(SPY)) == Quote(more, 100.0, 100.0)
  {
  }

  lemma AddFills(b: Book, more: real)
    requires b.quotes == Some(Flat100()) && b.nextOID >= 1 && more > 0.0
    ensures var cfg, o, q := Plain(ValueAtClose), Adding(more), Quote(more, 100.0, 100.0);
      var b' := Apply(cfg, b, ExecuteOrderNow(o, 0));
      && b'.quotes == b.quotes && b'.pending == b.pending && b'.nextOID >= 1
      && b'.entries == Fill(cfg, b, o, q, 0).entries
  {
    AddQuote(more);
    hide BarQuote;
    hide CashDelta;
    hide UpdatePosition;
    hide Commission;
  }

  lemma AddHolds(b: Book, qty: real, pending: seq<Order>, more: real)
    requires Holds(b, qty, pending) && more > 0.0
    ensures Holds(Apply(Plain(ValueAtClose), b, ExecuteOrderNow(Adding(more), 0)), qty + more, pending)
  {
    var cfg := Plain(ValueAtClose);
    ApplyKeepsLedger(cfg, b, ExecuteOrderNow(Adding(more), 0));
    EntryIsSound(b, b.trades, LONG);
    AddFills(b, more);
    hide Apply;
    hide Ledger;
    hide Sound;
    hide Fill;
    FillMovesEntry(cfg, b, Adding(more), Quote(more, 100.0, 100.0), 0);
  }

  lemma SubmitHolds(b: Book, qty: real)
    requires Holds(b, qty, []) && qty > 0.0
    ensures Holds(Apply(Plain(ValueAtClose), b, SubmitOrder(Closing(0, 0.0, 3))), qty, [Closing(b.nextOID, qty, 3)])
  {
    hide Ledger;
    ApplyKeepsLedger(Plain(ValueAtClose), b, SubmitOrder(Closing(0, 0.0, 3)));
  }

  lemma SliceOut(b: Book, qty: real, o: Order)
    requires Holds(b, qty, [o]) && qty > 0.0 && o == Closing(o.id, o.qty, o.twapBars) && o.id >= 1
    ensures ExecuteOnBar(Plain(ValueAtClose), b, o, 0).trade.Some?
  {
    SliceIsPart(qty, SlicesLeft(o));
    hide Fill;
    hide Ledger;
  }

  /** A sweep over a queue of one order. */
  lemma OneTurn(cfg: Config, b: Book, o: Order)
    requires b.quotes.Some? && b.pending == [o] && o.id != 0
    ensures var out := ExecuteOnBar(cfg, b, o, 0);
      var b' := Apply(cfg, b, ProcessPending(0));
      && b'.quotes == b.quotes && b'.pending == KeptOrder(o, out) && b'.entries == out.book.entries
      && b'.nextOID == b.nextOID
  {
    hide ExecuteOnBar;
    hide KeptOrder;
    TurnOfOrder(cfg, b, o, 0);
    EmptySweep(cfg, b, 0);
    SweepAppend(cfg, b, [], o, 0);
    assert [] + [o] == [o];
    hide Sweep;
  }

  lemma KeptClosing(id: int, counted: real, slices: int, out: Outcome)
    requires counted > 0.0 && slices > 1 && out.trade.Some?
    ensures var part := out.trade.value.qty;
      KeptOrder(Closing(id, counted, slices), out)
        == if counted > part then [Closing(id, counted - part, slices - 1)] else []
  {
  }

  lemma SliceHolds(b: Book, qty: real, id: int, counted: real, slices: int)
    requires Holds(b, qty, [Closing(id, counted, slices)]) && qty > 0.0 && id >= 1 && counted > 0.0 && slices > 1
    ensures var part := qty / slices as real;
      Holds(Apply(Plain(ValueAtClose), b, ProcessPending(0)), qty - part,
            if counted > part then [Closing(id, counted - part, slices - 1)] else [])
  {
    var cfg, o := Plain(ValueAtClose), Closing(id, counted, slices);
    ApplyKeepsLedger(cfg, b, ProcessPending(0));
    EntryIsSound(b, b.trades, LONG);
    SliceOut(b, qty, o);
    hide ExecuteOnBar;
    hide Apply;
    hide Ledger;
    hide Sound;
    hide KeptOrder;
    EntryOfTurn(cfg, b, o, 0);
    ShareQuantity(cfg, b, o, 0);
    OneTurn(cfg, b, o);
    KeptClosing(id, counted, slices, ExecuteOnBar(cfg, b, o, 0));
  }

  lemma RunAppend(cfg: Config, b: Book, ops: seq<Op>, op: Op)
    ensures Run(cfg, b, ops + [op]) == Apply(cfg, Run(cfg, b, ops), op)
  {
    hide Apply;
    assert (ops + [op])[..|ops|] == ops;
  }

  lemma PricesHold(cfg: Config)
    ensures Holds(Run(cfg, Initial(cfg), [SetPrices(Flat100())]), 0.0, [])
  {
    RunAppend(cfg, Initial(cfg), [], SetPrices(Flat100()));
    assert [] + [SetPrices(Flat100())] == [SetPrices(Flat100())];
    EmptyLedger(cfg);
    ApplyKeepsLedger(cfg, Initial(cfg), SetPrices(Flat100()));
    hide Ledger;
  }

  lemma HoldsMeans(b: Book, qty: real, pending: seq<Order>)
    requires Holds(b, qty, pending)
    ensures b.pending == pending && EntryOf(b, LONG).qty == qty && b.nextOID >= 1
  {
  }

  /** With 9 in the entry an order in three slices closes 3; then 12 more are bought, and its second
      slice is 9 of 18, more than the 6 it still counts: it is dropped and 9 stay open. */
  lemma GrownEntryStaysOpen()
    ensures var cfg := Plain(ValueAtClose);
      var b := Run(cfg, Initial(cfg),
        [SetPrices(Flat100())] + [ExecuteOrderNow(Adding(9.0), 0)] + [SubmitOrder(Closing(0, 0.0, 3))]
        + [ProcessPending(0)] + [ExecuteOrderNow(Adding(12.0), 0)] + [ProcessPending(0)]);
      b.pending == [] && EntryOf(b, LONG).qty == 9.0
  {
    hide *;
    var cfg := Plain(ValueAtClose);
    var b := Initial(cfg);
    var priced := [SetPrices(Flat100())];
    var bought := priced + [ExecuteOrderNow(Adding(9.0), 0)];
    var submitted := bought + [SubmitOrder(Closing(0, 0.0, 3))];
    var sliced := submitted + [ProcessPending(0)];
    var grown := sliced + [ExecuteOrderNow(Adding(12.0), 0)];
    var id := Run(cfg, b, bought).nextOID;
    PricesHold(cfg);
    RunAppend(cfg, b, priced, ExecuteOrderNow(Adding(9.0), 0));
    AddHolds(Run(cfg, b, priced), 0.0, [], 9.0);
    HoldsMeans(Run(cfg, b, bought), 9.0, []);
    RunAppend(cfg, b, bought, SubmitOrder(Closing(0, 0.0, 3)));
    SubmitHolds(Run(cfg, b, bought), 9.0);
    RunAppend(cfg, b, submitted, ProcessPending(0));
    SliceHolds(Run(cfg, b, submitted), 9.0, id, 9.0, 3);
    RunAppend(cfg, b, sliced, ExecuteOrderNow(Adding(12.0), 0));
    AddHolds(Run(cfg, b, sliced), 6.0, [Closing(id, 6.0, 2)], 12.0);
    RunAppend(cfg, b, grown, ProcessPending(0));
    SliceHolds(Run(cfg, b, grown), 18.0, id, 6.0, 2);
    HoldsMeans(Run(cfg, b, grown + [ProcessPending(0)]), 9.0, []);
  }
}
