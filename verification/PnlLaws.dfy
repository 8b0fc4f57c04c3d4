/**
 What the account is worth: one fill at the mark costs its commission, and over whole runs the
 profit is the sum over the trades of what each has made since.
 */
module PnlLaws {
  import opened Market
  import opened Positions
  import opened Sums
  import opened Books
  import opened Ledgers

  // ---- One fill ----

  lemma TotalOfOneChange(cfg: Config, b: Book, b': Book, s: Security)
    requires b'.positions.Keys == b.positions.Keys + {s} && b'.quotes == b.quotes
    requires forall k :: k in b.positions && k != s ==> b'.positions[k] == b.positions[k]
    ensures Total(Worths(cfg, b')) == Total(Worths(cfg, b)) - WorthIn(cfg, b, s) + WorthIn(cfg, b', s)
  {
    hide Worth;
    assert Worths(cfg, b') == Worths(cfg, b)[s := WorthIn(cfg, b', s)];
    TotalUpdate(Worths(cfg, b), s, WorthIn(cfg, b', s));
    if s !in b.positions {
      FlatIsWorthless(cfg, b, s);
    }
  }

  lemma FlatIsWorthless(cfg: Config, b: Book, s: Security)
    requires PositionOf(b, s).qty == 0.0
    ensures WorthIn(cfg, b, s) == 0.0
  {
  }

  /** Any fill on any path, at any price: equity moves by the gain on its position, less the
      commission in account units. */
  lemma FillMovesEquity(cfg: Config, b: Book, o: Order, q: Quote, barIndex: int)
    requires b.quotes.Some? && q.Quote?
    ensures var t := TradeOf(cfg, b, o, q, barIndex);
      var p := PositionOf(b, o.security);
      Equity(cfg, Fill(cfg, b, o, q, barIndex))
        == Equity(cfg, b) - AccountCommission(cfg, t)
          + Gain(cfg, p, UpdatePosition(p, t), t, b.quotes.value(o.security))
  {
    hide UpdatePosition;
    hide CashDelta;
    hide Commission;
    hide AccountCommission;
    hide Worth;
    TotalOfOneChange(cfg, b, Fill(cfg, b, o, q, barIndex), o.security);
    hide Total;
  }

  lemma FillStaysMarked(cfg: Config, p: Position, t: Trade, bp: BarPrices)
    requires Sound(p) && ValidTrade(t)
    requires p.qty + t.Signed() == 0.0 || ValidPrice(MarkPrice(cfg, p.qty + t.Signed(), bp))
    ensures Marked(cfg, UpdatePosition(p, t), bp)
  {
    hide UpdatePosition;
    hide MarkPrice;
    FillConserves(p, t);
  }

  /** Equity continuity. In any state with a sound position, such as every state a run reaches
      (RunKeepsLedger), and in both accounting modes, a fill (open, add, partial close, full close or
      reversal) at the security's current mark changes equity by exactly its commission in account
      units, if and only if the order names a side (in quote accounting) and the mark of what remains
      is kept; under close or mid valuation it always is. */
  lemma EquityContinuity(cfg: Config, b: Book, o: Order, q: Quote, barIndex: int)
    requires Sound(PositionOf(b, o.security)) && b.quotes.Some?
    requires q.Quote? && ValidQuantity(q.qty) && ValidPrice(q.price)
    requires var bp, qty := b.quotes.value(o.security), PositionOf(b, o.security).qty;
      var after := if o.side == Sell then qty - q.qty else qty + q.qty;
      q.price == MarkPrice(cfg, qty, bp) && (after == 0.0 || ValidPrice(MarkPrice(cfg, after, bp)))
    ensures var t := TradeOf(cfg, b, o, q, barIndex);
      Equity(cfg, Fill(cfg, b, o, q, barIndex)) == Equity(cfg, b) - AccountCommission(cfg, t) <==>
        (UsesBaseAsset(cfg, o.security) || o.side != Unset)
        && MarkKept(cfg, PositionOf(b, o.security), t, b.quotes.value(o.security))
    ensures cfg.valuationMode != ValueAtExit ==>
      MarkKept(cfg, PositionOf(b, o.security), TradeOf(cfg, b, o, q, barIndex), b.quotes.value(o.security))
  {
    hide UpdatePosition;
    hide Gain;
    hide MarkKept;
    hide Fill;
    hide Equity;
    hide AccountCommission;
    hide Marked;
    hide MarkPrice;
    hide Sum;
    hide Sound;
    var t := TradeOf(cfg, b, o, q, barIndex);
    var p := PositionOf(b, o.security);
    assert Marked(cfg, UpdatePosition(p, t), b.quotes.value(o.security)) by {
      FillStaysMarked(cfg, p, t, b.quotes.value(o.security));
    }
    FillMovesEquity(cfg, b, o, q, barIndex);
    FairFill(cfg, p, t, b.quotes.value(o.security));
  }

  // ---- Whole runs, in both accounting modes ----

  function FeeOf(): Trade -> real { (t: Trade) => t.commission }

  function SignedCosts(): Trade -> real { (t: Trade) => t.SignedCost() }

  /** Twice the amount of a trade that names no side: it is booked as bought and paid as sold. */
  function Sideless(): Trade -> real {
    (t: Trade) => if t.side == Unset then 2.0 * (t.qty * t.fillPrice) else 0.0
  }

  function Minus(f: Trade -> real): Trade -> real { (t: Trade) => -f(t) }

  function Plus(f: Trade -> real, g: Trade -> real): Trade -> real { (t: Trade) => f(t) + g(t) }

  /** Signed quantity at a mark per security. */
  function AtMark(m: Security -> real): Trade -> real { (t: Trade) => t.Signed() * m(t.security) }

  /** What a trade has made since: signed quantity times (mark - fill price). */
  function Made(m: Security -> real): Trade -> real { (t: Trade) => t.Signed() * (m(t.security) - t.fillPrice) }

  /** Only the trades in quote accounting count. */
  function Quoted(cfg: Config, f: Trade -> real): Trade -> real {
    (t: Trade) => if UsesBaseAsset(cfg, t.security) then 0.0 else f(t)
  }

  function MarkIn(cfg: Config, b: Book): Security -> real {
    match b.quotes
    case None => (s: Security) => 0.0
    case Some(quotes) => (s: Security) => MarkPrice(cfg, PositionOf(b, s).qty, quotes(s))
  }

  /** The marks of the securities in quote accounting. */
  function QuoteMarkIn(cfg: Config, b: Book): Security -> real {
    (s: Security) => if UsesBaseAsset(cfg, s) then 0.0 else MarkIn(cfg, b)(s)
  }

  /** Every trade is in quote accounting. */
  predicate QuoteTraded(cfg: Config, trades: seq<Trade>) {
    forall i :: 0 <= i < |trades| ==> !UsesBaseAsset(cfg, trades[i].security)
  }

  /** Every open position has a valid mark. */
  predicate AllMarked(cfg: Config, b: Book) {
    forall s :: s in b.positions && b.positions[s].qty != 0.0 ==> ValidPrice(MarkIn(cfg, b)(s))
  }

  lemma {:induction false} SumMinus(trades: seq<Trade>, f: Trade -> real)
    ensures Sum(trades, Minus(f)) == -Sum(trades, f)
  {
    if trades == [] {
    } else {
      SumMinus(trades[..|trades| - 1], f);
    }
  }

  ghost function ValuesAt(trades: seq<Trade>, keys: set<Security>, m: Security -> real): map<Security, real> {
    map s | s in keys :: Sum(trades, OnSecurity(s)) * m(s)
  }

  lemma ValuesStep(front: seq<Trade>, t: Trade, keys: set<Security>, m: Security -> real)
    requires t.security in keys
    ensures ValuesAt(front + [t], keys, m)
      == ValuesAt(front, keys, m)[t.security := ValuesAt(front, keys, m)[t.security] + AtMark(m)(t)]
  {
    hide Sum;
    forall s | s in keys
      ensures Sum(front + [t], OnSecurity(s)) == Sum(front, OnSecurity(s)) + OnSecurity(s)(t)
    {
      SumAppend(front, t, OnSecurity(s));
    }
    DistributeSum(Sum(front, OnSecurity(t.security)), t.Signed(), m(t.security));
    var after, before := ValuesAt(front + [t], keys, m), ValuesAt(front, keys, m);
    assert after[t.security] == before[t.security] + AtMark(m)(t);
    forall s | s in keys && s != t.security
      ensures after[s] == before[s]
    {
      assert Sum(front + [t], OnSecurity(s)) == Sum(front, OnSecurity(s));
    }
    assert after == before[t.security := after[t.security]];
  }

  /** The positions at their marks are the signed trades at theirs. */
  lemma {:induction false} PositionsAtMarks(trades: seq<Trade>, keys: set<Security>, m: Security -> real)
    requires forall i :: 0 <= i < |trades| ==> trades[i].security in keys
    ensures Total(ValuesAt(trades, keys, m)) == Sum(trades, AtMark(m))
  {
    if trades == [] {
      TotalZero(ValuesAt(trades, keys, m));
    } else {
      var front, t := trades[..|trades| - 1], trades[|trades| - 1];
      assert trades == front + [t];
      PositionsAtMarks(front, keys, m);
      ValuesStep(front, t, keys, m);
      var values := ValuesAt(front, keys, m);
      hide ValuesAt;
      TotalUpdate(values, t.security, values[t.security] + AtMark(m)(t));
      SumAppend(front, t, AtMark(m));
    }
  }

  /** What the positions in base-asset accounting are worth: each unrealized PnL at its own mark. */
  ghost function BaseWorths(cfg: Config, b: Book): map<Security, real> {
    map s | s in b.positions :: if UsesBaseAsset(cfg, s) then WorthIn(cfg, b, s) else 0.0
  }

  /** With every open position marked, the market value is the quote-accounted trades at their marks,
      plus what the positions in base-asset accounting are worth. */
  lemma MarketValue(cfg: Config, b: Book)
    requires PositionsAgree(b.positions, b.trades) && b.quotes.Some? && AllMarked(cfg, b)
    ensures Total(Worths(cfg, b)) == Sum(b.trades, AtMark(QuoteMarkIn(cfg, b))) + Total(BaseWorths(cfg, b))
  {
    var m := QuoteMarkIn(cfg, b);
    hide Total;
    hide Sum;
    hide NetCost;
    hide Sound;
    var values := ValuesAt(b.trades, b.positions.Keys, m);
    forall s | s in b.positions
      ensures Worths(cfg, b)[s] == values[s] + BaseWorths(cfg, b)[s]
    {
      QuoteWorthIn(cfg, b, s);
      hide WorthIn;
      hide MarkIn;
      assert GetOr(b.positions, s, FLAT).qty == Sum(b.trades, OnSecurity(s));
    }
    TotalAdd(values, BaseWorths(cfg, b), Worths(cfg, b));
    PositionsAtMarks(b.trades, b.positions.Keys, m);
  }

  lemma QuoteWorthIn(cfg: Config, b: Book, s: Security)
    requires b.quotes.Some? && AllMarked(cfg, b) && s in b.positions
    ensures !UsesBaseAsset(cfg, s) ==> WorthIn(cfg, b, s) == PositionOf(b, s).qty * MarkIn(cfg, b)(s)
  {
  }

  // ---- Cash ----

  /** The position that the trades of a security make, one after the other. */
  function PositionAfter(trades: seq<Trade>, s: Security): Position {
    if trades == [] then FLAT
    else
      var before, t := PositionAfter(trades[..|trades| - 1], s), trades[|trades| - 1];
      if t.security == s then UpdatePosition(before, t) else before
  }

  /** What a trade pays when it meets position `p`: its net amount; or, in base-asset accounting, the
      PnL it realizes less its commission, converted at its own price. */
  function FlowOf(cfg: Config, p: Position, t: Trade): real {
    if UsesBaseAsset(cfg, t.security) then
      if ValidPrice(t.fillPrice) then (UpdatePosition(p, t).realized - p.realized - t.commission) / t.fillPrice else 0.0
    else t.NetAmount()
  }

  function Flows(cfg: Config, trades: seq<Trade>): real {
    if trades == [] then 0.0
    else
      var front, t := trades[..|trades| - 1], trades[|trades| - 1];
      Flows(cfg, front) + FlowOf(cfg, PositionAfter(front, t.security), t)
  }

  /** What the trades in base-asset accounting have paid. */
  function BaseFlows(cfg: Config, trades: seq<Trade>): real {
    if trades == [] then 0.0
    else
      var front, t := trades[..|trades| - 1], trades[|trades| - 1];
      BaseFlows(cfg, front)
        + if UsesBaseAsset(cfg, t.security) then FlowOf(cfg, PositionAfter(front, t.security), t) else 0.0
  }

  /** Every position, with its average and its realized PnL, is what its trades make it. */
  ghost predicate Follows(positions: map<Security, Position>, trades: seq<Trade>) {
    forall s :: GetOr(positions, s, FLAT) == PositionAfter(trades, s)
  }

  /** Cash is what was put in and what the trades paid. */
  ghost predicate CashAgrees(cfg: Config, b: Book, trades: seq<Trade>, adjusted: real) {
    && Follows(b.positions, trades)
    && b.cash == cfg.initialCapital + adjusted + Flows(cfg, trades)
  }

  lemma FollowsStep(b: Book, trades: seq<Trade>, t: Trade)
    requires Follows(b.positions, trades)
    ensures Follows(ApplyTrade(b, t).positions, trades + [t])
  {
    hide UpdatePosition;
    assert (trades + [t])[..|trades|] == trades;
    assert GetOr(b.positions, t.security, FLAT) == PositionAfter(trades, t.security);
    forall s
      ensures GetOr(ApplyTrade(b, t).positions, s, FLAT) == PositionAfter(trades + [t], s)
    {
      assert GetOr(b.positions, s, FLAT) == PositionAfter(trades, s);
    }
  }

  lemma DeltaIsFlow(cfg: Config, p: Position, t: Trade)
    requires Sound(p) && ValidTrade(t)
    ensures CashDelta(cfg, p, t) == FlowOf(cfg, p, t)
  {
    if UsesBaseAsset(cfg, t.security) {
      BaseCash(cfg, p, t);
      hide CashDelta;
      hide UpdatePosition;
      DivideDifference(UpdatePosition(p, t).realized - p.realized, t.commission, t.fillPrice);
    }
  }

  lemma FlowsAppend(cfg: Config, trades: seq<Trade>, t: Trade)
    ensures Flows(cfg, trades + [t]) == Flows(cfg, trades) + FlowOf(cfg, PositionAfter(trades, t.security), t)
  {
    hide FlowOf;
    assert (trades + [t])[..|trades|] == trades;
  }

  lemma LedgerPositionIsSound(b: Book, trades: seq<Trade>, s: Security)
    requires Ledger(b, trades)
    ensures Sound(PositionOf(b, s))
  {
    FlatIsSound();
  }

  lemma FillCash(cfg: Config, b: Book, trades: seq<Trade>, adjusted: real, o: Order, q: Quote, barIndex: int)
    requires Ledger(b, trades) && CashAgrees(cfg, b, trades, adjusted)
    requires q.Quote? && ValidQuantity(q.qty) && ValidPrice(q.price)
    ensures CashAgrees(cfg, Fill(cfg, b, o, q, barIndex), trades + [TradeOf(cfg, b, o, q, barIndex)], adjusted)
  {
    hide Commission;
    hide Ledger;
    hide UpdatePosition;
    hide CashDelta;
    hide FlowOf;
    hide Flows;
    hide PositionAfter;
    var t := TradeOf(cfg, b, o, q, barIndex);
    LedgerPositionIsSound(b, trades, o.security);
    DeltaIsFlow(cfg, PositionOf(b, o.security), t);
    FollowsStep(b, trades, t);
    FlowsAppend(cfg, trades, t);
    assert PositionOf(b, o.security) == PositionAfter(trades, o.security);
  }

  lemma {:induction false} SweepCash(cfg: Config, b: Book, trades: seq<Trade>, adjusted: real, orders: seq<Order>,
                                     barIndex: int)
    requires b.quotes.Some? && Ledger(b, trades) && CashAgrees(cfg, b, trades, adjusted)
    ensures var s := Sweep(cfg, b, orders, barIndex); CashAgrees(cfg, s.book, trades + s.fills, adjusted)
  {
    hide CashAgrees;
    hide Ledger;
    hide BarQuote;
    hide TradeOf;
    hide Fill;
    if orders == [] {
      assert trades + [] == trades;
    } else {
      var front, o := orders[..|orders| - 1], orders[|orders| - 1];
      var s := Sweep(cfg, b, front, barIndex);
      SweepCash(cfg, b, trades, adjusted, front, barIndex);
      SweepKeepsLedger(cfg, b, trades, front, barIndex);
      var out := ExecuteOnBar(cfg, s.book, o, barIndex);
      assert trades + (s.fills + FillsOf(out)) == (trades + s.fills) + FillsOf(out);
      if out.trade.Some? {
        var sized := Sized(s.book.entries, o).value;
        var bp := b.quotes.value(o.security);
        QuoteIsValid(cfg, sized, bp, 0.0);
        FillCash(cfg, s.book, trades + s.fills, adjusted, sized, BarQuote(cfg, sized, bp), barIndex);
      } else {
        assert trades + s.fills + [] == trades + s.fills;
      }
    }
  }

  /** The sum of all AdjustCash amounts of a run. */
  function Adjusted(ops: seq<Op>): real {
    if ops == [] then 0.0
    else Adjusted(ops[..|ops| - 1]) + if ops[|ops| - 1].AdjustCash? then ops[|ops| - 1].amount else 0.0
  }

  lemma RecordedCash(cfg: Config, b: Book, adjusted: real, o: Order, q: Quote, barIndex: int)
    requires Ledger(b, b.trades) && CashAgrees(cfg, b, b.trades, adjusted)
    requires q.Quote? ==> ValidQuantity(q.qty) && ValidPrice(q.price)
    ensures var b' := Recorded(cfg, b, o, q, barIndex).0; CashAgrees(cfg, b', b'.trades, adjusted)
  {
    hide Ledger;
    if q.Quote? {
      FillCash(cfg, b, b.trades, adjusted, o, q, barIndex);
      hide Fill;
      hide TradeOf;
    }
  }

  lemma ApplyCash(cfg: Config, b: Book, adjusted: real, op: Op)
    requires Ledger(b, b.trades) && CashAgrees(cfg, b, b.trades, adjusted)
    ensures var b' := Apply(cfg, b, op);
      CashAgrees(cfg, b', b'.trades, adjusted + if op.AdjustCash? then op.amount else 0.0)
  {
    hide Ledger;
    hide Recorded;
    hide BarQuote;
    hide CloseQuote;
    hide StopNowQuote;
    match op {
      case ProcessPending(barIndex) =>
        if b.quotes.Some? {
          SweepCash(cfg, b, b.trades, adjusted, b.pending, barIndex);
          hide Sweep;
        }
      case ExecuteOrderNow(o, barIndex) =>
        if b.quotes.Some? && Sized(b.entries, o).Some? {
          var sized := Sized(b.entries, o).value;
          QuoteIsValid(cfg, sized, b.quotes.value(o.security), 0.0);
          RecordedCash(cfg, b, adjusted, sized, BarQuote(cfg, sized, b.quotes.value(o.security)), barIndex);
        }
      case ExecuteOrderAtCloseNow(o, barIndex) =>
        if b.quotes.Some? && Sized(b.entries, o).Some? {
          var sized := Sized(b.entries, o).value;
          QuoteIsValid(cfg, sized, b.quotes.value(o.security), 0.0);
          RecordedCash(cfg, b, adjusted, sized, CloseQuote(cfg, sized, b.quotes.value(o.security)), barIndex);
        }
      case ExecuteStopOrderNow(o, barIndex, extra) =>
        if b.quotes.Some? {
          QuoteIsValid(cfg, o, b.quotes.value(o.security), extra);
          RecordedCash(cfg, b, adjusted, o, StopNowQuote(cfg, o, b.quotes.value(o.security), extra), barIndex);
        }
      case _ =>
    }
  }

  /** Over every run and in both accounting modes, mixed in any way: every position is what its trades
      make it, and cash is the initial capital, plus every adjustment, plus what each trade paid: its
      net amount, or in base-asset accounting its realized PnL less its commission at its own price. */
  lemma {:induction false} RunCash(cfg: Config, ops: seq<Op>)
    ensures var b := Run(cfg, Initial(cfg), ops); CashAgrees(cfg, b, b.trades, Adjusted(ops))
  {
    if ops == [] {
    } else {
      var front := ops[..|ops| - 1];
      RunCash(cfg, front);
      RunKeepsLedger(cfg, front);
      ApplyCash(cfg, Run(cfg, Initial(cfg), front), Adjusted(front), ops[|ops| - 1]);
    }
  }

  lemma {:induction false} FlowsSplit(cfg: Config, trades: seq<Trade>)
    ensures Flows(cfg, trades) == Sum(trades, Quoted(cfg, NetCash())) + BaseFlows(cfg, trades)
  {
    hide PositionAfter;
    if trades == [] {
    } else {
      FlowsSplit(cfg, trades[..|trades| - 1]);
    }
  }

  lemma CashOfTrade(cfg: Config, t: Trade)
    ensures Quoted(cfg, NetCash())(t)
         == Plus(Minus(Quoted(cfg, SignedCosts())), Minus(Quoted(cfg, FeeOf())))(t) + Quoted(cfg, Sideless())(t)
  {
    assert t.SignedCost() == if t.side == Sell then -(t.qty * t.fillPrice) else t.qty * t.fillPrice;
  }

  lemma CashOfTrades(cfg: Config, trades: seq<Trade>)
    ensures Sum(trades, Quoted(cfg, NetCash()))
         == -Sum(trades, Quoted(cfg, SignedCosts())) - Sum(trades, Quoted(cfg, FeeOf()))
           + Sum(trades, Quoted(cfg, Sideless()))
  {
    var costs, fees := Quoted(cfg, SignedCosts()), Quoted(cfg, FeeOf());
    var sideless, net := Quoted(cfg, Sideless()), Quoted(cfg, NetCash());
    var paid := Plus(Minus(costs), Minus(fees));
    forall i | 0 <= i < |trades|
      ensures net(trades[i]) == paid(trades[i]) + sideless(trades[i])
    {
      CashOfTrade(cfg, trades[i]);
    }
    SumPlus(trades, Minus(costs), Minus(fees), paid);
    hide *;
    SumPlus(trades, paid, sideless, net);
    SumMinus(trades, costs);
    SumMinus(trades, fees);
  }

  lemma MadeOfTrade(cfg: Config, b: Book, t: Trade)
    ensures Quoted(cfg, Made(MarkIn(cfg, b)))(t)
         == AtMark(QuoteMarkIn(cfg, b))(t) + Minus(Quoted(cfg, SignedCosts()))(t)
  {
    var m := MarkIn(cfg, b);
    hide MarkIn;
    Distribute(t.Signed(), m(t.security), t.fillPrice);
  }

  lemma MadeOfTrades(cfg: Config, b: Book)
    ensures Sum(b.trades, Quoted(cfg, Made(MarkIn(cfg, b))))
         == Sum(b.trades, AtMark(QuoteMarkIn(cfg, b))) - Sum(b.trades, Quoted(cfg, SignedCosts()))
  {
    var costs := Quoted(cfg, SignedCosts());
    var marked, made := AtMark(QuoteMarkIn(cfg, b)), Quoted(cfg, Made(MarkIn(cfg, b)));
    forall i | 0 <= i < |b.trades|
      ensures made(b.trades[i]) == marked(b.trades[i]) + Minus(costs)(b.trades[i])
    {
      MadeOfTrade(cfg, b, b.trades[i]);
    }
    hide *;
    SumPlus(b.trades, marked, Minus(costs), made);
    SumMinus(b.trades, costs);
  }

  /** The profit that the account promises: what each quote-accounted trade has made at the current
      marks less its commission, the cash flows of the base-accounted trades and what their positions
      are worth, and the amounts that were put in. */
  ghost function Promised(cfg: Config, b: Book, adjusted: real): real {
    Sum(b.trades, Quoted(cfg, Made(MarkIn(cfg, b)))) - Sum(b.trades, Quoted(cfg, FeeOf()))
      + BaseFlows(cfg, b.trades) + Total(BaseWorths(cfg, b)) + adjusted
  }

  lemma StatePnl(cfg: Config, b: Book, adjusted: real)
    requires Ledger(b, b.trades) && CashAgrees(cfg, b, b.trades, adjusted) && b.quotes.Some? && AllMarked(cfg, b)
    ensures Equity(cfg, b) - cfg.initialCapital == Promised(cfg, b, adjusted) + Sum(b.trades, Quoted(cfg, Sideless()))
  {
    MarketValue(cfg, b);
    MadeOfTrades(cfg, b);
    CashOfTrades(cfg, b.trades);
    FlowsSplit(cfg, b.trades);
    hide *;
    hide Sum;
    assert Equity(cfg, b) == b.cash + Total(Worths(cfg, b)) by {
      EquityIs(cfg, b);
    }
    assert b.cash == cfg.initialCapital + adjusted + Flows(cfg, b.trades) by {
      CashIs(cfg, b, adjusted);
    }
    PromisedIs(cfg, b, adjusted);
  }

  lemma EquityIs(cfg: Config, b: Book)
    ensures Equity(cfg, b) == b.cash + Total(Worths(cfg, b))
  {
  }

  lemma CashIs(cfg: Config, b: Book, adjusted: real)
    requires CashAgrees(cfg, b, b.trades, adjusted)
    ensures b.cash == cfg.initialCapital + adjusted + Flows(cfg, b.trades)
  {
  }

  lemma PromisedIs(cfg: Config, b: Book, adjusted: real)
    ensures Promised(cfg, b, adjusted)
         == Sum(b.trades, Quoted(cfg, Made(MarkIn(cfg, b)))) - Sum(b.trades, Quoted(cfg, FeeOf()))
            + BaseFlows(cfg, b.trades) + Total(BaseWorths(cfg, b)) + adjusted
  {
  }

  /** The operation hands the broker no order without a side. */
  predicate NamesSide(op: Op) {
    op.SubmitOrder? || op.ExecuteOrderNow? || op.ExecuteOrderAtCloseNow? || op.ExecuteStopOrderNow? ==>
      op.order.side != Unset
  }

  predicate OrdersSided(orders: seq<Order>) {
    forall o :: o in orders ==> o.side != Unset
  }

  predicate TradesSided(trades: seq<Trade>) {
    forall i :: 0 <= i < |trades| ==> trades[i].side != Unset
  }

  lemma {:induction false} SweepKeepsSides(cfg: Config, b: Book, orders: seq<Order>, barIndex: int)
    requires b.quotes.Some? && OrdersSided(orders)
    ensures var s := Sweep(cfg, b, orders, barIndex); OrdersSided(s.remaining) && TradesSided(s.fills)
  {
    hide BarQuote;
    hide Fill;
    hide Commission;
    if orders == [] {
    } else {
      var front, o := orders[..|orders| - 1], orders[|orders| - 1];
      assert orders == front + [o];
      SweepKeepsSides(cfg, b, front, barIndex);
    }
  }

  lemma {:induction false} WithoutKeepsSides(pending: seq<Order>, s: Security)
    requires OrdersSided(pending)
    ensures OrdersSided(Without(pending, s))
  {
    if pending == [] {
    } else {
      var front, last := pending[..|pending| - 1], pending[|pending| - 1];
      assert pending == front + [last];
      WithoutKeepsSides(front, s);
    }
  }

  lemma ApplyKeepsSides(cfg: Config, b: Book, op: Op)
    requires NamesSide(op) && OrdersSided(b.pending) && TradesSided(b.trades)
    ensures OrdersSided(Apply(cfg, b, op).pending) && TradesSided(Apply(cfg, b, op).trades)
  {
    hide BarQuote;
    hide CloseQuote;
    hide StopNowQuote;
    hide Fill;
    hide Commission;
    match op {
      case CancelOrders(s) => WithoutKeepsSides(b.pending, s);
      case ProcessPending(barIndex) =>
        if b.quotes.Some? {
          SweepKeepsSides(cfg, b, b.pending, barIndex);
          hide Sweep;
        }
      case _ =>
    }
  }

  /** If every order handed to the broker names a side, then so does every trade. */
  lemma {:induction false} RunKeepsSides(cfg: Config, ops: seq<Op>)
    requires forall i :: 0 <= i < |ops| ==> NamesSide(ops[i])
    ensures var b := Run(cfg, Initial(cfg), ops); OrdersSided(b.pending) && TradesSided(b.trades)
  {
    if ops == [] {
    } else {
      RunKeepsSides(cfg, ops[..|ops| - 1]);
      ApplyKeepsSides(cfg, Run(cfg, Initial(cfg), ops[..|ops| - 1]), ops[|ops| - 1]);
    }
  }

  /** The whole-run PnL identity, in both accounting modes and with securities of both. After any
      sequence of operations, with every open position marked, the profit is the promised one plus
      twice the amount of every quote-accounted trade without a side. So the identity holds exactly
      for the runs whose quote-accounted trades all name a side, and always when every order handed
      to the broker does. */
  lemma RunPnl(cfg: Config, ops: seq<Op>)
    requires var b := Run(cfg, Initial(cfg), ops); b.quotes.Some? && AllMarked(cfg, b)
    ensures var b := Run(cfg, Initial(cfg), ops);
      var profit, promised := Equity(cfg, b) - cfg.initialCapital, Promised(cfg, b, Adjusted(ops));
      && profit == promised + Sum(b.trades, Quoted(cfg, Sideless()))
      && (profit == promised <==>
            forall i :: 0 <= i < |b.trades| ==> UsesBaseAsset(cfg, b.trades[i].security) || b.trades[i].side != Unset)
      && ((forall i :: 0 <= i < |ops| ==> NamesSide(ops[i])) ==> profit == promised)
  {
    var b := Run(cfg, Initial(cfg), ops);
    RunKeepsLedger(cfg, ops);
    RunCash(cfg, ops);
    if forall i :: 0 <= i < |ops| ==> NamesSide(ops[i]) {
      RunKeepsSides(cfg, ops);
    }
    hide Run;
    hide Sum;
    hide Promised;
    hide Equity;
    hide CashAgrees;
    StatePnl(cfg, b, Adjusted(ops));
    SidelessExcess(cfg, b.trades);
  }

  lemma SidelessAmount(cfg: Config, t: Trade)
    requires ValidTrade(t)
    ensures Quoted(cfg, Sideless())(t) >= 0.0
    ensures Quoted(cfg, Sideless())(t) == 0.0 <==> UsesBaseAsset(cfg, t.security) || t.side != Unset
  {
    NonZeroProduct(t.qty, t.fillPrice);
  }

  lemma SidelessExcess(cfg: Config, trades: seq<Trade>)
    requires forall i :: 0 <= i < |trades| ==> ValidTrade(trades[i])
    ensures Sum(trades, Quoted(cfg, Sideless())) == 0.0 <==>
      forall i :: 0 <= i < |trades| ==> UsesBaseAsset(cfg, trades[i].security) || trades[i].side != Unset
  {
    var excess := Quoted(cfg, Sideless());
    forall i | 0 <= i < |trades|
      ensures excess(trades[i]) >= 0.0
      ensures excess(trades[i]) == 0.0 <==> UsesBaseAsset(cfg, trades[i].security) || trades[i].side != Unset
    {
      SidelessAmount(cfg, trades[i]);
      hide *;
    }
    hide Quoted;
    hide UsesBaseAsset;
    SumOfNonNegative(trades, excess);
  }

  lemma {:induction false} QuotedIsAll(cfg: Config, trades: seq<Trade>, f: Trade -> real)
    requires QuoteTraded(cfg, trades)
    ensures Sum(trades, Quoted(cfg, f)) == Sum(trades, f)
    ensures BaseFlows(cfg, trades) == 0.0
  {
    if trades == [] {
    } else {
      QuotedIsAll(cfg, trades[..|trades| - 1], f);
    }
  }

  lemma {:induction false} UntradedIsFlat(trades: seq<Trade>, s: Security)
    requires forall i :: 0 <= i < |trades| ==> trades[i].security != s
    ensures Sum(trades, OnSecurity(s)) == 0.0
  {
    if trades == [] {
    } else {
      UntradedIsFlat(trades[..|trades| - 1], s);
    }
  }

  /** A position that is not in quote accounting is flat when nothing but quote is traded. */
  lemma BasePositionIsFlat(cfg: Config, b: Book, s: Security)
    requires PositionsAgree(b.positions, b.trades) && QuoteTraded(cfg, b.trades) && UsesBaseAsset(cfg, s)
    ensures PositionOf(b, s).qty == 0.0
  {
    hide NetCost;
    hide Sound;
    UntradedIsFlat(b.trades, s);
    hide Sum;
  }

  /** When every traded security is in quote accounting, whatever the account unit, the promised
      profit is: what each trade has made, less all commissions, plus the adjustments. */
  lemma PromisedInQuote(cfg: Config, b: Book, adjusted: real)
    requires PositionsAgree(b.positions, b.trades) && QuoteTraded(cfg, b.trades)
    ensures Promised(cfg, b, adjusted)
         == Sum(b.trades, Made(MarkIn(cfg, b))) - Sum(b.trades, FeeOf()) + adjusted
  {
    hide PositionsAgree;
    QuotedIsAll(cfg, b.trades, Made(MarkIn(cfg, b)));
    QuotedIsAll(cfg, b.trades, FeeOf());
    hide Sum;
    hide BaseFlows;
    hide MarkIn;
    forall s | s in b.positions
      ensures BaseWorths(cfg, b)[s] == 0.0
    {
      if UsesBaseAsset(cfg, s) {
        BasePositionIsFlat(cfg, b, s);
        FlatIsWorthless(cfg, b, s);
      }
      hide WorthIn;
    }
    TotalZero(BaseWorths(cfg, b));
  }

  // ---- Realized and unrealized PnL ----

  ghost function CostsAt(trades: seq<Trade>, keys: set<Security>): map<Security, real> {
    map s | s in keys :: -Sum(trades, CostOn(s))
  }

  lemma {:induction false} CostsOfPositions(trades: seq<Trade>, keys: set<Security>)
    requires forall i :: 0 <= i < |trades| ==> trades[i].security in keys
    ensures Total(CostsAt(trades, keys)) == -Sum(trades, SignedCosts())
  {
    if trades == [] {
      TotalZero(CostsAt(trades, keys));
    } else {
      var front, t := trades[..|trades| - 1], trades[|trades| - 1];
      var before := CostsAt(front, keys);
      CostsOfPositions(front, keys);
      hide Total;
      assert CostsAt(trades, keys) == before[t.security := before[t.security] - t.SignedCost()];
      TotalUpdate(before, t.security, before[t.security] - t.SignedCost());
    }
  }

  /** One position: what is realized and unrealized is its trades at the mark, less their cost. */
  lemma PositionPnl(cfg: Config, b: Book, s: Security)
    requires b.quotes.Some? && AllMarked(cfg, b) && s in b.positions
    requires UsesBaseAsset(cfg, s) ==> b.positions[s].qty == 0.0
    ensures b.positions[s].realized + UnrealizedIn(cfg, b, s)
         == b.positions[s].qty * MarkIn(cfg, b)(s) - NetCost(b.positions[s])
  {
    var p := b.positions[s];
    Distribute(p.qty, MarkIn(cfg, b)(s), p.avgEntry);
  }

  ghost function RealizedMap(b: Book): map<Security, real> {
    map s | s in b.positions :: b.positions[s].realized
  }

  /** The unrealized PnL of a marked position: in the base asset, all it is worth; otherwise what it is
      worth less the cost of its open quantity. */
  lemma UnrealizedIs(cfg: Config, b: Book, s: Security)
    requires b.quotes.Some? && Marked(cfg, PositionOf(b, s), b.quotes.value(s))
    ensures var p := PositionOf(b, s);
      UnrealizedIn(cfg, b, s) ==
        WorthIn(cfg, b, s) - if s.symbol == cfg.accountUnit && cfg.accountUnit !in ["", "USD"] then 0.0
                             else p.qty * p.avgEntry
  {
    var p := PositionOf(b, s);
    Distribute(p.qty, MarkPrice(cfg, p.qty, b.quotes.value(s)), p.avgEntry);
    hide MarkPrice;
  }

  ghost function UnrealizedMap(cfg: Config, b: Book): map<Security, real> {
    map s | s in b.positions :: UnrealizedIn(cfg, b, s)
  }

  lemma RealizedPlusUnrealized(cfg: Config, b: Book)
    requires PositionsAgree(b.positions, b.trades) && QuoteTraded(cfg, b.trades) && b.quotes.Some? && AllMarked(cfg, b)
    ensures RealizedPnL(b) + UnrealizedPnL(cfg, b) == Sum(b.trades, Made(MarkIn(cfg, b)))
  {
    var m := MarkIn(cfg, b);
    var keys := b.positions.Keys;
    hide Total;
    hide Sum;
    hide NetCost;
    hide Sound;
    hide UnrealizedIn;
    forall s | s in keys
      ensures RealizedMap(b)[s] + UnrealizedMap(cfg, b)[s]
        == ValuesAt(b.trades, keys, m)[s] + CostsAt(b.trades, keys)[s]
    {
      if UsesBaseAsset(cfg, s) {
        BasePositionIsFlat(cfg, b, s);
      }
      PositionPnl(cfg, b, s);
      hide MarkIn;
      assert Sum(b.trades, OnSecurity(s)) == GetOr(b.positions, s, FLAT).qty;
      assert Sum(b.trades, CostOn(s)) == NetCost(GetOr(b.positions, s, FLAT));
    }
    var both := map s | s in keys :: RealizedMap(b)[s] + UnrealizedMap(cfg, b)[s];
    TotalAdd(RealizedMap(b), UnrealizedMap(cfg, b), both);
    TotalAdd(ValuesAt(b.trades, keys, m), CostsAt(b.trades, keys), both);
    assert RealizedPnL(b) == Total(RealizedMap(b)) && UnrealizedPnL(cfg, b) == Total(UnrealizedMap(cfg, b));
    PositionsAtMarks(b.trades, keys, m);
    CostsOfPositions(b.trades, keys);
    MadeInQuote(b.trades, m);
  }

  lemma MadeInQuote(trades: seq<Trade>, m: Security -> real)
    ensures Sum(trades, Made(m)) == Sum(trades, AtMark(m)) - Sum(trades, SignedCosts())
  {
    var marked, costs, made := AtMark(m), SignedCosts(), Made(m);
    forall i | 0 <= i < |trades|
      ensures made(trades[i]) == marked(trades[i]) + Minus(costs)(trades[i])
    {
      Distribute(trades[i].Signed(), m(trades[i].security), trades[i].fillPrice);
    }
    hide *;
    SumPlus(trades, marked, Minus(costs), made);
    SumMinus(trades, costs);
  }

  /** Over every run that trades securities in quote accounting only, with every open position
      marked: realized plus unrealized PnL of the position book is what the trades have made, and so
      profit = realized + unrealized - commissions + adjustments, up to the trades without a side. */
  lemma RunRealizedPlusUnrealized(cfg: Config, ops: seq<Op>)
    requires var b := Run(cfg, Initial(cfg), ops);
      b.quotes.Some? && AllMarked(cfg, b) && QuoteTraded(cfg, b.trades)
    ensures var b := Run(cfg, Initial(cfg), ops);
      && RealizedPnL(b) + UnrealizedPnL(cfg, b) == Sum(b.trades, Made(MarkIn(cfg, b)))
      && Equity(cfg, b) - cfg.initialCapital
         == RealizedPnL(b) + UnrealizedPnL(cfg, b) - Sum(b.trades, FeeOf()) + Adjusted(ops)
            + Sum(b.trades, Quoted(cfg, Sideless()))
  {
    var b := Run(cfg, Initial(cfg), ops);
    RunKeepsLedger(cfg, ops);
    RunPnl(cfg, ops);
    hide Run;
    RealizedPlusUnrealized(cfg, b);
    PromisedInQuote(cfg, b, Adjusted(ops));
    hide *;
  }

  // ---- Entries ----

  ghost function Entries(b: Book, s: Security): map<EntryKey, real> {
    map k | k in b.entries && k.security == s :: b.entries[k].qty
  }

  ghost function EntrySums(trades: seq<Trade>, keys: set<EntryKey>): map<EntryKey, real> {
    map k | k in keys :: Sum(trades, OnEntry(k))
  }

  predicate TaggedOn(t: Trade, s: Security) {
    t.security == s && t.entryID != ""
  }

  /** One more trade moves the entry it is tagged with. */
  lemma EntrySumsStep(front: seq<Trade>, t: Trade, s: Security, keys: set<EntryKey>)
    requires forall k :: k in keys ==> k.security == s && k.entryID != ""
    requires TaggedOn(t, s) ==> EntryKey(s, t.entryID) in keys
    ensures Total(EntrySums(front + [t], keys))
         == Total(EntrySums(front, keys)) + OnSecurity(s)(t) - Untagged(s)(t)
  {
    hide Sum;
    hide Total;
    var before, after := EntrySums(front, keys), EntrySums(front + [t], keys);
    forall k | k in keys
      ensures after[k] == before[k] + OnEntry(k)(t)
    {
      SumAppend(front, t, OnEntry(k));
    }
    if TaggedOn(t, s) {
      var key := EntryKey(s, t.entryID);
      assert after == before[key := before[key] + t.Signed()];
      TotalUpdate(before, key, before[key] + t.Signed());
    } else {
      assert after == before;
    }
  }

  lemma {:induction false} SplitByEntry(trades: seq<Trade>, s: Security, keys: set<EntryKey>)
    requires forall k :: k in keys ==> k.security == s && k.entryID != ""
    requires forall i :: 0 <= i < |trades| && TaggedOn(trades[i], s) ==> EntryKey(s, trades[i].entryID) in keys
    ensures Sum(trades, OnSecurity(s)) == Total(EntrySums(trades, keys)) + Sum(trades, Untagged(s))
  {
    if trades == [] {
      TotalZero(EntrySums(trades, keys));
    } else {
      var front, t := trades[..|trades| - 1], trades[|trades| - 1];
      assert TaggedOn(trades[|trades| - 1], s) ==> EntryKey(s, t.entryID) in keys;
      SplitByEntry(front, s, keys);
      assert trades == front + [t];
      hide Sum;
      hide Total;
      hide EntrySums;
      hide TaggedOn;
      EntrySumsStep(front, t, s, keys);
      SumAppend(front, t, OnSecurity(s));
      SumAppend(front, t, Untagged(s));
    }
  }

  function TaggedKeys(trades: seq<Trade>, s: Security): set<EntryKey> {
    set i | 0 <= i < |trades| && TaggedOn(trades[i], s) :: EntryKey(s, trades[i].entryID)
  }

  lemma PositionOfEntries(b: Book, s: Security)
    requires Ledger(b, b.trades)
    ensures PositionOf(b, s).qty == Total(Entries(b, s)) + Sum(b.trades, Untagged(s))
  {
    hide Total;
    hide Sum;
    hide Sound;
    hide NetCost;
    var keys := TaggedKeys(b.trades, s) + Entries(b, s).Keys;
    SplitByEntry(b.trades, s, keys);
    forall k | k in keys
      ensures EntrySums(b.trades, keys)[k] == GetOr(Entries(b, s), k, 0.0)
    {
      assert k.security == s && k.entryID != "";
      assert GetOr(b.entries, k, FLAT).qty == Sum(b.trades, OnEntry(k));
    }
    TotalOfNonZero(Entries(b, s), EntrySums(b.trades, keys));
  }

  /** Over every run: a position is the sum of its stored entries and of its trades that belong to
      no entry. */
  lemma EntriesMakePosition(cfg: Config, ops: seq<Op>, s: Security)
    ensures var b := Run(cfg, Initial(cfg), ops);
      PositionOf(b, s).qty == Total(Entries(b, s)) + Sum(b.trades, Untagged(s))
  {
    RunKeepsLedger(cfg, ops);
    PositionOfEntries(Run(cfg, Initial(cfg), ops), s);
  }
}
