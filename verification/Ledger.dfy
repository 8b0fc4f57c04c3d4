/**
 What the broker keeps over whole runs: its positions and entries are the signed sums of its
 trades, and a sweep of its queue loses and duplicates no order. A run is any sequence of the
 broker's operations, with prices changing in between.
 */
module Ledgers {
  import opened Basics
  import opened Market
  import opened Positions
  import opened Sums
  import opened Books

  // The terms that are summed over the trade list.

  function OnSecurity(s: Security): Trade -> real {
    (t: Trade) => if t.security == s then t.Signed() else 0.0
  }

  function OnEntry(k: EntryKey): Trade -> real {
    (t: Trade) => if t.security == k.security && t.entryID == k.entryID then t.Signed() else 0.0
  }

  function Untagged(s: Security): Trade -> real {
    (t: Trade) => if t.security == s && t.entryID == "" then t.Signed() else 0.0
  }

  function CostOn(s: Security): Trade -> real {
    (t: Trade) => if t.security == s then t.SignedCost() else 0.0
  }

  function NetCash(): Trade -> real {
    (t: Trade) => t.NetAmount()
  }

  /** Positions and realized PnL are determined by the trades. */
  ghost predicate PositionsAgree(positions: map<Security, Position>, trades: seq<Trade>) {
    && (forall s :: s in positions ==> Sound(positions[s]))
    && (forall s :: GetOr(positions, s, FLAT).qty == Sum(trades, OnSecurity(s)))
    && (forall s :: NetCost(GetOr(positions, s, FLAT)) == Sum(trades, CostOn(s)))
    && (forall i :: 0 <= i < |trades| ==> trades[i].security in positions)
  }

  /** Every entry is the signed sum of its tagged trades, and no stored entry is flat. */
  ghost predicate EntriesAgree(entries: map<EntryKey, Position>, trades: seq<Trade>) {
    && (forall k :: k in entries ==> Sound(entries[k]) && entries[k].qty != 0.0 && k.entryID != "")
    && (forall k: EntryKey :: k.entryID != "" ==> GetOr(entries, k, FLAT).qty == Sum(trades, OnEntry(k)))
  }

  /** Trade ids count from 1, and every trade has a positive quantity and price. */
  predicate TradesInOrder(nextTID: int, trades: seq<Trade>) {
    && nextTID == |trades| + 1
    && (forall i :: 0 <= i < |trades| ==> trades[i].id == i + 1 && ValidTrade(trades[i]))
  }

  ghost predicate Ledger(b: Book, trades: seq<Trade>) {
    PositionsAgree(b.positions, trades) && EntriesAgree(b.entries, trades) && TradesInOrder(b.nextTID, trades)
  }

  lemma PositionsStep(b: Book, trades: seq<Trade>, t: Trade)
    requires PositionsAgree(b.positions, trades) && ValidTrade(t)
    ensures PositionsAgree(ApplyTrade(b, t).positions, trades + [t])
  {
    hide UpdatePosition;
    hide NetCost;
    hide Sound;
    hide Sum;
    FlatIsSound();
    FillConserves(PositionOf(b, t.security), t);
    forall s
      ensures PositionOf(ApplyTrade(b, t), s).qty == Sum(trades + [t], OnSecurity(s))
      ensures NetCost(PositionOf(ApplyTrade(b, t), s)) == Sum(trades + [t], CostOn(s))
    {
      SumAppend(trades, t, OnSecurity(s));
      SumAppend(trades, t, CostOn(s));
    }
  }

  lemma EntriesStep(b: Book, trades: seq<Trade>, t: Trade)
    requires EntriesAgree(b.entries, trades) && ValidTrade(t)
    ensures EntriesAgree(ApplyTrade(b, t).entries, trades + [t])
  {
    hide UpdatePosition;
    hide NetCost;
    hide Sound;
    hide Sum;
    FlatIsSound();
    if t.entryID != "" {
      FillConserves(EntryOf(b, EntryKey(t.security, t.entryID)), t);
    }
    forall k: EntryKey | k.entryID != ""
      ensures EntryOf(ApplyTrade(b, t), k).qty == Sum(trades + [t], OnEntry(k))
    {
      SumAppend(trades, t, OnEntry(k));
    }
  }

  lemma FillStep(cfg: Config, b: Book, trades: seq<Trade>, o: Order, q: Quote, barIndex: int)
    requires Ledger(b, trades) && q.Quote? && ValidQuantity(q.qty) && ValidPrice(q.price)
    ensures Ledger(Fill(cfg, b, o, q, barIndex), trades + [TradeOf(cfg, b, o, q, barIndex)])
  {
    hide UpdatePosition;
    hide CashDelta;
    hide Commission;
    hide PositionsAgree;
    hide EntriesAgree;
    var t := TradeOf(cfg, b, o, q, barIndex);
    PositionsStep(b, trades, t);
    EntriesStep(b, trades, t);
  }

  // ---- The queue ----

  /** Ids strictly increase and are all below the next one; at most one reduce-only order waits
      for each entry. */
  predicate Queued(orders: seq<Order>, nextOID: int) {
    && nextOID >= 1
    && (forall i :: 0 <= i < |orders| ==> 1 <= orders[i].id < nextOID)
    && (forall i, j :: 0 <= i < j < |orders| ==> orders[i].id < orders[j].id)
    && (forall i, j :: 0 <= i < j < |orders| && orders[i].reduceOnly && orders[j].reduceOnly
          ==> KeyOf(orders[i]) != KeyOf(orders[j]))
  }

  /** The same order at a later time: only a TWAP order changes, and only in its sizes. */
  predicate SameOrder(later: Order, o: Order) {
    && later == o.(qty := later.qty, notional := later.notional, twapBars := later.twapBars)
    && (o.kind != TwapMarket ==> later == o)
  }

  function OrderIds(orders: seq<Order>): set<int> {
    set i | 0 <= i < |orders| :: orders[i].id
  }

  function FilledIds(fills: seq<Trade>): set<int> {
    set i | 0 <= i < |fills| :: fills[i].orderID
  }

  predicate FillsInOrder(fills: seq<Trade>) {
    forall i, j :: 0 <= i < j < |fills| ==> fills[i].orderID < fills[j].orderID
  }

  /** Every waiting order is one of the given orders. */
  ghost predicate Descend(remaining: seq<Order>, orders: seq<Order>) {
    forall r :: r in remaining ==> exists o :: o in orders && SameOrder(r, o)
  }

  predicate Exclusive(orders: seq<Order>, kept: set<int>, filled: set<int>) {
    forall o :: o in orders && o.kind != TwapMarket ==> !(o.id in kept && o.id in filled)
  }

  /** Every order of the queue is kept or filled (a non-TWAP order exactly one of the two), no
      other order appears, and no order fills twice. */
  ghost predicate Accounted(orders: seq<Order>, remaining: seq<Order>, fills: seq<Trade>) {
    && OrderIds(remaining) + FilledIds(fills) == OrderIds(orders)
    && Exclusive(orders, OrderIds(remaining), FilledIds(fills))
    && Descend(remaining, orders)
    && FillsInOrder(fills)
  }

  /** The turn of one order, as far as the queue is concerned. */
  lemma TurnOfOrder(cfg: Config, b: Book, o: Order, barIndex: int)
    requires b.quotes.Some? && o.id != 0
    ensures var out := ExecuteOnBar(cfg, b, o, barIndex);
      && out.book.nextOID == b.nextOID
      && (out.trade.Some? ==> out.trade.value.orderID == o.id)
      && (forall k :: k in KeptOrder(o, out) ==> SameOrder(k, o))
      && |KeptOrder(o, out)| <= 1
      && (out.trade.None? ==> KeptOrder(o, out) == [o])
      && (out.trade.Some? && o.kind != TwapMarket ==> KeptOrder(o, out) == [])
  {
    hide BarQuote;
    hide CashDelta;
    hide UpdatePosition;
    hide Commission;
  }

  lemma IdsAppend(orders: seq<Order>, last: Order)
    ensures OrderIds(orders + [last]) == OrderIds(orders) + {last.id}
  {
    forall id | id in OrderIds(orders) + {last.id}
      ensures id in OrderIds(orders + [last])
    {
      if id == last.id {
        assert (orders + [last])[|orders|].id == id;
      } else {
        var i :| 0 <= i < |orders| && orders[i].id == id;
        assert (orders + [last])[i].id == id;
      }
    }
  }

  lemma FilledIdsAppend(fills: seq<Trade>, last: Trade)
    ensures FilledIds(fills + [last]) == FilledIds(fills) + {last.orderID}
  {
    forall id | id in FilledIds(fills) + {last.orderID}
      ensures id in FilledIds(fills + [last])
    {
      if id == last.orderID {
        assert (fills + [last])[|fills|].orderID == id;
      } else {
        var i :| 0 <= i < |fills| && fills[i].orderID == id;
        assert (fills + [last])[i].orderID == id;
      }
    }
  }

  lemma DescendStep(orders: seq<Order>, remaining: seq<Order>, o: Order, kept: seq<Order>)
    requires Descend(remaining, orders)
    requires |kept| <= 1 && forall k :: k in kept ==> SameOrder(k, o)
    ensures Descend(remaining + kept, orders + [o])
  {
    forall r | r in remaining + kept
      ensures exists x :: x in orders + [o] && SameOrder(r, x)
    {
      if r in remaining {
        var x :| x in orders && SameOrder(r, x);
        assert x in orders + [o];
      } else {
        assert SameOrder(r, o) && o in orders + [o];
      }
    }
  }

  /** The order may stand behind the others. */
  predicate ComesAfter(orders: seq<Order>, x: Order) {
    forall r :: r in orders ==> r.id < x.id && (r.reduceOnly && x.reduceOnly ==> KeyOf(r) != KeyOf(x))
  }

  lemma QueuedAppend(orders: seq<Order>, x: Order, nextOID: int)
    requires Queued(orders, nextOID) && ComesAfter(orders, x) && 1 <= x.id < nextOID
    ensures Queued(orders + [x], nextOID)
  {
    hide KeyOf;
    assert forall i :: 0 <= i < |orders| ==> orders[i] in orders;
  }

  lemma LastComesAfter(orders: seq<Order>, o: Order, nextOID: int)
    requires Queued(orders + [o], nextOID)
    ensures ComesAfter(orders, o) && 1 <= o.id < nextOID
  {
    hide KeyOf;
    var all := orders + [o];
    assert all[|orders|] == o;
    forall r | r in orders
      ensures r.id < o.id && (r.reduceOnly && o.reduceOnly ==> KeyOf(r) != KeyOf(o))
    {
      var j :| 0 <= j < |orders| && orders[j] == r;
      assert all[j] == r;
    }
  }

  lemma SameOrderKeeps(later: Order, o: Order)
    requires SameOrder(later, o)
    ensures later.id == o.id && later.reduceOnly == o.reduceOnly && KeyOf(later) == KeyOf(o)
  {
  }

  lemma RemainingComesAfter(orders: seq<Order>, remaining: seq<Order>, o: Order, later: Order)
    requires ComesAfter(orders, o) && Descend(remaining, orders) && SameOrder(later, o)
    ensures ComesAfter(remaining, later)
  {
    hide SameOrder;
    hide KeyOf;
    SameOrderKeeps(later, o);
    forall r | r in remaining
      ensures r.id < later.id && (r.reduceOnly && later.reduceOnly ==> KeyOf(r) != KeyOf(later))
    {
      var x :| x in orders && SameOrder(r, x);
      SameOrderKeeps(r, x);
    }
  }

  lemma QueuedStep(orders: seq<Order>, remaining: seq<Order>, o: Order, kept: seq<Order>, nextOID: int)
    requires Queued(orders + [o], nextOID) && Queued(remaining, nextOID) && Descend(remaining, orders)
    requires |kept| <= 1 && forall k :: k in kept ==> SameOrder(k, o)
    ensures Queued(remaining + kept, nextOID)
  {
    hide *;
    if kept == [] {
      assert remaining + kept == remaining;
    } else {
      assert kept == [kept[0]] && kept[0] in kept;
      LastComesAfter(orders, o, nextOID);
      RemainingComesAfter(orders, remaining, o, kept[0]);
      SameOrderKeeps(kept[0], o);
      QueuedAppend(remaining, kept[0], nextOID);
    }
  }

  lemma FillsStep(orders: seq<Order>, fills: seq<Trade>, o: Order, t: Trade)
    requires FilledIds(fills) <= OrderIds(orders) && t.orderID == o.id && FillsInOrder(fills)
    requires forall i :: 0 <= i < |orders| ==> orders[i].id < o.id
    ensures FillsInOrder(fills + [t])
  {
    forall i | 0 <= i < |fills|
      ensures fills[i].orderID < o.id
    {
      assert fills[i].orderID in FilledIds(fills);
    }
  }

  lemma ExclusiveAppend(orders: seq<Order>, kept: set<int>, filled: set<int>, o: Order, kept': set<int>,
      filled': set<int>)
    requires Exclusive(orders, kept, filled) && forall i :: 0 <= i < |orders| ==> orders[i].id < o.id
    requires kept' <= kept + {o.id} && filled' <= filled + {o.id}
    requires o.kind != TwapMarket ==> !(o.id in kept' && o.id in filled')
    ensures Exclusive(orders + [o], kept', filled')
  {
    forall x | x in orders + [o] && x.kind != TwapMarket
      ensures !(x.id in kept' && x.id in filled')
    {
      assert x in orders ==> x.id != o.id;
    }
  }

  /** One more order accounted for. */
  lemma AccountedStep(orders: seq<Order>, remaining: seq<Order>, fills: seq<Trade>, o: Order, kept: seq<Order>,
      filled: seq<Trade>)
    requires Accounted(orders, remaining, fills)
    requires forall i :: 0 <= i < |orders| ==> orders[i].id < o.id
    requires |kept| <= 1 && forall k :: k in kept ==> SameOrder(k, o)
    requires filled == [] || (|filled| == 1 && filled[0].orderID == o.id)
    requires filled == [] ==> kept == [o]
    requires filled != [] && o.kind != TwapMarket ==> kept == []
    ensures Accounted(orders + [o], remaining + kept, fills + filled)
  {
    DescendStep(orders, remaining, o, kept);
    IdsAppend(orders, o);
    assert o.id !in OrderIds(orders);
    if kept == [] {
      assert remaining + kept == remaining;
    } else {
      assert kept == [kept[0]] && SameOrder(kept[0], o) && kept[0].id == o.id;
      IdsAppend(remaining, kept[0]);
    }
    if filled == [] {
      assert fills + filled == fills;
    } else {
      assert filled == [filled[0]];
      FilledIdsAppend(fills, filled[0]);
      FillsStep(orders, fills, o, filled[0]);
    }
    var keptIds, filledIds := OrderIds(remaining + kept), FilledIds(fills + filled);
    assert OrderIds(remaining) <= keptIds <= OrderIds(remaining) + {o.id};
    assert FilledIds(fills) <= filledIds <= FilledIds(fills) + {o.id};
    assert o.kind != TwapMarket ==> !(o.id in keptIds && o.id in filledIds);
    hide *;
    ExclusiveAppend(orders, OrderIds(remaining), FilledIds(fills), o, keptIds, filledIds);
  }

  /** A sweep over one order more. */
  lemma SweepAppend(cfg: Config, b: Book, front: seq<Order>, o: Order, barIndex: int)
    requires b.quotes.Some?
    ensures var s := Sweep(cfg, b, front, barIndex);
      var out := ExecuteOnBar(cfg, s.book, o, barIndex);
      Sweep(cfg, b, front + [o], barIndex)
        == Swept(out.book, s.fills + FillsOf(out), s.remaining + KeptOrder(o, out))
  {
    hide ExecuteOnBar;
    hide KeptOrder;
    assert (front + [o])[..|front|] == front;
  }

  lemma EmptySweep(cfg: Config, b: Book, barIndex: int)
    requires b.quotes.Some?
    ensures Sweep(cfg, b, [], barIndex) == Swept(b, [], [])
  {
  }

  lemma NothingAccounted()
    ensures Accounted([], [], [])
  {
  }

  lemma QueuedFront(front: seq<Order>, o: Order, nextOID: int)
    requires Queued(front + [o], nextOID)
    ensures Queued(front, nextOID) && 1 <= o.id
    ensures forall i :: 0 <= i < |front| ==> front[i].id < o.id
  {
    var all := front + [o];
    assert all[|front|] == o && forall i :: 0 <= i < |front| ==> front[i] == all[i];
  }

  lemma AccountedDescend(orders: seq<Order>, remaining: seq<Order>, fills: seq<Trade>)
    requires Accounted(orders, remaining, fills)
    ensures Descend(remaining, orders)
  {
  }

  lemma FillsOfTurn(out: Outcome)
    ensures FillsOf(out) == if out.trade.Some? then [out.trade.value] else []
  {
  }

  /** The whole loop of ProcessPending, over any queue. */
  lemma {:induction false} SweepAccounts(cfg: Config, b: Book, orders: seq<Order>, barIndex: int)
    requires b.quotes.Some? && Queued(orders, b.nextOID)
    ensures var s := Sweep(cfg, b, orders, barIndex);
      && s.book.nextOID == b.nextOID
      && Queued(s.remaining, b.nextOID)
      && Accounted(orders, s.remaining, s.fills)
  {
    hide *;
    if orders == [] {
      EmptySweep(cfg, b, barIndex);
      NothingAccounted();
    } else {
      var front, o := orders[..|orders| - 1], orders[|orders| - 1];
      assert orders == front + [o];
      QueuedFront(front, o, b.nextOID);
      SweepAccounts(cfg, b, front, barIndex);
      SweepAppend(cfg, b, front, o, barIndex);
      var s := Sweep(cfg, b, front, barIndex);
      TurnOfOrder(cfg, s.book, o, barIndex);
      var out := ExecuteOnBar(cfg, s.book, o, barIndex);
      FillsOfTurn(out);
      AccountedDescend(front, s.remaining, s.fills);
      QueuedStep(front, s.remaining, o, KeptOrder(o, out), b.nextOID);
      AccountedStep(front, s.remaining, s.fills, o, KeptOrder(o, out), FillsOf(out));
    }
  }

  lemma QuoteIsValid(cfg: Config, o: Order, bp: BarPrices, extra: real)
    ensures BarQuote(cfg, o, bp).Quote? ==>
      ValidQuantity(BarQuote(cfg, o, bp).qty) && ValidPrice(BarQuote(cfg, o, bp).price)
    ensures CloseQuote(cfg, o, bp).Quote? ==>
      ValidQuantity(CloseQuote(cfg, o, bp).qty) && ValidPrice(CloseQuote(cfg, o, bp).price)
    ensures StopNowQuote(cfg, o, bp, extra).Quote? ==>
      ValidQuantity(StopNowQuote(cfg, o, bp, extra).qty) && ValidPrice(StopNowQuote(cfg, o, bp, extra).price)
  {
  }

  lemma {:induction false} SweepKeepsLedger(cfg: Config, b: Book, trades: seq<Trade>, orders: seq<Order>, barIndex: int)
    requires b.quotes.Some? && Ledger(b, trades)
    ensures var s := Sweep(cfg, b, orders, barIndex); Ledger(s.book, trades + s.fills)
  {
    hide ExecuteOnBar;
    hide Ledger;
    if orders == [] {
      assert trades + [] == trades;
    } else {
      var s := Sweep(cfg, b, orders[..|orders| - 1], barIndex);
      SweepKeepsLedger(cfg, b, trades, orders[..|orders| - 1], barIndex);
      var o := orders[|orders| - 1];
      TurnKeepsLedger(cfg, s.book, trades + s.fills, o, barIndex);
      var out := ExecuteOnBar(cfg, s.book, o, barIndex);
      assert trades + (s.fills + FillsOf(out)) == (trades + s.fills) + FillsOf(out);
    }
  }

  lemma TurnKeepsLedger(cfg: Config, b: Book, trades: seq<Trade>, o: Order, barIndex: int)
    requires b.quotes.Some? && Ledger(b, trades)
    ensures var out := ExecuteOnBar(cfg, b, o, barIndex); Ledger(out.book, trades + FillsOf(out))
  {
    hide BarQuote;
    hide Fill;
    hide TradeOf;
    hide Ledger;
    var out := ExecuteOnBar(cfg, b, o, barIndex);
    if out.trade.Some? {
      var sized := Sized(b.entries, o).value;
      var bp := b.quotes.value(o.security);
      QuoteIsValid(cfg, sized, bp, 0.0);
      FillStep(cfg, b, trades, sized, BarQuote(cfg, sized, bp), barIndex);
      assert FillsOf(out) == [TradeOf(cfg, b, sized, BarQuote(cfg, sized, bp), barIndex)];
    } else {
      assert trades + [] == trades;
    }
  }

  // ---- Runs ----

  datatype Op =
    | SetPrices(f: Quotes)
    | SubmitOrder(order: Order)
    | CancelOrders(security: Security)
    | ProcessPending(barIndex: int)
    | ExecuteOrderNow(order: Order, barIndex: int)
    | ExecuteOrderAtCloseNow(order: Order, barIndex: int)
    | ExecuteStopOrderNow(order: Order, barIndex: int, extra: real)
    | AdjustCash(amount: real)

  function Apply(cfg: Config, b: Book, op: Op): Book {
    match op
    case SetPrices(f) => b.(quotes := Some(f))
    case SubmitOrder(o) => Submit(b, o).0
    case CancelOrders(s) => Cancel(b, s)
    case ProcessPending(barIndex) => Process(cfg, b, barIndex).0
    case ExecuteOrderNow(o, barIndex) => ExecuteNow(cfg, b, o, barIndex).0
    case ExecuteOrderAtCloseNow(o, barIndex) => ExecuteAtClose(cfg, b, o, barIndex).0
    case ExecuteStopOrderNow(o, barIndex, extra) => ExecuteStop(cfg, b, o, barIndex, extra).0
    case AdjustCash(amount) => Adjust(b, amount)
  }

  function Run(cfg: Config, b: Book, ops: seq<Op>): Book {
    if ops == [] then b else Apply(cfg, Run(cfg, b, ops[..|ops| - 1]), ops[|ops| - 1])
  }

  /** The four paths that fill an order immediately or in a sweep, seen from outside: nothing
      happened, or one valid fill was recorded. */
  lemma RecordedKeepsLedger(cfg: Config, b: Book, o: Order, q: Quote, barIndex: int)
    requires Ledger(b, b.trades)
    requires q.Quote? ==> ValidQuantity(q.qty) && ValidPrice(q.price)
    ensures var b' := Recorded(cfg, b, o, q, barIndex).0; Ledger(b', b'.trades)
  {
    if q.Quote? {
      FillStep(cfg, b, b.trades, o, q, barIndex);
      hide Fill;
      hide TradeOf;
      hide PositionsAgree;
      hide EntriesAgree;
      hide TradesInOrder;
    }
  }

  lemma ApplyKeepsLedger(cfg: Config, b: Book, op: Op)
    requires Ledger(b, b.trades)
    ensures var b' := Apply(cfg, b, op); Ledger(b', b'.trades)
  {
    hide Recorded;
    hide BarQuote;
    hide CloseQuote;
    hide StopNowQuote;
    hide PositionsAgree;
    hide EntriesAgree;
    hide TradesInOrder;
    match op {
      case ProcessPending(barIndex) =>
        if b.quotes.Some? {
          SweepKeepsLedger(cfg, b, b.trades, b.pending, barIndex);
          hide Sweep;
        }
      case ExecuteOrderNow(o, barIndex) =>
        if b.quotes.Some? && Sized(b.entries, o).Some? {
          var sized := Sized(b.entries, o).value;
          QuoteIsValid(cfg, sized, b.quotes.value(o.security), 0.0);
          RecordedKeepsLedger(cfg, b, sized, BarQuote(cfg, sized, b.quotes.value(o.security)), barIndex);
        }
      case ExecuteOrderAtCloseNow(o, barIndex) =>
        if b.quotes.Some? && Sized(b.entries, o).Some? {
          var sized := Sized(b.entries, o).value;
          QuoteIsValid(cfg, sized, b.quotes.value(o.security), 0.0);
          RecordedKeepsLedger(cfg, b, sized, CloseQuote(cfg, sized, b.quotes.value(o.security)), barIndex);
        }
      case ExecuteStopOrderNow(o, barIndex, extra) =>
        if b.quotes.Some? {
          QuoteIsValid(cfg, o, b.quotes.value(o.security), extra);
          RecordedKeepsLedger(cfg, b, o, StopNowQuote(cfg, o, b.quotes.value(o.security), extra), barIndex);
        }
      case _ =>
    }
  }

  lemma EmptyLedger(cfg: Config)
    ensures Ledger(Initial(cfg), [])
  {
    FlatIsSound();
    assert NetCost(FLAT) == 0.0;
  }

  /** Over every run: positions, realized PnL and entries are what the trades make them, no stored
      entry is flat, and trades are numbered 1, 2, 3, ... */
  lemma {:induction false} RunKeepsLedger(cfg: Config, ops: seq<Op>)
    ensures var b := Run(cfg, Initial(cfg), ops); Ledger(b, b.trades)
  {
    if ops == [] {
      EmptyLedger(cfg);
    } else {
      hide Ledger;
      hide Apply;
      RunKeepsLedger(cfg, ops[..|ops| - 1]);
      ApplyKeepsLedger(cfg, Run(cfg, Initial(cfg), ops[..|ops| - 1]), ops[|ops| - 1]);
    }
  }
}
