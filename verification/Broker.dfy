/**
 The broker as the source has it: an object whose methods update its fields
 (internal/backtest/broker.go). Every method is proved against the function of Books.dfy that
 gives its whole new state.
 */
module Brokers {
  import opened Basics
  import opened Market
  import opened Positions
  import opened Sums
  import opened Books

  class Broker {
    const config: Config
    var cash: real
    var positions: map<Security, Position>
    var entries: map<EntryKey, Position>
    var pending: seq<Order>
    var trades: seq<Trade>
    var nextOID: int
    var nextTID: int
    var quotes: Option<Quotes>

    ghost function State(): Book
      reads this
    {
      Book(cash, positions, entries, pending, trades, nextOID, nextTID, quotes)
    }

    constructor (config: Config)
      ensures this.config == config && State() == Initial(config)
    {
      this.config := config;
      cash := config.initialCapital;
      positions, entries := map[], map[];
      pending, trades := [], [];
      nextOID, nextTID := 1, 1;
      quotes := None;
    }

    method SetPriceFunc(f: Quotes)
      modifies this
      ensures State() == old(State()).(quotes := Some(f))
    {
      quotes := Some(f);
    }

    method SubmitOrder(order: Order) returns (id: int)
      modifies this
      ensures (State(), id) == Submit(old(State()), order)
    {
      var o := order;
      if o.reduceOnly {
        match ReducibleQuantity(entries, o) {
          case None => return 0;
          case Some(qty) => o := o.(qty := qty, notional := 0.0);
        }
        for i := 0 to |pending|
          invariant PendingReduceOnly(pending, order) == PendingReduceOnly(pending[i..], order)
        {
          if pending[i].reduceOnly && pending[i].security == o.security && pending[i].entryID == o.entryID {
            return pending[i].id;
          }
        }
      }
      o := o.(id := nextOID);
      nextOID := nextOID + 1;
      pending := pending + [o];
      return o.id;
    }

    method CancelOrders(s: Security)
      modifies this
      ensures State() == Cancel(old(State()), s)
    {
      var filtered := [];
      for i := 0 to |pending|
        invariant filtered == Without(pending[..i], s)
      {
        assert pending[..i + 1][..i] == pending[..i];
        if pending[i].security != s {
          filtered := filtered + [pending[i]];
        }
      }
      assert pending[..|pending|] == pending;
      pending := filtered;
    }

    method ApplyTrade(t: Trade)
      modifies this
      ensures State() == Books.ApplyTrade(old(State()), t)
    {
      positions := positions[t.security := UpdatePosition(GetOr(positions, t.security, FLAT), t)];
      if t.entryID == "" {
        return;
      }
      var key := EntryKey(t.security, t.entryID);
      var entry := UpdatePosition(GetOr(entries, key, FLAT), t);
      if entry.qty == 0.0 {
        entries := entries - {key};
      } else {
        entries := entries[key := entry];
      }
    }

    /** The tail that the source repeats in each of its execution paths. */
    method Execute(order: Order, q: Quote, barIndex: int) returns (t: Trade)
      requires q.Quote?
      modifies this
      ensures State() == Fill(config, old(State()), order, q, barIndex)
      ensures t == TradeOf(config, old(State()), order, q, barIndex)
    {
      hide UpdatePosition;
      hide CashDelta;
      hide Commission;
      var o := order;
      if o.id == 0 {
        o := o.(id := nextOID);
        nextOID := nextOID + 1;
      }
      t := Trade(nextTID, o.id, o.entryID, o.reduceOnly, o.security, o.side, q.qty, q.price,
                 Commission(config, q.qty, q.price), Abs(q.price - q.reference), barIndex);
      nextTID := nextTID + 1;
      cash := cash + CashDelta(config, GetOr(positions, t.security, FLAT), t);
      ApplyTrade(t);
    }

    method ExecuteOrderOnBar(order: Order, barIndex: int) returns (trade: Option<Trade>, usable: bool)
      requires quotes.Some?
      modifies this
      ensures Outcome(State(), trade, usable) == ExecuteOnBar(config, old(State()), order, barIndex)
    {
      hide Fill;
      hide TradeOf;
      hide BarQuote;
      var o := order;
      if o.reduceOnly {
        match ReducibleQuantity(entries, o) {
          case None => return None, true;
          case Some(qty) => o := o.(qty := qty, notional := 0.0);
        }
      }
      var q := BarQuote(config, o, quotes.value(o.security));
      match q {
        case NoQuote(ok) => return None, ok;
        case Quote(_, _, _) =>
          var t := Execute(o, q, barIndex);
          return Some(t), true;
      }
    }

    /** What a filled order leaves in the queue: only a TWAP order can leave anything. */
    method Requeue(order: Order, t: Trade) returns (kept: seq<Order>)
      ensures kept == KeptOrder(order, Outcome(State(), Some(t), true))
    {
      var o := order;
      if o.kind != TwapMarket {
        return [];
      }
      if o.qty <= 0.0 && o.notional > 0.0 {
        o := o.(qty := t.qty * SlicesLeft(o) as real, notional := 0.0);
      }
      var remainingQty := o.qty - t.qty;
      var remainingBars := o.twapBars - 1;
      if remainingQty > 0.0 && remainingBars > 0 {
        o := o.(qty := remainingQty, twapBars := remainingBars);
        ghost var rest := RestOfTwap(order, t);
        assert rest.Some? && rest.value.qty == o.qty && rest.value == o;
        return [o];
      }
      return [];
    }

    method ProcessPending(barIndex: int) returns (fills: seq<Trade>)
      modifies this
      ensures (State(), fills) == Process(config, old(State()), barIndex)
    {
      hide ExecuteOnBar;
      fills := [];
      if quotes.None? || pending == [] {
        return;
      }
      var remaining := [];
      var orders := pending;
      ghost var start := State();
      for i := 0 to |orders|
        invariant quotes.Some? && orders == old(pending)
        invariant Swept(State(), fills, remaining) == Sweep(config, start, orders[..i], barIndex)
      {
        assert orders[..i + 1][..i] == orders[..i] && orders[..i + 1][i] == orders[i];
        ghost var out := ExecuteOnBar(config, State(), orders[i], barIndex);
        var trade, usable := ExecuteOrderOnBar(orders[i], barIndex);
        assert out == Outcome(State(), trade, usable);
        if !usable || trade.None? {
          remaining := remaining + [orders[i]];
        } else {
          fills := fills + [trade.value];
          var kept := Requeue(orders[i], trade.value);
          remaining := remaining + kept;
        }
      }
      assert orders[..|orders|] == orders;
      pending := remaining;
      trades := trades + fills;
    }

    method ExecuteOrderNow(order: Order, barIndex: int) returns (trade: Option<Trade>)
      modifies this
      ensures (State(), trade) == ExecuteNow(config, old(State()), order, barIndex)
    {
      hide Fill;
      hide TradeOf;
      hide BarQuote;
      if quotes.None? {
        return None;
      }
      var usable;
      trade, usable := ExecuteOrderOnBar(order, barIndex);
      match trade {
        case None => return None;
        case Some(t) => trades := trades + [t];
      }
    }

    method ExecuteOrderAtCloseNow(order: Order, barIndex: int) returns (trade: Option<Trade>)
      modifies this
      ensures (State(), trade) == ExecuteAtClose(config, old(State()), order, barIndex)
    {
      hide Fill;
      hide TradeOf;
      hide CloseQuote;
      if quotes.None? {
        return None;
      }
      var o := order;
      if o.reduceOnly {
        match ReducibleQuantity(entries, o) {
          case None => return None;
          case Some(qty) => o := o.(qty := qty, notional := 0.0);
        }
      }
      var q := CloseQuote(config, o, quotes.value(o.security));
      match q {
        case NoQuote(_) => return None;
        case Quote(_, _, _) =>
          var t := Execute(o, q, barIndex);
          trades := trades + [t];
          return Some(t);
      }
    }

    method ExecuteStopOrderNow(o: Order, barIndex: int, extraSlippagePct: real) returns (trade: Option<Trade>)
      modifies this
      ensures (State(), trade) == ExecuteStop(config, old(State()), o, barIndex, extraSlippagePct)
    {
      hide Fill;
      hide TradeOf;
      hide StopNowQuote;
      if quotes.None? {
        return None;
      }
      var q := StopNowQuote(config, o, quotes.value(o.security), extraSlippagePct);
      match q {
        case NoQuote(_) => return None;
        case Quote(_, _, _) =>
          var t := Execute(o, q, barIndex);
          trades := trades + [t];
          return Some(t);
      }
    }

    method AdjustCash(amount: real)
      modifies this
      ensures State() == Adjust(old(State()), amount)
    {
      cash := cash + amount;
    }

    /** What one position adds to the market value. */
    method PositionWorth(s: Security) returns (worth: real)
      requires s in positions
      ensures worth == WorthIn(config, State(), s)
    {
      var p := positions[s];
      if p.qty == 0.0 || quotes.None? {
        return 0.0;
      }
      var mark := MarkPrice(config, p.qty, quotes.value(s));
      if !ValidPrice(mark) {
        return 0.0;
      }
      if UsesBaseAsset(config, s) {
        return Unrealized(p, mark) / mark;
      }
      return p.qty * mark;
    }

    /** The order in which the positions are visited does not show in the total. */
    method TotalEquity() returns (equity: real)
      ensures equity == Equity(config, State())
    {
      hide Total;
      hide WorthIn;
      var total := 0.0;
      ghost var worths := Worths(config, State());
      TotalRestrict(worths);
      var rest := positions.Keys;
      assert worths.Keys == rest;
      while rest != {}
        invariant rest <= positions.Keys
        invariant total + Total(Restrict(worths, rest)) == Total(worths)
        decreases |rest|
      {
        var s :| s in rest;
        var worth := PositionWorth(s);
        total := total + worth;
        TotalRestrictStep(worths, rest, s);
        rest := rest - {s};
      }
      return cash + total;
    }
  }
}
