/**
 TWAP orders over whole runs: an order of N slices fills N equal slices on its first N filling bars,
 whatever else the broker does in between, and leaves the queue with the last of them. Reduce-only
 orders, which take their size anew on every bar, are in TwapReduce.dfy.
 */
module Twap {
  import opened Basics
  import opened Market
  import opened Positions
  import opened Sums
  import opened Books
  import opened Ledgers
  import opened QueueLaws

  /** The trades of one order. */
  function ById(trades: seq<Trade>, id: int): seq<Trade> {
    if trades == [] then []
    else
      var front := ById(trades[..|trades| - 1], id);
      var t := trades[|trades| - 1];
      if t.orderID == id then front + [t] else front
  }

  lemma {:induction false} ByIdConcat(a: seq<Trade>, b: seq<Trade>, id: int)
    ensures ById(a + b, id) == ById(a, id) + ById(b, id)
  {
    if b == [] {
      assert a + b == a;
    } else {
      var front, t := b[..|b| - 1], b[|b| - 1];
      assert (a + b)[..|a + b| - 1] == a + front;
      ByIdConcat(a, front, id);
    }
  }

  lemma {:induction false} ByIdNone(trades: seq<Trade>, id: int)
    requires id !in FilledIds(trades)
    ensures ById(trades, id) == []
  {
    if trades == [] {
    } else {
      var front := trades[..|trades| - 1];
      assert forall i :: 0 <= i < |front| ==> front[i] == trades[i];
      assert trades[|trades| - 1].orderID in FilledIds(trades);
      assert FilledIds(front) <= FilledIds(trades);
      ByIdNone(front, id);
    }
  }

  /** A sliced order that is sized by quantity, or by a notional amount still to be converted. */
  predicate Sliced(o: Order) {
    o.kind == TwapMarket && !o.reduceOnly && o.id != 0 && (o.qty > 0.0 || o.notional > 0.0)
  }

  /** The order after `done` of its slices, each of quantity `slice`. */
  function After(o: Order, done: nat, slice: real): Order {
    if done == 0 then o
    else o.(qty := slice * (SlicesLeft(o) - done) as real,
            notional := if o.qty <= 0.0 then 0.0 else o.notional,
            twapBars := SlicesLeft(o) - done)
  }

  /** The common quantity of the slices: Q/N for an order of quantity Q, and for a notional order
      what its first slice was. */
  function SliceOf(o: Order, done: seq<Trade>): real {
    if o.qty > 0.0 then o.qty / SlicesLeft(o) as real
    else if done == [] then 0.0
    else done[0].qty
  }

  /** Order `o` has filled `done` so far, in equal slices; it waits with exactly what is left, or
      has filled them all and is gone. */
  ghost predicate OnPlan(b: Book, o: Order) {
    var done := ById(b.trades, o.id);
    && |done| <= SlicesLeft(o)
    && (done != [] ==> SliceOf(o, done) > 0.0)
    && (forall i :: 0 <= i < |done| ==> done[i].qty == SliceOf(o, done))
    && (if |done| == SlicesLeft(o) then o.id !in OrderIds(b.pending)
        else After(o, |done|, SliceOf(o, done)) in b.pending)
    && o.id < b.nextOID
  }

  /** The quantity a plan still has to fill. */
  function Outstanding(o: Order, done: seq<Trade>): real {
    SliceOf(o, done) * (SlicesLeft(o) - |done|) as real
  }

  function QtyOf(): Trade -> real { (t: Trade) => t.qty }

  lemma {:induction false} EqualSlices(done: seq<Trade>, slice: real)
    requires forall i :: 0 <= i < |done| ==> done[i].qty == slice
    ensures Sum(done, QtyOf()) == slice * |done| as real
  {
    if done == [] {
    } else {
      EqualSlices(done[..|done| - 1], slice);
      assert slice * |done| as real == slice * (|done| - 1) as real + slice;
    }
  }

  lemma PartsAddUp(x: real, k: nat, n: nat)
    requires k <= n
    ensures x * k as real + x * (n - k) as real == x * n as real
  {
    Distribute(x, n as real, k as real);
  }

  lemma SlicesMakeOrder(o: Order, done: seq<Trade>)
    requires o.qty > 0.0
    ensures SliceOf(o, done) * SlicesLeft(o) as real == o.qty
  {
    QuotientTimes(o.qty, SlicesLeft(o));
  }

  /** On plan, filled plus outstanding is the whole order: its quantity, or N times the first slice. */
  lemma PlanConserves(b: Book, o: Order)
    requires OnPlan(b, o)
    ensures var done := ById(b.trades, o.id);
      && Sum(done, QtyOf()) + Outstanding(o, done) == SliceOf(o, done) * SlicesLeft(o) as real
      && (o.qty > 0.0 ==> Sum(done, QtyOf()) + Outstanding(o, done) == o.qty)
  {
    hide ById;
    hide Sum;
    hide SliceOf;
    hide After;
    hide SlicesLeft;
    var done := ById(b.trades, o.id);
    var x, n := SliceOf(o, done), SlicesLeft(o);
    EqualSlices(done, x);
    PartsAddUp(x, |done|, n);
    if o.qty > 0.0 {
      SlicesMakeOrder(o, done);
    }
  }

  // ---- One bar ----

  lemma TwapQuoteQty(cfg: Config, o: Order, bp: BarPrices)
    requires o.kind == TwapMarket && BarQuote(cfg, o, bp).Quote?
    ensures var open := ExecutionOpen(bp, o.side, cfg.executionMode);
      && BarQuote(cfg, o, bp).qty == ResolveQty(o, open) / SlicesLeft(o) as real
      && BarQuote(cfg, o, bp).qty > 0.0
      && ValidPrice(open)
  {
  }

  /** What is left of an order that starts with a slice of `total / n`. */
  lemma RestOfFirst(o: Order, t: Trade, total: real)
    requires Sliced(o) && total > 0.0 && t.qty * SlicesLeft(o) as real == total && t.qty > 0.0
    requires o.qty > 0.0 ==> total == o.qty
    ensures RestOfTwap(o, t) == (if SlicesLeft(o) == 1 then None else Some(After(o, 1, t.qty)))
  {
    var n := SlicesLeft(o);
    assert total - t.qty == t.qty * (n - 1) as real;
    PartsLeft(t.qty, n - 1);
    if n > 1 {
      var rest := RestOfTwap(o, t).value;
      assert rest.qty == total - t.qty;
      assert rest == After(o, 1, t.qty);
    }
  }

  /** What is left of an order that waits with `m` slices, after one of them. */
  lemma RestOfLater(o: Order, t: Trade, done: nat, slice: real)
    requires Sliced(o) && 0 < done < SlicesLeft(o) && slice > 0.0 && t.qty == slice
    ensures RestOfTwap(After(o, done, slice), t)
         == (if done + 1 == SlicesLeft(o) then None else Some(After(o, done + 1, slice)))
  {
    var m := SlicesLeft(o) - done;
    var now := After(o, done, slice);
    PartsLeft(slice, m);
    PartsLeft(slice, m - 1);
    assert now.qty - slice == slice * (m - 1) as real;
    if m > 1 {
      var rest := RestOfTwap(now, t).value;
      assert rest.qty == now.qty - slice;
      assert rest == After(o, done + 1, slice);
    }
  }

  /** The slice that a bar with usable prices fills, and what is left of the order. */
  lemma SliceStep(cfg: Config, o: Order, bp: BarPrices, done: seq<Trade>, t: Trade)
    requires Sliced(o) && |done| < SlicesLeft(o)
    requires forall i :: 0 <= i < |done| ==> done[i].qty == SliceOf(o, done)
    requires done != [] ==> SliceOf(o, done) > 0.0
    requires var q := BarQuote(cfg, After(o, |done|, SliceOf(o, done)), bp); q.Quote? && t.qty == q.qty
    ensures var now := After(o, |done|, SliceOf(o, done));
      && t.qty == SliceOf(o, done + [t])
      && (done != [] ==> t.qty == SliceOf(o, done))
      && t.qty > 0.0
      && (done == [] && o.qty <= 0.0 ==>
            t.qty * SlicesLeft(o) as real == o.notional / ExecutionOpen(bp, o.side, cfg.executionMode))
      && RestOfTwap(now, t) == (if |done| + 1 == SlicesLeft(o) then None else Some(After(o, |done| + 1, t.qty)))
  {
    var slice := SliceOf(o, done);
    var now := After(o, |done|, slice);
    TwapQuoteQty(cfg, now, bp);
    hide BarQuote;
    hide RestOfTwap;
    if done == [] {
      var total := ResolveQty(o, ExecutionOpen(bp, o.side, cfg.executionMode));
      QuotientTimes(total, SlicesLeft(o));
      RestOfFirst(o, t, total);
    } else {
      PartsLeft(slice, SlicesLeft(o) - |done|);
      RestOfLater(o, t, |done|, slice);
      assert (done + [t])[0] == done[0];
    }
  }

  lemma QuotientTimes(total: real, n: nat)
    requires n >= 1
    ensures total / n as real * n as real == total
  {
  }

  lemma PartsLeft(slice: real, n: nat)
    ensures slice > 0.0 && n > 0 ==> slice * n as real > 0.0
    ensures n == 0 ==> slice * n as real == 0.0
    ensures n > 0 ==> slice * n as real / n as real == slice
  {
  }

  /** The turn of an order that is not reduce-only does not depend on the state of the book. */
  lemma TurnOfPlainOrder(cfg: Config, b: Book, o: Order, barIndex: int)
    requires b.quotes.Some? && !o.reduceOnly && o.id != 0
    ensures var out := ExecuteOnBar(cfg, b, o, barIndex);
      var q := BarQuote(cfg, o, b.quotes.value(o.security));
      && (out.trade.Some? <==> q.Quote?)
      && (q.Quote? ==> out.trade.value.qty == q.qty && out.trade.value.orderID == o.id)
  {
    hide BarQuote;
    hide Fill;
  }

  lemma SweepIds(cfg: Config, b: Book, orders: seq<Order>, barIndex: int)
    requires b.quotes.Some? && Queued(orders, b.nextOID)
    ensures var s := Sweep(cfg, b, orders, barIndex);
      OrderIds(s.remaining) <= OrderIds(orders) && FilledIds(s.fills) <= OrderIds(orders) && s.book.nextOID == b.nextOID
  {
    SweepAccounts(cfg, b, orders, barIndex);
    hide Sweep;
    hide Queued;
  }

  /** What a sweep has done with one order: `out` was its turn. */
  ghost predicate Placed(s: Swept, o: Order, out: Outcome) {
    && ById(s.fills, o.id) == FillsOf(out)
    && (forall k :: k in KeptOrder(o, out) ==> k in s.remaining)
    && (KeptOrder(o, out) == [] ==> o.id !in OrderIds(s.remaining))
  }

  lemma LastTurn(cfg: Config, b: Book, front: seq<Order>, o: Order, barIndex: int)
    requires b.quotes.Some? && Queued(front, b.nextOID) && o.id >= 1
    requires forall x :: x in front ==> x.id < o.id
    ensures var s := Sweep(cfg, b, front, barIndex);
      var out := ExecuteOnBar(cfg, s.book, o, barIndex);
      Placed(Swept(out.book, s.fills + FillsOf(out), s.remaining + KeptOrder(o, out)), o, out)
  {
    hide ExecuteOnBar;
    hide KeptOrder;
    var s := Sweep(cfg, b, front, barIndex);
    var out := ExecuteOnBar(cfg, s.book, o, barIndex);
    SweepIds(cfg, b, front, barIndex);
    TurnOfOrder(cfg, s.book, o, barIndex);
    hide Sweep;
    hide Queued;
    LastIdIsNew(front, o);
    ByIdNone(s.fills, o.id);
    ByIdConcat(s.fills, FillsOf(out), o.id);
    IdsConcat(s.remaining, KeptOrder(o, out));
    if out.trade.Some? {
      assert ById([out.trade.value], o.id) == [out.trade.value];
    }
  }

  lemma OtherTurn(s: Swept, o: Order, out: Outcome, last: Order, lastOut: Outcome)
    requires Placed(s, o, out) && last.id != o.id
    requires lastOut.trade.Some? ==> lastOut.trade.value.orderID == last.id
    requires forall k :: k in KeptOrder(last, lastOut) ==> SameOrder(k, last)
    ensures Placed(Swept(lastOut.book, s.fills + FillsOf(lastOut), s.remaining + KeptOrder(last, lastOut)), o, out)
  {
    hide KeptOrder;
    ByIdConcat(s.fills, FillsOf(lastOut), o.id);
    assert ById(FillsOf(lastOut), o.id) == [];
    assert ById(s.fills, o.id) + [] == ById(s.fills, o.id);
    IdsConcat(s.remaining, KeptOrder(last, lastOut));
    OthersId(KeptOrder(last, lastOut), o.id);
  }

  lemma AllBefore(front: seq<Order>, last: Order)
    requires ComesAfter(front, last)
    ensures forall x :: x in front ==> x.id < last.id
  {
    hide KeyOf;
  }

  /** A sweep gives each order its turn, on the state its predecessors left, and nothing else of the
      sweep carries its id. */
  lemma {:induction false} SweepTurn(cfg: Config, b: Book, orders: seq<Order>, o: Order, barIndex: int)
    returns (i: nat, out: Outcome)
    requires b.quotes.Some? && Queued(orders, b.nextOID) && o in orders
    ensures i < |orders| && orders[i] == o
    ensures var s, before := Sweep(cfg, b, orders, barIndex), Sweep(cfg, b, orders[..i], barIndex);
      && out == ExecuteOnBar(cfg, before.book, o, barIndex)
      && before.fills + FillsOf(out) <= s.fills
      && Placed(s, o, out)
  {
    hide *;
    var front, last := orders[..|orders| - 1], orders[|orders| - 1];
    assert orders == front + [last];
    QueuedFront(front, last, b.nextOID);
    LastComesAfter(front, last, b.nextOID);
    AllBefore(front, last);
    SweepAppend(cfg, b, front, last, barIndex);
    var s := Sweep(cfg, b, front, barIndex);
    var lastOut := ExecuteOnBar(cfg, s.book, last, barIndex);
    if o == last {
      i, out := |front|, lastOut;
      LastTurn(cfg, b, front, o, barIndex);
    } else {
      assert o in front;
      i, out := SweepTurn(cfg, b, front, o, barIndex);
      assert front[..i] == orders[..i];
      TurnOfOrder(cfg, s.book, last, barIndex);
      OtherTurn(s, o, out, last, lastOut);
    }
  }

  lemma TurnIsPlaced(s: Swept, o: Order, out: Outcome)
    requires Placed(s, o, out)
    ensures ById(s.fills, o.id) == FillsOf(out)
    ensures forall k :: k in KeptOrder(o, out) ==> k in s.remaining
    ensures KeptOrder(o, out) == [] ==> o.id !in OrderIds(s.remaining)
  {
  }

  /** What a sweep has done with one plain order, which depends on the prices alone. */
  ghost predicate TurnTaken(cfg: Config, s: Swept, o: Order, out: Outcome)
    requires s.book.quotes.Some?
  {
    var q := BarQuote(cfg, o, s.book.quotes.value(o.security));
    && Placed(s, o, out)
    && (out.trade.Some? <==> q.Quote?)
    && (q.Quote? ==> out.trade.value.qty == q.qty)
  }

  lemma IdIsPositive(orders: seq<Order>, nextOID: int, o: Order)
    requires Queued(orders, nextOID) && o in orders
    ensures 1 <= o.id < nextOID
  {
  }

  lemma PlainTurn(cfg: Config, b: Book, orders: seq<Order>, o: Order, barIndex: int) returns (out: Outcome)
    requires b.quotes.Some? && Queued(orders, b.nextOID) && o in orders && !o.reduceOnly
    ensures TurnTaken(cfg, Sweep(cfg, b, orders, barIndex), o, out)
  {
    hide Sweep;
    hide ExecuteOnBar;
    hide BarQuote;
    hide Placed;
    IdIsPositive(orders, b.nextOID, o);
    hide Queued;
    var i;
    i, out := SweepTurn(cfg, b, orders, o, barIndex);
    TurnOfPlainOrder(cfg, Sweep(cfg, b, orders[..i], barIndex).book, o, barIndex);
  }

  lemma LastIdIsNew(front: seq<Order>, last: Order)
    requires forall x :: x in front ==> x.id < last.id
    ensures last.id !in OrderIds(front)
  {
  }

  lemma OthersId(orders: seq<Order>, id: int)
    requires forall k :: k in orders ==> k.id != id
    ensures id !in OrderIds(orders)
  {
  }

  lemma IdsConcat(a: seq<Order>, b: seq<Order>)
    ensures OrderIds(a + b) == OrderIds(a) + OrderIds(b)
  {
    forall id | id in OrderIds(a) + OrderIds(b)
      ensures id in OrderIds(a + b)
    {
      if id in OrderIds(a) {
        var i :| 0 <= i < |a| && a[i].id == id;
        assert (a + b)[i].id == id;
      } else {
        var i :| 0 <= i < |b| && b[i].id == id;
        assert (a + b)[|a| + i].id == id;
      }
    }
    forall id | id in OrderIds(a + b)
      ensures id in OrderIds(a) + OrderIds(b)
    {
      var i :| 0 <= i < |a + b| && (a + b)[i].id == id;
    }
  }

  /** A waiting sliced order is filled by exactly the bars with a usable open and a usable price
      after slippage. */
  lemma PlanQuote(cfg: Config, o: Order, bp: BarPrices, done: seq<Trade>)
    requires Sliced(o) && |done| < SlicesLeft(o) && (done != [] ==> SliceOf(o, done) > 0.0)
    ensures var open := ExecutionOpen(bp, o.side, cfg.executionMode);
      BarQuote(cfg, After(o, |done|, SliceOf(o, done)), bp).Quote? <==>
        ValidPrice(open) && ValidPrice(ApplySlippage(open, o.side, cfg.slippagePct))
  {
    var now := After(o, |done|, SliceOf(o, done));
    var open := ExecutionOpen(bp, o.side, cfg.executionMode);
    PartsLeft(SliceOf(o, done), SlicesLeft(o) - |done|);
    hide SliceOf;
    assert now.qty > 0.0 || now.notional > 0.0;
    if ValidPrice(open) {
      assert ResolveQty(now, open) > 0.0;
      SliceIsPart(ResolveQty(now, open), SlicesLeft(now));
    }
  }

  lemma PlanAppend(b: Book, b': Book, o: Order, out: Outcome, t: Trade)
    requires Sliced(o) && OnPlan(b, o) && |ById(b.trades, o.id)| < SlicesLeft(o)
    requires var done := ById(b.trades, o.id);
      && ById(b'.trades, o.id) == done + [t]
      && t.qty == SliceOf(o, done + [t]) && t.qty > 0.0
      && (done != [] ==> t.qty == SliceOf(o, done))
      && out.trade == Some(t)
      && RestOfTwap(After(o, |done|, SliceOf(o, done)), t)
           == (if |done| + 1 == SlicesLeft(o) then None else Some(After(o, |done| + 1, t.qty)))
      && var kept := KeptOrder(After(o, |done|, SliceOf(o, done)), out);
      && (forall k :: k in kept ==> k in b'.pending)
      && (kept == [] ==> o.id !in OrderIds(b'.pending))
    requires b.nextOID <= b'.nextOID
    ensures OnPlan(b', o)
  {
    hide RestOfTwap;
    var done := ById(b.trades, o.id);
    hide ById;
    assert forall i :: 0 <= i < |done| ==> (done + [t])[i] == done[i];
    var kept := KeptOrder(After(o, |done|, SliceOf(o, done)), out);
    if |done| + 1 != SlicesLeft(o) {
      assert kept == [After(o, |done| + 1, t.qty)];
      assert kept[0] in kept;
    }
  }

  // ---- What leaves an order alone ----

  /** The operation neither cancels the order nor executes another one under its id. */
  predicate LeavesAlone(op: Op, o: Order) {
    match op
    case CancelOrders(s) => s != o.security
    case ExecuteOrderNow(x, _) => x.id != o.id
    case ExecuteOrderAtCloseNow(x, _) => x.id != o.id
    case ExecuteStopOrderNow(x, _, _) => x.id != o.id
    case _ => true
  }

  /** Nothing has happened to the order from `b` to `b'`. */
  ghost predicate Quiet(b: Book, b': Book, o: Order) {
    && b.trades <= b'.trades && o.id !in FilledIds(b'.trades[|b.trades|..])
    && (forall p :: p in b.pending && p.id == o.id && p.security == o.security ==> p in b'.pending)
    && (o.id in OrderIds(b'.pending) ==> o.id in OrderIds(b.pending))
    && b.nextOID <= b'.nextOID
  }

  lemma SameIsQuiet(b: Book, b': Book, o: Order)
    requires b'.trades == b.trades && b'.pending == b.pending && b'.nextOID == b.nextOID
    ensures Quiet(b, b', o)
  {
  }

  lemma RecordedIsQuiet(cfg: Config, b: Book, o: Order, x: Order, q: Quote, barIndex: int)
    requires x.id != o.id && o.id < b.nextOID
    ensures Quiet(b, Recorded(cfg, b, x, q, barIndex).0, o)
  {
    hide CashDelta;
    hide UpdatePosition;
    hide Commission;
    if q.Quote? {
      var t := TradeOf(cfg, b, x, q, barIndex);
      assert (b.trades + [t])[|b.trades|..] == [t];
    }
  }

  lemma SubmitIsQuiet(b: Book, o: Order, x: Order)
    requires o.id < b.nextOID
    ensures Quiet(b, Submit(b, x).0, o)
  {
    var b' := Submit(b, x).0;
    if b'.pending != b.pending {
      var added := b'.pending[|b.pending|];
      assert b'.pending == b.pending + [added] && added.id == b.nextOID;
      IdsAppend(b.pending, added);
    }
  }

  lemma CancelIsQuiet(b: Book, o: Order, s: Security)
    requires s != o.security
    ensures Quiet(b, Cancel(b, s), o)
  {
    WithoutMembers(b.pending, s);
    hide Without;
    if o.id in OrderIds(Without(b.pending, s)) {
      var i :| 0 <= i < |Without(b.pending, s)| && Without(b.pending, s)[i].id == o.id;
      assert Without(b.pending, s)[i] in b.pending;
    }
  }

  /** Nothing more happens in a sweep to an order that has left the queue. */
  lemma BarIsQuiet(cfg: Config, b: Book, o: Order, barIndex: int)
    requires Queued(b.pending, b.nextOID) && o.id !in OrderIds(b.pending)
    ensures Quiet(b, Process(cfg, b, barIndex).0, o)
  {
    if b.quotes.Some? && b.pending != [] {
      var s := Sweep(cfg, b, b.pending, barIndex);
      SweepIds(cfg, b, b.pending, barIndex);
      hide Sweep;
      assert (b.trades + s.fills)[|b.trades|..] == s.fills;
    }
  }

  lemma OpIsQuiet(cfg: Config, b: Book, op: Op, o: Order)
    requires LeavesAlone(op, o) && o.id < b.nextOID && !(op.ProcessPending? && b.quotes.Some?)
    ensures Quiet(b, Apply(cfg, b, op), o)
  {
    hide Quiet;
    hide Recorded;
    hide Submit;
    hide Cancel;
    hide BarQuote;
    hide CloseQuote;
    hide StopNowQuote;
    match op {
      case SubmitOrder(x) => SubmitIsQuiet(b, o, x);
      case CancelOrders(s) => CancelIsQuiet(b, o, s);
      case ExecuteOrderNow(x, barIndex) =>
        if b.quotes.Some? && Sized(b.entries, x).Some? {
          var sized := Sized(b.entries, x).value;
          RecordedIsQuiet(cfg, b, o, sized, BarQuote(cfg, sized, b.quotes.value(x.security)), barIndex);
        } else {
          SameIsQuiet(b, Apply(cfg, b, op), o);
        }
      case ExecuteOrderAtCloseNow(x, barIndex) =>
        if b.quotes.Some? && Sized(b.entries, x).Some? {
          var sized := Sized(b.entries, x).value;
          RecordedIsQuiet(cfg, b, o, sized, CloseQuote(cfg, sized, b.quotes.value(x.security)), barIndex);
        } else {
          SameIsQuiet(b, Apply(cfg, b, op), o);
        }
      case ExecuteStopOrderNow(x, barIndex, extra) =>
        if b.quotes.Some? {
          RecordedIsQuiet(cfg, b, o, x, StopNowQuote(cfg, x, b.quotes.value(x.security), extra), barIndex);
        } else {
          SameIsQuiet(b, Apply(cfg, b, op), o);
        }
      case _ => SameIsQuiet(b, Apply(cfg, b, op), o);
    }
  }

  lemma QuietTrades(b: Book, b': Book, o: Order)
    requires Quiet(b, b', o)
    ensures ById(b'.trades, o.id) == ById(b.trades, o.id)
  {
    var more := b'.trades[|b.trades|..];
    assert b'.trades == b.trades + more;
    ByIdConcat(b.trades, more, o.id);
    ByIdNone(more, o.id);
  }

  lemma QuietKeepsPlan(b: Book, b': Book, o: Order)
    requires OnPlan(b, o) && Quiet(b, b', o)
    ensures OnPlan(b', o) && ById(b'.trades, o.id) == ById(b.trades, o.id)
  {
    hide ById;
    hide SliceOf;
    hide FilledIds;
    QuietTrades(b, b', o);
  }

  // ---- A bar and the plan ----

  function Waiting(b: Book, o: Order): Order {
    var done := ById(b.trades, o.id);
    After(o, |done|, SliceOf(o, done))
  }

  /** The book after a sweep. */
  function Settled(b: Book, s: Swept): Book {
    s.book.(pending := s.remaining, trades := b.trades + s.fills)
  }

  lemma PlanFills(cfg: Config, b: Book, s: Swept, o: Order, out: Outcome)
    requires Sliced(o) && OnPlan(b, o) && |ById(b.trades, o.id)| < SlicesLeft(o)
    requires s.book.quotes.Some? && b.nextOID <= s.book.nextOID
    requires out.trade.Some? && TurnTaken(cfg, s, Waiting(b, o), out)
    ensures var b' := Settled(b, s);
      var done := ById(b.trades, o.id);
      && OnPlan(b', o)
      && |ById(b'.trades, o.id)| == |done| + 1
      && (done == [] && o.qty <= 0.0 ==>
            SliceOf(o, ById(b'.trades, o.id)) * SlicesLeft(o) as real
              == o.notional / ExecutionOpen(s.book.quotes.value(o.security), o.side, cfg.executionMode))
  {
    hide BarQuote;
    hide RestOfTwap;
    hide ExecutionOpen;
    var done, t := ById(b.trades, o.id), out.trade.value;
    ByIdConcat(b.trades, s.fills, o.id);
    hide ById;
    SliceStep(cfg, o, s.book.quotes.value(o.security), done, t);
    hide SliceOf;
    hide After;
    PlanAppend(b, Settled(b, s), o, out, t);
    hide OnPlan;
    hide KeptOrder;
  }

  lemma PlanWaits(cfg: Config, b: Book, s: Swept, o: Order, out: Outcome)
    requires Sliced(o) && OnPlan(b, o) && |ById(b.trades, o.id)| < SlicesLeft(o)
    requires s.book.quotes.Some? && b.nextOID <= s.book.nextOID
    requires out.trade.None? && TurnTaken(cfg, s, Waiting(b, o), out)
    ensures OnPlan(Settled(b, s), o) && ById(Settled(b, s).trades, o.id) == ById(b.trades, o.id)
  {
    hide BarQuote;
    var done := ById(b.trades, o.id);
    ByIdConcat(b.trades, s.fills, o.id);
    hide ById;
    hide SliceOf;
    assert done + [] == done;
    assert Waiting(b, o) in KeptOrder(Waiting(b, o), out);
  }

  lemma ProcessSettles(cfg: Config, b: Book, barIndex: int)
    requires b.quotes.Some? && b.pending != []
    ensures Process(cfg, b, barIndex).0 == Settled(b, Sweep(cfg, b, b.pending, barIndex))
  {
    hide Sweep;
  }

  lemma WaitingIsPending(b: Book, o: Order)
    requires OnPlan(b, o) && |ById(b.trades, o.id)| < SlicesLeft(o)
    ensures Waiting(b, o) in b.pending && b.pending != []
    ensures Waiting(b, o) == o.(qty := Waiting(b, o).qty, notional := Waiting(b, o).notional,
      twapBars := Waiting(b, o).twapBars)
  {
  }

  /** The turn of a waiting sliced order. */
  lemma BarMovesPlan(cfg: Config, b: Book, o: Order, barIndex: int)
    requires Queued(b.pending, b.nextOID) && Sliced(o) && OnPlan(b, o) && b.quotes.Some?
    requires |ById(b.trades, o.id)| < SlicesLeft(o)
    ensures var b' := Process(cfg, b, barIndex).0;
      var done := ById(b.trades, o.id);
      var q := BarQuote(cfg, Waiting(b, o), b.quotes.value(o.security));
      && OnPlan(b', o)
      && |ById(b'.trades, o.id)| == |done| + (if q.Quote? then 1 else 0)
      && (done == [] && o.qty <= 0.0 && q.Quote? ==>
            SliceOf(o, ById(b'.trades, o.id)) * SlicesLeft(o) as real
              == o.notional / ExecutionOpen(b.quotes.value(o.security), o.side, cfg.executionMode))
  {
    hide Sweep;
    hide Process;
    hide Queued;
    hide ById;
    hide Settled;
    hide OnPlan;
    hide BarQuote;
    hide KeptOrder;
    hide ExecutionOpen;
    hide Waiting;
    hide SliceOf;
    WaitingIsPending(b, o);
    ProcessSettles(cfg, b, barIndex);
    var s := Sweep(cfg, b, b.pending, barIndex);
    SweepIds(cfg, b, b.pending, barIndex);
    var out := PlainTurn(cfg, b, b.pending, Waiting(b, o), barIndex);
    if out.trade.Some? {
      PlanFills(cfg, b, s, o, out);
    } else {
      PlanWaits(cfg, b, s, o, out);
    }
  }

  /** One bar of a sliced order: a bar with usable prices fills exactly the next slice, any other
      bar leaves the order as it is. The first slice of a notional order fixes its total at the
      notional over that bar's execution open. */
  lemma BarKeepsPlan(cfg: Config, b: Book, o: Order, barIndex: int)
    requires Queued(b.pending, b.nextOID) && Sliced(o) && OnPlan(b, o) && b.quotes.Some?
    ensures var b' := Process(cfg, b, barIndex).0;
      var done := ById(b.trades, o.id);
      var open := ExecutionOpen(b.quotes.value(o.security), o.side, cfg.executionMode);
      && OnPlan(b', o)
      && |ById(b'.trades, o.id)| == |done| +
           (if |done| < SlicesLeft(o) && ValidPrice(open)
             && ValidPrice(ApplySlippage(open, o.side, cfg.slippagePct)) then 1 else 0)
      && (done == [] && o.qty <= 0.0 && ById(b'.trades, o.id) != [] ==>
            SliceOf(o, ById(b'.trades, o.id)) * SlicesLeft(o) as real == o.notional / open)
  {
    var done := ById(b.trades, o.id);
    hide Process;
    hide ById;
    hide BarQuote;
    if |done| == SlicesLeft(o) {
      BarIsQuiet(cfg, b, o, barIndex);
      QuietKeepsPlan(b, Process(cfg, b, barIndex).0, o);
    } else {
      BarMovesPlan(cfg, b, o, barIndex);
      PlanQuote(cfg, o, b.quotes.value(o.security), done);
    }
  }

  // ---- Whole runs ----

  /** Every operation that leaves the order alone keeps it on plan, and only a bar fills it. */
  lemma ApplyKeepsPlan(cfg: Config, b: Book, op: Op, o: Order)
    requires Queued(b.pending, b.nextOID) && Sliced(o) && OnPlan(b, o) && LeavesAlone(op, o)
    ensures var b' := Apply(cfg, b, op);
      && OnPlan(b', o)
      && (!(op.ProcessPending? && b.quotes.Some?) ==> ById(b'.trades, o.id) == ById(b.trades, o.id))
  {
    if op.ProcessPending? && b.quotes.Some? {
      BarKeepsPlan(cfg, b, o, op.barIndex);
    } else {
      OpIsQuiet(cfg, b, op, o);
      QuietKeepsPlan(b, Apply(cfg, b, op), o);
    }
  }

  function OpenOn(cfg: Config, b: Book, o: Order): real
    requires b.quotes.Some?
  {
    ExecutionOpen(b.quotes.value(o.security), o.side, cfg.executionMode)
  }

  /** The prices of the book fill an order that takes the open: it has a usable open, and a usable
      price after slippage. */
  predicate FillsOn(cfg: Config, b: Book, o: Order)
    requires b.quotes.Some?
  {
    ValidPrice(OpenOn(cfg, b, o)) && ValidPrice(ApplySlippage(OpenOn(cfg, b, o), o.side, cfg.slippagePct))
  }

  /** The execution open of a filling bar; nothing for any other operation. */
  function OpenOf(cfg: Config, b: Book, op: Op, o: Order): seq<real> {
    if op.ProcessPending? && b.quotes.Some? && FillsOn(cfg, b, o) then [OpenOn(cfg, b, o)] else []
  }

  /** The execution opens of the filling bars of a run, in order. */
  function FillingOpens(cfg: Config, b: Book, ops: seq<Op>, o: Order): seq<real> {
    if ops == [] then []
    else
      var front := ops[..|ops| - 1];
      FillingOpens(cfg, b, front, o) + OpenOf(cfg, Run(cfg, b, front), ops[|ops| - 1], o)
  }

  /** The whole quantity of the order: a notional amount is converted at the first filling bar. */
  function SizeOf(o: Order, opens: seq<real>): real {
    if o.qty > 0.0 then o.qty
    else if opens == [] || opens[0] == 0.0 then 0.0
    else o.notional / opens[0]
  }

  /** The order has filled one slice of its whole quantity on each of its first N filling bars. */
  ghost predicate Scheduled(o: Order, done: seq<Trade>, opens: seq<real>) {
    && |done| == (if |opens| < SlicesLeft(o) then |opens| else SlicesLeft(o))
    && (opens != [] ==> SliceOf(o, done) * SlicesLeft(o) as real == SizeOf(o, opens))
  }

  lemma ByIdGrows(a: seq<Trade>, b: seq<Trade>, id: int)
    requires a <= b
    ensures ById(a, id) <= ById(b, id)
  {
    assert b == a + b[|a|..];
    ByIdConcat(a, b[|a|..], id);
  }

  lemma ProcessAppends(cfg: Config, b: Book, barIndex: int)
    ensures b.trades <= Process(cfg, b, barIndex).0.trades
  {
    hide Sweep;
  }

  /** The slices of an order are all alike, so more of them say nothing new of its size. */
  lemma SliceIsSettled(o: Order, done: seq<Trade>, later: seq<Trade>)
    requires done <= later && (done != [] || o.qty > 0.0)
    ensures SliceOf(o, later) == SliceOf(o, done)
  {
  }

  lemma FirstBar(o: Order, done: seq<Trade>, opens: seq<real>)
    requires |done| == |opens| <= 1
    requires o.qty <= 0.0 && opens != [] ==>
      opens[0] != 0.0 && SliceOf(o, done) * SlicesLeft(o) as real == o.notional / opens[0]
    ensures Scheduled(o, done, opens)
  {
    hide SliceOf;
    if o.qty > 0.0 {
      SlicesMakeOrder(o, done);
    }
  }

  lemma LaterBar(o: Order, done: seq<Trade>, later: seq<Trade>, opens: seq<real>, more: seq<real>)
    requires Scheduled(o, done, opens) && opens != [] && |more| <= 1 && done <= later
    requires |later| == |done| + (if |done| < SlicesLeft(o) then |more| else 0)
    ensures Scheduled(o, later, opens + more)
  {
    hide SliceOf;
    SliceIsSettled(o, done, later);
  }

  lemma BarKeepsSchedule(cfg: Config, b: Book, o: Order, opens: seq<real>, barIndex: int)
    requires Queued(b.pending, b.nextOID) && Sliced(o) && OnPlan(b, o) && b.quotes.Some?
    requires Scheduled(o, ById(b.trades, o.id), opens)
    ensures Scheduled(o, ById(Process(cfg, b, barIndex).0.trades, o.id),
      opens + OpenOf(cfg, b, ProcessPending(barIndex), o))
  {
    hide Process;
    hide ById;
    hide OnPlan;
    hide ExecutionOpen;
    hide SliceOf;
    hide ApplySlippage;
    hide SizeOf;
    hide Queued;
    var done, later := ById(b.trades, o.id), ById(Process(cfg, b, barIndex).0.trades, o.id);
    BarKeepsPlan(cfg, b, o, barIndex);
    var more := OpenOf(cfg, b, ProcessPending(barIndex), o);
    if opens == [] {
      assert opens + more == more;
      FirstBar(o, later, more);
    } else {
      ProcessAppends(cfg, b, barIndex);
      ByIdGrows(b.trades, Process(cfg, b, barIndex).0.trades, o.id);
      LaterBar(o, done, later, opens, more);
    }
  }

  lemma OpKeepsSchedule(cfg: Config, b: Book, op: Op, o: Order, opens: seq<real>)
    requires Queued(b.pending, b.nextOID) && Sliced(o) && OnPlan(b, o) && LeavesAlone(op, o)
    requires Scheduled(o, ById(b.trades, o.id), opens)
    ensures Scheduled(o, ById(Apply(cfg, b, op).trades, o.id), opens + OpenOf(cfg, b, op, o))
  {
    hide Scheduled;
    if op.ProcessPending? && b.quotes.Some? {
      BarKeepsSchedule(cfg, b, o, opens, op.barIndex);
    } else {
      ApplyKeepsPlan(cfg, b, op, o);
      hide Apply;
      hide ById;
      hide OnPlan;
      assert opens + [] == opens;
    }
  }

  lemma FirstPlan(b: Book, o: Order)
    requires Queued(b.pending, b.nextOID) && o in b.pending && ById(b.trades, o.id) == []
    ensures OnPlan(b, o) && Scheduled(o, ById(b.trades, o.id), [])
  {
    hide ById;
  }

  lemma {:induction false} RunKeepsSchedule(cfg: Config, b: Book, ops: seq<Op>, o: Order)
    requires Queued(b.pending, b.nextOID) && Sliced(o) && o in b.pending && ById(b.trades, o.id) == []
    requires forall i :: 0 <= i < |ops| ==> LeavesAlone(ops[i], o)
    ensures var b' := Run(cfg, b, ops);
      && OnPlan(b', o) && Queued(b'.pending, b'.nextOID)
      && Scheduled(o, ById(b'.trades, o.id), FillingOpens(cfg, b, ops, o))
  {
    hide OnPlan;
    hide Scheduled;
    hide Apply;
    hide OpenOf;
    hide ById;
    if ops == [] {
      FirstPlan(b, o);
    } else {
      var front, op := ops[..|ops| - 1], ops[|ops| - 1];
      RunKeepsSchedule(cfg, b, front, o);
      assert LeavesAlone(ops[|ops| - 1], o);
      hide Queued;
      OpKeepsSchedule(cfg, Run(cfg, b, front), op, o, FillingOpens(cfg, b, front, o));
      ApplyKeepsPlan(cfg, Run(cfg, b, front), op, o);
      ApplyKeepsQueue(cfg, Run(cfg, b, front), op);
    }
  }

  lemma WaitsWhilePlanned(b: Book, o: Order)
    requires OnPlan(b, o)
    ensures o.id in OrderIds(b.pending) <==> |ById(b.trades, o.id)| < SlicesLeft(o)
  {
    hide ById;
    hide SliceOf;
    if |ById(b.trades, o.id)| < SlicesLeft(o) {
      var i :| 0 <= i < |b.pending| && b.pending[i] == Waiting(b, o);
      assert b.pending[i].id in OrderIds(b.pending);
    }
  }

  lemma SliceOfSize(o: Order, slice: real, size: real)
    requires slice * SlicesLeft(o) as real == size
    ensures slice == size / SlicesLeft(o) as real
  {
    PartsLeft(slice, SlicesLeft(o));
  }

  /** What plan and schedule say of the fills of the order. */
  lemma ScheduleMeans(b: Book, o: Order, opens: seq<real>)
    requires OnPlan(b, o) && Scheduled(o, ById(b.trades, o.id), opens)
    ensures var done := ById(b.trades, o.id);
      && |done| == (if |opens| < SlicesLeft(o) then |opens| else SlicesLeft(o))
      && (forall i :: 0 <= i < |done| ==> done[i].qty == SizeOf(o, opens) / SlicesLeft(o) as real)
      && (o.id in OrderIds(b.pending) <==> |opens| < SlicesLeft(o))
      && (|opens| >= SlicesLeft(o) ==> Sum(done, QtyOf()) == SizeOf(o, opens))
  {
    hide ById;
    hide OrderIds;
    hide After;
    hide Sum;
    hide SliceOf;
    hide SizeOf;
    var done := ById(b.trades, o.id);
    WaitsWhilePlanned(b, o);
    EqualSlices(done, SliceOf(o, done));
    if done != [] {
      SliceOfSize(o, SliceOf(o, done), SizeOf(o, opens));
    }
  }

  /** Over every run from any state in which a fresh sliced order waits, with any mix of usable and
      unusable bars and any other operations that leave the order alone: it has filled one N-th of its
      whole quantity on each of its first N filling bars, and nothing else; it waits with exactly the
      rest, and leaves the queue with the last slice. A notional order's whole quantity is its notional
      amount over the execution open of its first filling bar. */
  lemma RunKeepsPlan(cfg: Config, b: Book, ops: seq<Op>, o: Order)
    requires Queued(b.pending, b.nextOID) && Sliced(o) && o in b.pending && ById(b.trades, o.id) == []
    requires forall i :: 0 <= i < |ops| ==> LeavesAlone(ops[i], o)
    ensures var b', opens := Run(cfg, b, ops), FillingOpens(cfg, b, ops, o);
      var done := ById(b'.trades, o.id);
      && OnPlan(b', o)
      && |done| == (if |opens| < SlicesLeft(o) then |opens| else SlicesLeft(o))
      && (forall i :: 0 <= i < |done| ==> done[i].qty == SizeOf(o, opens) / SlicesLeft(o) as real)
      && (o.id in OrderIds(b'.pending) <==> |opens| < SlicesLeft(o))
      && (|opens| >= SlicesLeft(o) ==> Sum(done, QtyOf()) == SizeOf(o, opens))
  {
    hide *;
    RunKeepsSchedule(cfg, b, ops, o);
    ScheduleMeans(Run(cfg, b, ops), o, FillingOpens(cfg, b, ops, o));
  }
}
