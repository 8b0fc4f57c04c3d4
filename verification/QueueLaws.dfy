/**
 The queue over whole runs, and the safety of reduce-only orders.
 */
module QueueLaws {
  import opened Basics
  import opened Market
  import opened Positions
  import opened Sums
  import opened Books
  import opened Ledgers

  lemma {:induction false} NoPendingReduceOnly(pending: seq<Order>, o: Order)
    requires PendingReduceOnly(pending, o).None?
    ensures forall p :: p in pending && p.reduceOnly ==> KeyOf(p) != KeyOf(o)
  {
    if pending == [] {
    } else {
      NoPendingReduceOnly(pending[1..], o);
      assert pending == [pending[0]] + pending[1..];
    }
  }

  /** CancelOrders removes exactly the orders of the security. */
  lemma {:induction false} WithoutMembers(pending: seq<Order>, s: Security)
    ensures forall o :: o in Without(pending, s) <==> o in pending && o.security != s
  {
    if pending == [] {
    } else {
      var front, last := pending[..|pending| - 1], pending[|pending| - 1];
      WithoutMembers(front, s);
      assert pending == front + [last];
    }
  }

  lemma PartDescends(part: seq<Order>, orders: seq<Order>)
    requires forall r :: r in part ==> r in orders
    ensures Descend(part, orders)
  {
    assert forall r :: r in part ==> SameOrder(r, r);
  }

  /** ... and leaves the others in their order. */
  lemma {:induction false} WithoutKeepsOrder(pending: seq<Order>, s: Security, nextOID: int)
    requires Queued(pending, nextOID)
    ensures Queued(Without(pending, s), nextOID)
  {
    hide Queued;
    hide SameOrder;
    if pending == [] {
    } else {
      var front, last := pending[..|pending| - 1], pending[|pending| - 1];
      assert pending == front + [last];
      QueuedFront(front, last, nextOID);
      WithoutKeepsOrder(front, s, nextOID);
      WithoutMembers(front, s);
      PartDescends(Without(front, s), front);
      assert SameOrder(last, last) by { KeepsItself(last); }
      QueuedStep(front, Without(front, s), last, [last], nextOID);
    }
  }

  lemma KeepsItself(o: Order)
    ensures SameOrder(o, o)
  {
  }

  lemma NextComesAfter(b: Book, x: Order)
    requires Queued(b.pending, b.nextOID) && x.id == b.nextOID
    requires x.reduceOnly ==> forall p :: p in b.pending && p.reduceOnly ==> KeyOf(p) != KeyOf(x)
    ensures ComesAfter(b.pending, x) && Queued(b.pending, b.nextOID + 1) && 1 <= x.id < b.nextOID + 1
  {
    hide KeyOf;
  }

  lemma SubmitKeepsQueue(b: Book, o: Order)
    requires Queued(b.pending, b.nextOID)
    ensures var b' := Submit(b, o).0; Queued(b'.pending, b'.nextOID) && b.nextOID <= b'.nextOID
  {
    hide Queued;
    hide PendingReduceOnly;
    if Submit(b, o).0 != b {
      var sized := Sized(b.entries, o).value.(id := b.nextOID);
      if o.reduceOnly {
        NoPendingReduceOnly(b.pending, o);
      }
      NextComesAfter(b, sized);
      QueuedAppend(b.pending, sized, b.nextOID + 1);
    }
  }

  lemma {:induction false} PendingIsPending(pending: seq<Order>, o: Order)
    requires PendingReduceOnly(pending, o).Some?
    ensures exists p :: p in pending && p.reduceOnly && p.security == o.security && p.entryID == o.entryID
              && p.id == PendingReduceOnly(pending, o).value
  {
    if pending[0].reduceOnly && KeyOf(pending[0]) == KeyOf(o) {
      assert pending[0] in pending;
    } else {
      PendingIsPending(pending[1..], o);
      var p :| p in pending[1..] && p.reduceOnly && p.security == o.security && p.entryID == o.entryID
        && p.id == PendingReduceOnly(pending[1..], o).value;
      assert p in pending;
    }
  }

  /** The entry that a reduce-only order names can be reduced by it. */
  predicate CanReduce(b: Book, o: Order) {
    var entry := EntryOf(b, EntryKey(o.security, o.entryID)).qty;
    o.entryID != "" && ((entry > 0.0 && o.side == Sell) || (entry < 0.0 && o.side == Buy))
  }

  /** The order is pending already: a reduce-only order of the same entry. */
  predicate IsPendingAs(b: Book, o: Order, id: int) {
    exists p :: p in b.pending && p.reduceOnly && p.security == o.security && p.entryID == o.entryID && p.id == id
  }

  /** What a submission does and answers, in any state whose queue is in order: a reduce-only order that
      can reduce nothing is refused with 0; one whose entry has one pending is answered with the id of
      that one; and any other order is queued last, under a new id, which is the answer. */
  lemma SubmitReturns(b: Book, o: Order)
    requires Queued(b.pending, b.nextOID)
    ensures var (b', id) := Submit(b, o);
      if o.reduceOnly && !CanReduce(b, o) then b' == b && id == 0
      else if o.reduceOnly && exists x :: IsPendingAs(b, o, x) then b' == b && IsPendingAs(b, o, id)
      else
        var entry := EntryOf(b, EntryKey(o.security, o.entryID)).qty;
        var qty := if !o.reduceOnly then o.qty else if entry > 0.0 then entry else -entry;
        && id == b.nextOID && (forall p :: p in b.pending ==> p.id < id)
        && b' == b.(nextOID := id + 1, pending := b.pending + [
             o.(id := id, qty := qty, notional := if o.reduceOnly then 0.0 else o.notional)])
  {
    if o.reduceOnly {
      if PendingReduceOnly(b.pending, o).Some? {
        PendingIsPending(b.pending, o);
        assert IsPendingAs(b, o, PendingReduceOnly(b.pending, o).value);
      } else {
        NoPendingReduceOnly(b.pending, o);
      }
    }
    hide PendingReduceOnly;
    forall p | p in b.pending
      ensures p.id < b.nextOID
    {
    }
    hide Queued;
  }

  lemma RecordedKeepsQueue(cfg: Config, b: Book, o: Order, q: Quote, barIndex: int)
    requires Queued(b.pending, b.nextOID)
    ensures var b' := Recorded(cfg, b, o, q, barIndex).0; Queued(b'.pending, b'.nextOID) && b.nextOID <= b'.nextOID
  {
    hide CashDelta;
    hide UpdatePosition;
    hide Commission;
  }

  lemma ApplyKeepsQueue(cfg: Config, b: Book, op: Op)
    requires Queued(b.pending, b.nextOID)
    ensures Queued(Apply(cfg, b, op).pending, Apply(cfg, b, op).nextOID)
    ensures b.nextOID <= Apply(cfg, b, op).nextOID
  {
    hide BarQuote;
    hide CloseQuote;
    hide StopNowQuote;
    hide Recorded;
    hide Submit;
    hide Queued;
    match op {
      case SubmitOrder(o) =>
        SubmitKeepsQueue(b, o);
      case CancelOrders(s) =>
        WithoutKeepsOrder(b.pending, s, b.nextOID);
      case ProcessPending(barIndex) =>
        if b.quotes.Some? {
          SweepAccounts(cfg, b, b.pending, barIndex);
          hide Sweep;
        }
      case ExecuteOrderNow(o, barIndex) =>
        if b.quotes.Some? && Sized(b.entries, o).Some? {
          var sized := Sized(b.entries, o).value;
          RecordedKeepsQueue(cfg, b, sized, BarQuote(cfg, sized, b.quotes.value(o.security)), barIndex);
        }
      case ExecuteOrderAtCloseNow(o, barIndex) =>
        if b.quotes.Some? && Sized(b.entries, o).Some? {
          var sized := Sized(b.entries, o).value;
          RecordedKeepsQueue(cfg, b, sized, CloseQuote(cfg, sized, b.quotes.value(o.security)), barIndex);
        }
      case ExecuteStopOrderNow(o, barIndex, extra) =>
        if b.quotes.Some? {
          RecordedKeepsQueue(cfg, b, o, StopNowQuote(cfg, o, b.quotes.value(o.security), extra), barIndex);
        }
      case _ =>
    }
  }

  /** Over every run: pending ids strictly increase below the next id, and at most one reduce-only
      order is pending for each (security, entry). */
  lemma {:induction false} RunKeepsQueue(cfg: Config, ops: seq<Op>)
    ensures var b := Run(cfg, Initial(cfg), ops); Queued(b.pending, b.nextOID)
  {
    if ops == [] {
    } else {
      RunKeepsQueue(cfg, ops[..|ops| - 1]);
      ApplyKeepsQueue(cfg, Run(cfg, Initial(cfg), ops[..|ops| - 1]), ops[|ops| - 1]);
    }
  }

  /** In every reachable state, one call of ProcessPending accounts for every pending order. */
  lemma ProcessAccounts(cfg: Config, ops: seq<Op>, barIndex: int)
    ensures var b := Run(cfg, Initial(cfg), ops);
      var (b', fills) := Process(cfg, b, barIndex);
      && Accounted(b.pending, b'.pending, fills)
      && b'.trades == b.trades + fills
      && b'.nextOID == b.nextOID
  {
    var b := Run(cfg, Initial(cfg), ops);
    RunKeepsQueue(cfg, ops);
    hide Run;
    if b.quotes.Some? && b.pending != [] {
      SweepAccounts(cfg, b, b.pending, barIndex);
      hide Sweep;
    } else {
      NothingHappens(b.pending);
    }
  }

  lemma NothingHappens(pending: seq<Order>)
    ensures Accounted(pending, pending, [])
  {
    assert FilledIds([]) == {};
    assert forall o :: o in pending ==> SameOrder(o, o);
  }

  // ---- Reduce-only orders ----

  /** The fill quantity of a sized reduce-only order is at most its entry, and the whole entry
      unless the order is sliced. */
  lemma ReduceOnlyQuantity(cfg: Config, entries: map<EntryKey, Position>, o: Order, bp: BarPrices)
    requires o.reduceOnly && Sized(entries, o).Some?
    ensures var sized := Sized(entries, o).value;
      var entry := GetOr(entries, KeyOf(o), FLAT);
      && entry.qty != 0.0
      && o.side == (if entry.qty > 0.0 then Sell else Buy)
      && (BarQuote(cfg, sized, bp).Quote? ==>
            && 0.0 < BarQuote(cfg, sized, bp).qty <= Abs(entry.qty)
            && (o.kind != TwapMarket ==> BarQuote(cfg, sized, bp).qty == Abs(entry.qty)))
      && (CloseQuote(cfg, sized, bp).Quote? ==> CloseQuote(cfg, sized, bp).qty == Abs(entry.qty))
  {
    var sized := Sized(entries, o).value;
    if BarQuote(cfg, sized, bp).Quote? && o.kind == TwapMarket {
      SliceIsPart(sized.qty, SlicesLeft(sized));
    }
  }

  lemma SliceIsPart(q: real, n: nat)
    requires q > 0.0 && n >= 1
    ensures 0.0 < q / n as real <= q
  {
    assert q / n as real * n as real == q;
  }

  /** What any fill does to its entry. */
  lemma FillMovesEntry(cfg: Config, b: Book, o: Order, q: Quote, barIndex: int)
    requires Sound(EntryOf(b, KeyOf(o)))
    requires q.Quote? && ValidQuantity(q.qty) && ValidPrice(q.price) && o.entryID != ""
    ensures EntryOf(Fill(cfg, b, o, q, barIndex), KeyOf(o)).qty
         == EntryOf(b, KeyOf(o)).qty + TradeOf(cfg, b, o, q, barIndex).Signed()
  {
    hide CashDelta;
    hide Commission;
    hide UpdatePosition;
    FlatIsSound();
    hide Sound;
    hide NetCost;
    FillConserves(EntryOf(b, KeyOf(o)), TradeOf(cfg, b, o, q, barIndex));
  }

  /** An entry of a ledger is sound, whichever trades the ledger is about. */
  lemma EntryIsSound(b: Book, trades: seq<Trade>, k: EntryKey)
    requires EntriesAgree(b.entries, trades)
    ensures Sound(EntryOf(b, k))
  {
    FlatIsSound();
  }

  /** A reduce-only fill of a sweep or of ExecuteOrderNow, in any state: the entry shrinks without
      flipping, and is left exactly flat unless the order is sliced. */
  lemma ReduceOnlyOnBar(cfg: Config, b: Book, o: Order, barIndex: int)
    requires Sound(EntryOf(b, KeyOf(o))) && b.quotes.Some? && o.reduceOnly
    requires ExecuteOnBar(cfg, b, o, barIndex).trade.Some?
    ensures var after := EntryOf(ExecuteOnBar(cfg, b, o, barIndex).book, KeyOf(o)).qty;
      && Shrinks(EntryOf(b, KeyOf(o)).qty, after)
      && (o.kind != TwapMarket ==> after == 0.0)
  {
    var sized := Sized(b.entries, o).value;
    var bp := b.quotes.value(o.security);
    QuoteIsValid(cfg, sized, bp, 0.0);
    ReduceOnlyQuantity(cfg, b.entries, o, bp);
    FillMovesEntry(cfg, b, sized, BarQuote(cfg, sized, bp), barIndex);
    hide BarQuote;
    hide Fill;
    hide Commission;
    hide Sound;
  }

  /** If the order is reduce-only and fills on this bar, its entry shrinks, and is left exactly flat
      unless the order is sliced. */
  predicate TurnReduces(cfg: Config, b: Book, o: Order, barIndex: int)
    requires b.quotes.Some?
  {
    var out := ExecuteOnBar(cfg, b, o, barIndex);
    var after := EntryOf(out.book, KeyOf(o)).qty;
    o.reduceOnly && out.trade.Some? ==>
      Shrinks(EntryOf(b, KeyOf(o)).qty, after) && (o.kind != TwapMarket ==> after == 0.0)
  }

  /** Every order of a sweep is met with whatever the orders before it have just done to its entry.
      `trades` are all trades so far, recorded or not. */
  lemma SweepReduces(cfg: Config, b: Book, trades: seq<Trade>, orders: seq<Order>, barIndex: int)
    requires Ledger(b, trades) && b.quotes.Some?
    ensures forall i :: 0 <= i < |orders| ==>
      TurnReduces(cfg, Sweep(cfg, b, orders[..i], barIndex).book, orders[i], barIndex)
  {
    forall i | 0 <= i < |orders|
      ensures TurnReduces(cfg, Sweep(cfg, b, orders[..i], barIndex).book, orders[i], barIndex)
    {
      var s := Sweep(cfg, b, orders[..i], barIndex);
      SweepKeepsLedger(cfg, b, trades, orders[..i], barIndex);
      EntryIsSound(s.book, trades + s.fills, KeyOf(orders[i]));
      if orders[i].reduceOnly && ExecuteOnBar(cfg, s.book, orders[i], barIndex).trade.Some? {
        ReduceOnlyOnBar(cfg, s.book, orders[i], barIndex);
      }
    }
  }

  /** A reduce-only fill at the close, in any state, leaves its entry exactly flat. */
  lemma ReduceOnlyAtClose(cfg: Config, b: Book, o: Order, barIndex: int)
    requires Sound(EntryOf(b, KeyOf(o))) && o.reduceOnly
    requires ExecuteAtClose(cfg, b, o, barIndex).1.Some?
    ensures EntryOf(b, KeyOf(o)).qty != 0.0
    ensures EntryOf(ExecuteAtClose(cfg, b, o, barIndex).0, KeyOf(o)).qty == 0.0
  {
    var sized := Sized(b.entries, o).value;
    var bp := b.quotes.value(o.security);
    QuoteIsValid(cfg, sized, bp, 0.0);
    ReduceOnlyQuantity(cfg, b.entries, o, bp);
    FillMovesEntry(cfg, b, sized, CloseQuote(cfg, sized, bp), barIndex);
    hide CloseQuote;
    hide Fill;
    hide Commission;
    hide Sound;
  }

  /** The price a stop executes from before slippage. */
  function StopBase(cfg: Config, o: Order, bp: BarPrices): real {
    var open := ExecutionOpen(bp, o.side, cfg.executionMode);
    if o.side == Buy then Max(open, o.stopPrice) else Min(open, o.stopPrice)
  }

  /** The order is against a position of this quantity, as the stop path books it: an order without
      a side is booked as a buy. */
  predicate Against(o: Order, qty: real) {
    (qty > 0.0 && o.side == Sell) || (qty < 0.0 && o.side != Sell)
  }

  /** The stop path does not look at the flag. Whatever the order, its fill shrinks its entry exactly
      when the order is against the entry and sized for no more than the entry holds. */
  lemma ReduceOnlyStop(cfg: Config, b: Book, o: Order, barIndex: int, extra: real)
    requires Sound(EntryOf(b, KeyOf(o))) && o.entryID != ""
    requires ExecuteStop(cfg, b, o, barIndex, extra).1.Some?
    ensures var entry := EntryOf(b, KeyOf(o)).qty;
      Shrinks(entry, EntryOf(ExecuteStop(cfg, b, o, barIndex, extra).0, KeyOf(o)).qty) <==>
        Against(o, entry) && ResolveQty(o, StopBase(cfg, o, b.quotes.value(o.security))) <= Abs(entry)
  {
    var bp := b.quotes.value(o.security);
    QuoteIsValid(cfg, o, bp, extra);
    FillMovesEntry(cfg, b, o, StopNowQuote(cfg, o, bp, extra), barIndex);
    assert StopNowQuote(cfg, o, bp, extra).qty == ResolveQty(o, StopBase(cfg, o, bp));
    hide StopNowQuote;
    hide StopBase;
    hide ResolveQty;
    hide Fill;
    hide Commission;
    hide Sound;
  }

  /** How much of an entry of this size a reduce-only order closes on one bar. */
  function ClosedOnBar(o: Order, entry: real): real {
    if o.kind == TwapMarket then Abs(entry) / SlicesLeft(o) as real else Abs(entry)
  }

  /** The guard of a reduce-only order is its entry, not the net position of the security: closing (a
      slice of) an entry moves the net position towards zero exactly when that is on the same side and
      at least as large as what is closed. */
  lemma ReduceOnlyAndNetPosition(cfg: Config, b: Book, o: Order, barIndex: int)
    requires Sound(PositionOf(b, o.security)) && b.quotes.Some? && o.reduceOnly
    requires ExecuteOnBar(cfg, b, o, barIndex).trade.Some?
    ensures var entry, net := EntryOf(b, KeyOf(o)).qty, PositionOf(b, o.security).qty;
      var after := PositionOf(ExecuteOnBar(cfg, b, o, barIndex).book, o.security).qty;
      Shrinks(net, after) <==> SameSign(entry, net) && ClosedOnBar(o, entry) <= Abs(net)
  {
    var sized := Sized(b.entries, o).value;
    var bp := b.quotes.value(o.security);
    QuoteIsValid(cfg, sized, bp, 0.0);
    ReduceOnlyQuantity(cfg, b.entries, o, bp);
    assert BarQuote(cfg, sized, bp).qty == ClosedOnBar(o, EntryOf(b, KeyOf(o)).qty);
    hide BarQuote;
    hide ClosedOnBar;
    FillMovesPosition(cfg, b, sized, BarQuote(cfg, sized, bp), barIndex);
    hide Fill;
    hide Commission;
    hide Sound;
  }

  lemma FillMovesPosition(cfg: Config, b: Book, o: Order, q: Quote, barIndex: int)
    requires Sound(PositionOf(b, o.security)) && q.Quote? && ValidQuantity(q.qty) && ValidPrice(q.price)
    ensures PositionOf(Fill(cfg, b, o, q, barIndex), o.security).qty
         == PositionOf(b, o.security).qty + TradeOf(cfg, b, o, q, barIndex).Signed()
  {
    hide CashDelta;
    hide Commission;
    hide UpdatePosition;
    hide Sound;
    hide NetCost;
    FillConserves(PositionOf(b, o.security), TradeOf(cfg, b, o, q, barIndex));
  }

  /** A reduce-only order whose entry is flat is neither filled nor dropped: it waits. */
  lemma FlatEntryWaits(cfg: Config, b: Book, o: Order, barIndex: int)
    requires b.quotes.Some? && o.reduceOnly && EntryOf(b, KeyOf(o)).qty == 0.0
    ensures var out := ExecuteOnBar(cfg, b, o, barIndex);
      out.book == b && out.trade.None? && KeptOrder(o, out) == [o]
  {
  }

  // ---- Reduce-only trades over whole runs ----

  /** How a trade came about: on a path that looks at the flag, sliced or whole, or on the stop path,
      which does not. */
  datatype Maker = Sliced | Whole | StopPath

  function MakersOf(o: Order, out: Outcome): seq<Maker> {
    if out.trade.None? then [] else [if o.kind == TwapMarket then Sliced else Whole]
  }

  /** The makers of the fills of a sweep, in order. */
  function SweepMakers(cfg: Config, b: Book, orders: seq<Order>, barIndex: int): seq<Maker>
    requires b.quotes.Some?
  {
    if orders == [] then []
    else
      var front, o := orders[..|orders| - 1], orders[|orders| - 1];
      var out := ExecuteOnBar(cfg, Sweep(cfg, b, front, barIndex).book, o, barIndex);
      SweepMakers(cfg, b, front, barIndex) + MakersOf(o, out)
  }

  /** The makers of the trades that one operation records. */
  function OpMakers(cfg: Config, b: Book, op: Op): seq<Maker> {
    match op
    case ProcessPending(barIndex) => if b.quotes.None? then [] else SweepMakers(cfg, b, b.pending, barIndex)
    case ExecuteOrderNow(o, barIndex) =>
      if ExecuteNow(cfg, b, o, barIndex).1.None? then [] else [if o.kind == TwapMarket then Sliced else Whole]
    case ExecuteOrderAtCloseNow(o, barIndex) => if ExecuteAtClose(cfg, b, o, barIndex).1.None? then [] else [Whole]
    case ExecuteStopOrderNow(o, barIndex, extra) =>
      if ExecuteStop(cfg, b, o, barIndex, extra).1.None? then [] else [StopPath]
    case _ => []
  }

  /** The makers of all trades of a run. */
  function Makers(cfg: Config, ops: seq<Op>): seq<Maker> {
    if ops == [] then []
    else
      var front := ops[..|ops| - 1];
      Makers(cfg, front) + OpMakers(cfg, Run(cfg, Initial(cfg), front), ops[|ops| - 1])
  }

  /** The trade shrinks what the trades before it made of its entry, and leaves it flat if whole. */
  ghost predicate Reduced(before: seq<Trade>, t: Trade, m: Maker) {
    var k := EntryKey(t.security, t.entryID);
    var qty := Sum(before, OnEntry(k));
    && Shrinks(qty, qty + t.Signed())
    && (m == Whole ==> qty + t.Signed() == 0.0)
  }

  /** Every reduce-only trade that the stop path did not make reduces its entry. */
  ghost predicate ReduceOnlySafe(trades: seq<Trade>, makers: seq<Maker>) {
    && |trades| == |makers|
    && forall i :: 0 <= i < |trades| && trades[i].reduceOnly && makers[i] != StopPath ==>
         Reduced(trades[..i], trades[i], makers[i])
  }

  lemma SafeAppend(trades: seq<Trade>, makers: seq<Maker>, t: Trade, m: Maker)
    requires ReduceOnlySafe(trades, makers)
    requires t.reduceOnly && m != StopPath ==> Reduced(trades, t, m)
    ensures ReduceOnlySafe(trades + [t], makers + [m])
  {
    var all, made := trades + [t], makers + [m];
    forall i | 0 <= i < |all| && all[i].reduceOnly && made[i] != StopPath
      ensures Reduced(all[..i], all[i], made[i])
    {
      assert all[..i] == trades[..i];
      if i == |trades| {
        assert trades[..i] == trades;
      }
    }
  }

  lemma SizedFillReduces(cfg: Config, b: Book, trades: seq<Trade>, o: Order, q: Quote, barIndex: int, m: Maker)
    requires Ledger(b, trades)
    requires Sized(b.entries, o).Some? && b.quotes.Some? && q.Quote? && o.reduceOnly
    requires
      || (q == BarQuote(cfg, Sized(b.entries, o).value, b.quotes.value(o.security))
          && m == if o.kind == TwapMarket then Sliced else Whole)
      || (q == CloseQuote(cfg, Sized(b.entries, o).value, b.quotes.value(o.security)) && m == Whole)
    ensures Reduced(trades, TradeOf(cfg, b, Sized(b.entries, o).value, q, barIndex), m)
  {
    var sized := Sized(b.entries, o).value;
    var t := TradeOf(cfg, b, sized, q, barIndex);
    ReduceOnlyQuantity(cfg, b.entries, o, b.quotes.value(o.security));
    hide Commission;
    assert Sum(trades, OnEntry(KeyOf(o))) == EntryOf(b, KeyOf(o)).qty;
    assert EntryKey(t.security, t.entryID) == KeyOf(o);
    hide BarQuote;
    hide CloseQuote;
    assert Reduces(EntryOf(b, KeyOf(o)), t);
  }

  /** One more fill of a path that looks at the flag. */
  lemma SizedFillIsSafe(cfg: Config, b: Book, trades: seq<Trade>, makers: seq<Maker>, o: Order, q: Quote, barIndex: int,
                        m: Maker)
    requires Ledger(b, trades) && ReduceOnlySafe(trades, makers)
    requires Sized(b.entries, o).Some? && b.quotes.Some? && q.Quote?
    requires
      || (q == BarQuote(cfg, Sized(b.entries, o).value, b.quotes.value(o.security))
          && m == if o.kind == TwapMarket then Sliced else Whole)
      || (q == CloseQuote(cfg, Sized(b.entries, o).value, b.quotes.value(o.security)) && m == Whole)
    ensures ReduceOnlySafe(trades + [TradeOf(cfg, b, Sized(b.entries, o).value, q, barIndex)], makers + [m])
  {
    var t := TradeOf(cfg, b, Sized(b.entries, o).value, q, barIndex);
    assert t.reduceOnly == o.reduceOnly;
    if o.reduceOnly {
      SizedFillReduces(cfg, b, trades, o, q, barIndex, m);
    }
    hide *;
    SafeAppend(trades, makers, t, m);
  }

  /** The turn of one order in a sweep. */
  lemma TurnIsSafe(cfg: Config, b: Book, trades: seq<Trade>, makers: seq<Maker>, o: Order, barIndex: int)
    requires b.quotes.Some? && Ledger(b, trades) && ReduceOnlySafe(trades, makers)
    ensures var out := ExecuteOnBar(cfg, b, o, barIndex);
      ReduceOnlySafe(trades + FillsOf(out), makers + MakersOf(o, out))
  {
    hide Ledger;
    hide ReduceOnlySafe;
    hide BarQuote;
    hide TradeOf;
    hide Fill;
    var out := ExecuteOnBar(cfg, b, o, barIndex);
    if out.trade.Some? {
      var q := BarQuote(cfg, Sized(b.entries, o).value, b.quotes.value(o.security));
      SizedFillIsSafe(cfg, b, trades, makers, o, q, barIndex, if o.kind == TwapMarket then Sliced else Whole);
    } else {
      assert trades + [] == trades && makers + [] == makers;
    }
  }

  lemma SweepMakersAppend(cfg: Config, b: Book, front: seq<Order>, o: Order, barIndex: int)
    requires b.quotes.Some?
    ensures SweepMakers(cfg, b, front + [o], barIndex)
         == SweepMakers(cfg, b, front, barIndex)
            + MakersOf(o, ExecuteOnBar(cfg, Sweep(cfg, b, front, barIndex).book, o, barIndex))
  {
    hide ExecuteOnBar;
    hide Sweep;
    assert (front + [o])[..|front|] == front;
  }

  lemma {:induction false} SweepIsSafe(cfg: Config, b: Book, trades: seq<Trade>, makers: seq<Maker>, orders: seq<Order>,
                                       barIndex: int)
    requires b.quotes.Some? && Ledger(b, trades) && ReduceOnlySafe(trades, makers)
    ensures ReduceOnlySafe(trades + Sweep(cfg, b, orders, barIndex).fills,
                           makers + SweepMakers(cfg, b, orders, barIndex))
  {
    hide *;
    if orders == [] {
      EmptySweep(cfg, b, barIndex);
      NoMakers(cfg, b, barIndex);
      assert trades + [] == trades && makers + [] == makers;
    } else {
      var front, o := orders[..|orders| - 1], orders[|orders| - 1];
      assert orders == front + [o];
      var s := Sweep(cfg, b, front, barIndex);
      var made := SweepMakers(cfg, b, front, barIndex);
      SweepIsSafe(cfg, b, trades, makers, front, barIndex);
      SweepKeepsLedger(cfg, b, trades, front, barIndex);
      TurnIsSafe(cfg, s.book, trades + s.fills, makers + made, o, barIndex);
      SweepAppend(cfg, b, front, o, barIndex);
      SweepMakersAppend(cfg, b, front, o, barIndex);
      var out := ExecuteOnBar(cfg, s.book, o, barIndex);
      assert trades + (s.fills + FillsOf(out)) == (trades + s.fills) + FillsOf(out);
      assert makers + (made + MakersOf(o, out)) == (makers + made) + MakersOf(o, out);
    }
  }

  lemma NoMakers(cfg: Config, b: Book, barIndex: int)
    requires b.quotes.Some?
    ensures SweepMakers(cfg, b, [], barIndex) == []
  {
  }

  lemma ApplyIsSafe(cfg: Config, b: Book, makers: seq<Maker>, op: Op)
    requires Ledger(b, b.trades) && ReduceOnlySafe(b.trades, makers)
    ensures ReduceOnlySafe(Apply(cfg, b, op).trades, makers + OpMakers(cfg, b, op))
  {
    hide Ledger;
    hide ReduceOnlySafe;
    hide BarQuote;
    hide CloseQuote;
    hide StopNowQuote;
    hide Fill;
    assert makers + [] == makers;
    match op {
      case ProcessPending(barIndex) =>
        if b.quotes.Some? {
          SweepIsSafe(cfg, b, b.trades, makers, b.pending, barIndex);
          if b.pending != [] {
            hide Sweep;
            hide SweepMakers;
          }
        }
      case ExecuteOrderNow(o, barIndex) =>
        if ExecuteNow(cfg, b, o, barIndex).1.Some? {
          var sized := Sized(b.entries, o).value;
          SizedFillIsSafe(cfg, b, b.trades, makers, o, BarQuote(cfg, sized, b.quotes.value(o.security)), barIndex,
                          if o.kind == TwapMarket then Sliced else Whole);
        }
      case ExecuteOrderAtCloseNow(o, barIndex) =>
        if ExecuteAtClose(cfg, b, o, barIndex).1.Some? {
          var sized := Sized(b.entries, o).value;
          var q := CloseQuote(cfg, sized, b.quotes.value(o.security));
          SizedFillIsSafe(cfg, b, b.trades, makers, o, q, barIndex, Whole);
        }
      case ExecuteStopOrderNow(o, barIndex, extra) =>
        if ExecuteStop(cfg, b, o, barIndex, extra).1.Some? {
          SafeAppend(b.trades, makers, ExecuteStop(cfg, b, o, barIndex, extra).1.value, StopPath);
        }
      case _ =>
    }
  }

  /** Reduce-only safety over every run, without any restriction. Whatever fills come between an
      order's submission and its execution, in the same sweep or before it, and whatever the stop
      path does: every reduce-only trade of the other paths shrinks what the trades before it made of
      its entry, and leaves it exactly flat unless the order is sliced. */
  lemma {:induction false} RunReduces(cfg: Config, ops: seq<Op>)
    ensures ReduceOnlySafe(Run(cfg, Initial(cfg), ops).trades, Makers(cfg, ops))
  {
    if ops == [] {
    } else {
      var front := ops[..|ops| - 1];
      RunReduces(cfg, front);
      RunKeepsLedger(cfg, front);
      ApplyIsSafe(cfg, Run(cfg, Initial(cfg), front), Makers(cfg, front), ops[|ops| - 1]);
    }
  }

  /** In every reachable state, every reduce-only order of one ProcessPending reduces its entry. */
  lemma ProcessReduces(cfg: Config, ops: seq<Op>, barIndex: int)
    ensures var b := Run(cfg, Initial(cfg), ops);
      b.quotes.Some? ==> forall i :: 0 <= i < |b.pending| ==>
        TurnReduces(cfg, Sweep(cfg, b, b.pending[..i], barIndex).book, b.pending[i], barIndex)
  {
    var b := Run(cfg, Initial(cfg), ops);
    RunKeepsLedger(cfg, ops);
    if b.quotes.Some? {
      SweepReduces(cfg, b, b.trades, b.pending, barIndex);
    }
  }
}
