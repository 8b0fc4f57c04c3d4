/**
 Reduce-only TWAP orders over whole runs. On every filling bar such an order closes an equal part of
 what its entry holds by then, while the queue counts down the quantity it was submitted with. The two
 differ when other fills move the entry in between.
 */
module TwapReduce {
  import opened Basics
  import opened Market
  import opened Positions
  import opened Sums
  import opened Books
  import opened Ledgers
  import opened QueueLaws
  import opened Twap

  /** A reduce-only TWAP order in the queue, where it has been sized to its entry. */
  predicate Reducing(o: Order) {
    o.kind == TwapMarket && o.reduceOnly && o.id != 0 && o.qty > 0.0
  }

  /** What the queue counts as unfilled. */
  function Counted(o: Order, done: seq<Trade>): real {
    o.qty - Sum(done, QtyOf())
  }

  predicate Waits(o: Order, done: seq<Trade>) {
    |done| < SlicesLeft(o) && Counted(o, done) > 0.0
  }

  /** The order in the queue after it has filled `done`. */
  function RestOf(o: Order, done: seq<Trade>): Order {
    if done == [] then o else o.(qty := Counted(o, done), twapBars := SlicesLeft(o) - |done|)
  }

  /** What the trades make of the entry of the order. */
  function EntryQty(trades: seq<Trade>, o: Order): real {
    Sum(trades, OnEntry(KeyOf(o)))
  }

  /** After the trades `before`, the order waits with m slices and `t` closes one m-th of its entry. */
  predicate TakesShare(before: seq<Trade>, t: Trade, o: Order) {
    var done := ById(before, o.id);
    && Waits(o, done)
    && EntryKey(t.security, t.entryID) == KeyOf(o)
    && EntryQty(before, o) != 0.0
    && t.qty == Abs(EntryQty(before, o)) / (SlicesLeft(o) - |done|) as real
    && t.side == (if EntryQty(before, o) > 0.0 then Sell else Buy)
  }

  predicate Shared(trades: seq<Trade>, o: Order) {
    forall i :: 0 <= i < |trades| && trades[i].orderID == o.id ==> TakesShare(trades[..i], trades[i], o)
  }

  /** Every fill of the order took its share, and it waits while it has a slice left and counts
      something unfilled. */
  predicate OnReducingPlan(b: Book, o: Order) {
    var done := ById(b.trades, o.id);
    && (if Waits(o, done) then RestOf(o, done) in b.pending else o.id !in OrderIds(b.pending))
    && Shared(b.trades, o)
    && o.id < b.nextOID
  }

  // ---- One turn ----

  lemma CountedAppend(o: Order, done: seq<Trade>, t: Trade)
    ensures Counted(o, done + [t]) == Counted(o, done) - t.qty
  {
    SumAppend(done, t, QtyOf());
    hide Sum;
  }

  lemma CountedFirst(o: Order)
    ensures Counted(o, []) == o.qty
  {
  }

  lemma KeptRest(o: Order, done: seq<Trade>, t: Trade)
    requires Reducing(o) && Waits(o, done)
    ensures RestOfTwap(RestOf(o, done), t)
         == (if Waits(o, done + [t]) then Some(RestOf(o, done + [t])) else None)
  {
    CountedAppend(o, done, t);
    CountedFirst(o);
    hide Counted;
  }

  /** The slice of a sized order. */
  lemma ShareQuantity(cfg: Config, b: Book, o: Order, barIndex: int)
    requires b.quotes.Some? && o.reduceOnly && o.kind == TwapMarket && ExecuteOnBar(cfg, b, o, barIndex).trade.Some?
    ensures var entry, t := EntryOf(b, KeyOf(o)).qty, ExecuteOnBar(cfg, b, o, barIndex).trade.value;
      && o.entryID != "" && entry != 0.0
      && t.qty == Abs(entry) / SlicesLeft(o) as real
      && t.side == (if entry > 0.0 then Sell else Buy)
      && EntryKey(t.security, t.entryID) == KeyOf(o)
  {
    var sized := Sized(b.entries, o).value;
    TwapQuoteQty(cfg, sized, b.quotes.value(o.security));
    hide BarQuote;
    hide Fill;
    hide Commission;
  }

  lemma RestKeeps(o: Order, done: seq<Trade>)
    requires Reducing(o) && Waits(o, done)
    ensures var w := RestOf(o, done);
      && KeyOf(w) == KeyOf(o) && w.id == o.id && w.reduceOnly && w.kind == TwapMarket && w.entryID == o.entryID
      && SlicesLeft(w) == SlicesLeft(o) - |done|
  {
  }

  lemma EntryOfLedger(b: Book, trades: seq<Trade>, k: EntryKey)
    requires Ledger(b, trades) && k.entryID != ""
    ensures EntryOf(b, k).qty == Sum(trades, OnEntry(k))
  {
    hide Sum;
  }

  /** The turn of a waiting order on the state its predecessors left. */
  lemma ShareTurn(cfg: Config, b: Book, trades: seq<Trade>, o: Order, barIndex: int)
    requires b.quotes.Some? && Ledger(b, trades) && Reducing(o) && Waits(o, ById(trades, o.id))
    requires ExecuteOnBar(cfg, b, RestOf(o, ById(trades, o.id)), barIndex).trade.Some?
    ensures TakesShare(trades, ExecuteOnBar(cfg, b, RestOf(o, ById(trades, o.id)), barIndex).trade.value, o)
  {
    hide ExecuteOnBar;
    hide Ledger;
    hide ById;
    hide Sum;
    hide Counted;
    var done := ById(trades, o.id);
    var w := RestOf(o, done);
    RestKeeps(o, done);
    ShareQuantity(cfg, b, w, barIndex);
    hide RestOf;
    hide Waits;
    hide SlicesLeft;
    EntryOfLedger(b, trades, KeyOf(o));
  }

  lemma KeptOfTurn(cfg: Config, b: Book, o: Order, done: seq<Trade>, barIndex: int)
    requires b.quotes.Some? && Reducing(o) && Waits(o, done)
    ensures var w := RestOf(o, done);
      var out := ExecuteOnBar(cfg, b, w, barIndex);
      KeptOrder(w, out) == (if Waits(o, done + FillsOf(out)) then [RestOf(o, done + FillsOf(out))] else [])
  {
    hide RestOfTwap;
    hide ExecuteOnBar;
    RestKeeps(o, done);
    var out := ExecuteOnBar(cfg, b, RestOf(o, done), barIndex);
    if out.trade.Some? {
      KeptRest(o, done, out.trade.value);
    } else {
      assert done + [] == done;
    }
  }

  // ---- Every operation ----

  lemma SharedAppend(trades: seq<Trade>, more: seq<Trade>, o: Order)
    requires Shared(trades, o)
    requires forall i :: 0 <= i < |more| && more[i].orderID == o.id ==> TakesShare(trades + more[..i], more[i], o)
    ensures Shared(trades + more, o)
  {
    hide TakesShare;
    var all := trades + more;
    forall i | 0 <= i < |all| && all[i].orderID == o.id
      ensures TakesShare(all[..i], all[i], o)
    {
      if i < |trades| {
        assert all[..i] == trades[..i];
      } else {
        assert all[..i] == trades + more[..i - |trades|];
      }
    }
  }

  lemma QuietKeepsReducing(b: Book, b': Book, o: Order)
    requires OnReducingPlan(b, o) && Quiet(b, b', o)
    ensures OnReducingPlan(b', o)
  {
    QuietTrades(b, b', o);
    hide ById;
    hide TakesShare;
    hide Waits;
    hide Counted;
    var more := b'.trades[|b.trades|..];
    assert b'.trades == b.trades + more;
    assert forall i :: 0 <= i < |more| ==> more[i].orderID in FilledIds(more);
    SharedAppend(b.trades, more, o);
  }

  /** In a sweep at most one fill carries the id of an order. */
  lemma OneFill(fills: seq<Trade>, i: int, j: int)
    requires FillsInOrder(fills) && 0 <= i < |fills| && 0 <= j < |fills| && fills[i].orderID == fills[j].orderID
    ensures i == j
  {
  }

  lemma SweepFillsInOrder(cfg: Config, b: Book, orders: seq<Order>, barIndex: int)
    requires b.quotes.Some? && Queued(orders, b.nextOID)
    ensures FillsInOrder(Sweep(cfg, b, orders, barIndex).fills)
  {
    SweepAccounts(cfg, b, orders, barIndex);
  }

  lemma BeforeTurn(fills: seq<Trade>, before: seq<Trade>, t: Trade)
    requires FillsInOrder(fills) && before + [t] <= fills
    ensures ById(before, t.orderID) == [] && fills[|before|] == t
  {
    forall i | 0 <= i < |before|
      ensures before[i].orderID != t.orderID
    {
      assert before[i] == fills[i] && fills[|before|] == t;
    }
    ByIdNone(before, t.orderID);
  }

  /** The fills of a sweep take their share, if the turn of the order does. */
  lemma SweepShares(trades: seq<Trade>, fills: seq<Trade>, before: seq<Trade>, filled: seq<Trade>, o: Order)
    requires Shared(trades, o) && FillsInOrder(fills) && before + filled <= fills
    requires filled == [] ==> o.id !in FilledIds(fills)
    requires filled != [] ==>
      |filled| == 1 && filled[0].orderID == o.id && TakesShare(trades + before, filled[0], o)
    ensures Shared(trades + fills, o)
  {
    hide TakesShare;
    forall i | 0 <= i < |fills| && fills[i].orderID == o.id
      ensures TakesShare(trades + fills[..i], fills[i], o)
    {
      assert fills[i].orderID in FilledIds(fills);
      assert filled == [filled[0]];
      assert (before + filled)[|before|] == fills[|before|] == filled[0];
      OneFill(fills, i, |before|);
      assert fills[..i] == before;
    }
    SharedAppend(trades, fills, o);
  }

  lemma {:induction false} ByIdSome(trades: seq<Trade>, id: int)
    requires ById(trades, id) == []
    ensures id !in FilledIds(trades)
  {
    if trades == [] {
    } else {
      var front, t := trades[..|trades| - 1], trades[|trades| - 1];
      assert trades == front + [t];
      ByIdSome(front, id);
      FilledIdsAppend(front, t);
    }
  }

  /** The turn of the order in a sweep, and what it leaves. */
  lemma SweepKeepsReducing(cfg: Config, b: Book, o: Order, barIndex: int)
    requires Queued(b.pending, b.nextOID) && Ledger(b, b.trades) && Reducing(o) && b.quotes.Some?
    requires OnReducingPlan(b, o) && Waits(o, ById(b.trades, o.id))
    ensures var s := Sweep(cfg, b, b.pending, barIndex);
      && Shared(b.trades + s.fills, o)
      && ById(b.trades + s.fills, o.id) == ById(b.trades, o.id) + ById(s.fills, o.id)
      && var done := ById(b.trades, o.id) + ById(s.fills, o.id);
         (if Waits(o, done) then RestOf(o, done) in s.remaining else o.id !in OrderIds(s.remaining))
  {
    var done := ById(b.trades, o.id);
    var w := RestOf(o, done);
    assert w in b.pending && Shared(b.trades, o);
    hide *;
    RestKeeps(o, done);
    var s := Sweep(cfg, b, b.pending, barIndex);
    var i, out := SweepTurn(cfg, b, b.pending, w, barIndex);
    var at := Sweep(cfg, b, b.pending[..i], barIndex);
    SweepKeepsLedger(cfg, b, b.trades, b.pending[..i], barIndex);
    SweepFillsInOrder(cfg, b, b.pending, barIndex);
    ByIdConcat(b.trades, s.fills, o.id);
    TurnIsPlaced(s, w, out);
    KeptOfTurn(cfg, at.book, o, done, barIndex);
    FillsOfTurn(out);
    if out.trade.Some? {
      var t := out.trade.value;
      IdIsPositive(b.pending, b.nextOID, w);
      TurnOfOrder(cfg, at.book, w, barIndex);
      BeforeTurn(s.fills, at.fills, t);
      ByIdConcat(b.trades, at.fills, o.id);
      assert done + [] == done;
      ShareTurn(cfg, at.book, b.trades + at.fills, o, barIndex);
    } else {
      ByIdSome(s.fills, o.id);
    }
    SweepShares(b.trades, s.fills, at.fills, FillsOf(out), o);
  }

  lemma BarKeepsReducing(cfg: Config, b: Book, o: Order, barIndex: int)
    requires Queued(b.pending, b.nextOID) && Ledger(b, b.trades) && Reducing(o) && OnReducingPlan(b, o)
    requires b.quotes.Some?
    ensures OnReducingPlan(Process(cfg, b, barIndex).0, o)
  {
    if Waits(o, ById(b.trades, o.id)) {
      SweepKeepsReducing(cfg, b, o, barIndex);
      SweepIds(cfg, b, b.pending, barIndex);
      ProcessSettles(cfg, b, barIndex);
      hide Sweep;
      hide Process;
      hide ById;
      hide Shared;
      hide Waits;
    } else {
      hide Process;
      hide ById;
      BarIsQuiet(cfg, b, o, barIndex);
      QuietKeepsReducing(b, Process(cfg, b, barIndex).0, o);
    }
  }

  lemma ApplyKeepsReducing(cfg: Config, b: Book, op: Op, o: Order)
    requires Queued(b.pending, b.nextOID) && Ledger(b, b.trades) && Reducing(o) && OnReducingPlan(b, o)
    requires LeavesAlone(op, o)
    ensures OnReducingPlan(Apply(cfg, b, op), o)
  {
    if op.ProcessPending? && b.quotes.Some? {
      BarKeepsReducing(cfg, b, o, op.barIndex);
    } else {
      OpIsQuiet(cfg, b, op, o);
      QuietKeepsReducing(b, Apply(cfg, b, op), o);
    }
  }

  lemma FirstReducing(b: Book, o: Order)
    requires Queued(b.pending, b.nextOID) && Reducing(o) && o in b.pending && o.id !in FilledIds(b.trades)
    ensures OnReducingPlan(b, o) && ById(b.trades, o.id) == []
  {
    ByIdNone(b.trades, o.id);
    hide ById;
    assert forall i :: 0 <= i < |b.trades| ==> b.trades[i].orderID in FilledIds(b.trades);
  }

  /** Over every run from any sound state in which a fresh reduce-only TWAP order waits, with any
      operations that leave the order alone and any fills of its entry: each fill of the order closes
      the m-th part of what the trades before it made of the entry, where m is the number of slices it
      had left, and it waits exactly while it has a slice left and its fills have not reached the
      quantity it was submitted with. */
  lemma {:induction false} RunKeepsReducing(cfg: Config, b: Book, ops: seq<Op>, o: Order)
    requires Queued(b.pending, b.nextOID) && Ledger(b, b.trades)
    requires Reducing(o) && o in b.pending && o.id !in FilledIds(b.trades)
    requires forall i :: 0 <= i < |ops| ==> LeavesAlone(ops[i], o)
    ensures var b' := Run(cfg, b, ops);
      OnReducingPlan(b', o) && Queued(b'.pending, b'.nextOID) && Ledger(b', b'.trades)
  {
    hide OnReducingPlan;
    hide Ledger;
    hide Apply;
    if ops == [] {
      FirstReducing(b, o);
    } else {
      var front, op := ops[..|ops| - 1], ops[|ops| - 1];
      RunKeepsReducing(cfg, b, front, o);
      assert LeavesAlone(ops[|ops| - 1], o);
      hide Queued;
      ApplyKeepsReducing(cfg, Run(cfg, b, front), op, o);
      ApplyKeepsLedger(cfg, Run(cfg, b, front), op);
      ApplyKeepsQueue(cfg, Run(cfg, b, front), op);
    }
  }

  // ---- When it leaves its entry flat ----

  lemma PartOfNothing(x: real, n: nat)
    requires n >= 1 && x > 0.0
    ensures x / n as real <= x && (x / n as real == x <==> n == 1)
  {
    assert x / n as real * n as real == x;
  }

  /** A fill of the order brings the entry towards zero by its quantity, and leaves it exactly flat if
      and only if it is the N-th. */
  lemma FlatIffLast(trades: seq<Trade>, t: Trade, o: Order)
    requires TakesShare(trades, t, o)
    ensures var entry := EntryQty(trades + [t], o);
      && Abs(entry) == Abs(EntryQty(trades, o)) - t.qty
      && t.qty > 0.0
      && (entry == 0.0 <==> |ById(trades, o.id)| + 1 == SlicesLeft(o))
  {
    hide ById;
    hide Waits;
    SumAppend(trades, t, OnEntry(KeyOf(o)));
    hide Sum;
    var n := SlicesLeft(o) - |ById(trades, o.id)|;
    assert n >= 1 by { WaitsHasSlice(o, ById(trades, o.id)); }
    SliceIsPart(Abs(EntryQty(trades, o)), n);
    PartOfNothing(Abs(EntryQty(trades, o)), n);
  }

  lemma WaitsHasSlice(o: Order, done: seq<Trade>)
    requires Waits(o, done)
    ensures |done| < SlicesLeft(o)
  {
  }

  lemma ByIdAppend(trades: seq<Trade>, t: Trade, id: int)
    ensures ById(trades + [t], id) == if t.orderID == id then ById(trades, id) + [t] else ById(trades, id)
  {
    assert (trades + [t])[..|trades|] == trades;
  }

  /** The last fill of an order. */
  lemma {:induction false} LastFill(trades: seq<Trade>, id: int) returns (i: nat)
    requires ById(trades, id) != []
    ensures i < |trades| && trades[i].orderID == id
    ensures ById(trades[..i + 1], id) == ById(trades, id)
    ensures ById(trades, id) == ById(trades[..i], id) + [trades[i]]
  {
    var front, t := trades[..|trades| - 1], trades[|trades| - 1];
    assert trades == front + [t];
    ByIdAppend(front, t, id);
    if t.orderID == id {
      i := |front|;
      assert trades[..i + 1] == trades;
    } else {
      i := LastFill(front, id);
      assert front[..i] == trades[..i] && front[..i + 1] == trades[..i + 1];
    }
  }

  lemma EntryOfTurn(cfg: Config, b: Book, o: Order, barIndex: int)
    requires Sound(EntryOf(b, KeyOf(o))) && b.quotes.Some? && Reducing(o)
    requires ExecuteOnBar(cfg, b, o, barIndex).trade.Some?
    ensures var out := ExecuteOnBar(cfg, b, o, barIndex);
      EntryOf(out.book, KeyOf(o)).qty == EntryOf(b, KeyOf(o)).qty + out.trade.value.Signed()
  {
    var sized := Sized(b.entries, o).value;
    var bp := b.quotes.value(o.security);
    QuoteIsValid(cfg, sized, bp, 0.0);
    FillMovesEntry(cfg, b, sized, BarQuote(cfg, sized, bp), barIndex);
    hide BarQuote;
    hide Fill;
    hide Commission;
    hide Sound;
  }

  lemma KeptFirst(o: Order, out: Outcome)
    requires Reducing(o) && out.trade.Some?
    ensures KeptOrder(o, out) == [] <==> SlicesLeft(o) == 1 || o.qty <= out.trade.value.qty
  {
    var t := out.trade.value;
    CountedFirst(o);
    CountedAppend(o, [], t);
    assert [] + [t] == [t];
    KeptRest(o, [], t);
    hide Counted;
    hide RestOfTwap;
  }

  lemma PartCloses(entry: real, t: Trade, n: nat)
    requires n >= 1 && entry != 0.0 && t.qty == Abs(entry) / n as real
    requires t.side == (if entry > 0.0 then Sell else Buy)
    ensures Abs(entry + t.Signed()) == Abs(entry) - t.qty
    ensures entry + t.Signed() == 0.0 <==> n == 1
  {
    PartOfNothing(Abs(entry), n);
  }

  lemma TimesPart(x: real, y: real, n: nat)
    requires n >= 1
    ensures y <= x / n as real <==> n as real * y <= x
  {
    assert x / n as real * n as real == x;
  }

  lemma ReducingMeans(o: Order)
    requires Reducing(o)
    ensures o.reduceOnly && o.kind == TwapMarket
  {
  }

  /** One turn, in any state with a sound entry: a slice of an order with m slices left flattens the
      entry if and only if m is 1, and the order is dropped with the entry still open if and only if m is
      more and the entry holds at least m times what the queue still counts. */
  lemma DroppedOpenIff(cfg: Config, b: Book, o: Order, barIndex: int)
    requires Sound(EntryOf(b, KeyOf(o))) && b.quotes.Some? && Reducing(o)
    requires ExecuteOnBar(cfg, b, o, barIndex).trade.Some?
    ensures var out := ExecuteOnBar(cfg, b, o, barIndex);
      var before, after := EntryOf(b, KeyOf(o)).qty, EntryOf(out.book, KeyOf(o)).qty;
      && Abs(after) == Abs(before) - Abs(before) / SlicesLeft(o) as real
      && (after == 0.0 <==> SlicesLeft(o) == 1)
      && (KeptOrder(o, out) == [] && after != 0.0 <==>
            SlicesLeft(o) > 1 && SlicesLeft(o) as real * o.qty <= Abs(before))
  {
    hide *;
    ReducingMeans(o);
    var out := ExecuteOnBar(cfg, b, o, barIndex);
    var before := EntryOf(b, KeyOf(o)).qty;
    EntryOfTurn(cfg, b, o, barIndex);
    ShareQuantity(cfg, b, o, barIndex);
    KeptFirst(o, out);
    PartCloses(before, out.trade.value, SlicesLeft(o));
    TimesPart(Abs(before), o.qty, SlicesLeft(o));
  }

  /** An order that has left the queue left its entry flat if and only if it filled all its N slices;
      otherwise it was dropped early, because what it closed reached the quantity it was submitted
      with. `i` is its last fill. */
  lemma LeavesFlatIff(b: Book, o: Order) returns (i: nat)
    requires Reducing(o) && OnReducingPlan(b, o) && o.id !in OrderIds(b.pending)
    ensures i < |b.trades| && b.trades[i].orderID == o.id && ById(b.trades[..i + 1], o.id) == ById(b.trades, o.id)
    ensures var done := ById(b.trades, o.id);
      && |done| <= SlicesLeft(o)
      && (EntryQty(b.trades[..i + 1], o) == 0.0 <==> |done| == SlicesLeft(o))
      && (EntryQty(b.trades[..i + 1], o) != 0.0 ==> Sum(done, QtyOf()) >= o.qty)
  {
    var done := ById(b.trades, o.id);
    CountedFirst(o);
    LeftIsDone(b, o);
    hide ById;
    hide Sum;
    i := LastFill(b.trades, o.id);
    var before := b.trades[..i];
    assert TakesShare(before, b.trades[i], o);
    assert b.trades[..i + 1] == before + [b.trades[i]];
    FlatIffLast(before, b.trades[i], o);
    WaitsHasSlice(o, ById(before, o.id));
  }

  lemma LeftIsDone(b: Book, o: Order)
    requires Reducing(o) && OnReducingPlan(b, o) && o.id !in OrderIds(b.pending)
    ensures !Waits(o, ById(b.trades, o.id))
  {
    hide ById;
    hide Shared;
    hide OrderIds;
    var done := ById(b.trades, o.id);
    if Waits(o, done) {
      RestKeeps(o, done);
      hide Waits;
      hide RestOf;
      PendingId(b.pending, RestOf(o, done));
    }
  }

  lemma PendingId(orders: seq<Order>, o: Order)
    requires o in orders
    ensures o.id in OrderIds(orders)
  {
  }

  /** No other fill from trade `from` on enlarges the entry of the order. */
  predicate NeverGrows(trades: seq<Trade>, from: nat, o: Order) {
    forall i :: from <= i < |trades| && trades[i].orderID != o.id ==>
      Abs(EntryQty(trades[..i + 1], o)) <= Abs(EntryQty(trades[..i], o))
  }

  /** The entry holds no more than the order counts, and more than nothing is counted until the last
      slice. */
  predicate Covered(trades: seq<Trade>, o: Order) {
    var done := ById(trades, o.id);
    && Abs(EntryQty(trades, o)) <= Counted(o, done)
    && (|done| < SlicesLeft(o) ==> Counted(o, done) > 0.0)
  }

  lemma ShareKeepsCovered(trades: seq<Trade>, t: Trade, o: Order)
    requires Covered(trades, o) && TakesShare(trades, t, o) && t.orderID == o.id
    ensures Covered(trades + [t], o)
  {
    FlatIffLast(trades, t, o);
    ByIdAppend(trades, t, o.id);
    CountedAppend(o, ById(trades, o.id), t);
    hide ById;
    hide EntryQty;
    hide Counted;
  }

  lemma OtherKeepsCovered(trades: seq<Trade>, t: Trade, o: Order)
    requires Covered(trades, o) && t.orderID != o.id
    requires Abs(EntryQty(trades + [t], o)) <= Abs(EntryQty(trades, o))
    ensures Covered(trades + [t], o)
  {
    ByIdAppend(trades, t, o.id);
    hide ById;
    hide EntryQty;
    hide Counted;
  }

  lemma {:induction false} StaysCovered(trades: seq<Trade>, from: nat, n: nat, o: Order)
    requires from <= n <= |trades| && Shared(trades, o) && NeverGrows(trades, from, o)
    requires Covered(trades[..from], o)
    ensures Covered(trades[..n], o)
    decreases n
  {
    hide Covered;
    hide TakesShare;
    hide EntryQty;
    if n == from {
    } else {
      var front, t := trades[..n - 1], trades[n - 1];
      StaysCovered(trades, from, n - 1, o);
      assert trades[..n - 1 + 1] == front + [t] == trades[..n];
      if t.orderID == o.id {
        ShareKeepsCovered(front, t, o);
      } else {
        OtherKeepsCovered(front, t, o);
      }
    }
  }

  lemma FirstCovered(trades: seq<Trade>, o: Order)
    requires Reducing(o) && ById(trades, o.id) == [] && Abs(EntryQty(trades, o)) <= o.qty
    ensures Covered(trades, o)
  {
    CountedFirst(o);
    hide ById;
    hide EntryQty;
    hide Counted;
  }

  lemma CoveredFillsAll(trades: seq<Trade>, o: Order)
    requires Covered(trades, o) && !Waits(o, ById(trades, o.id))
    ensures |ById(trades, o.id)| >= SlicesLeft(o)
  {
    hide ById;
    hide EntryQty;
    hide Counted;
  }

  lemma ApplyAppends(cfg: Config, b: Book, op: Op)
    ensures b.trades <= Apply(cfg, b, op).trades
  {
    hide Sweep;
    hide PendingReduceOnly;
    hide Without;
    hide BarQuote;
    hide CloseQuote;
    hide StopNowQuote;
    hide Fill;
    hide TradeOf;
  }

  lemma {:induction false} RunAppends(cfg: Config, b: Book, ops: seq<Op>)
    ensures b.trades <= Run(cfg, b, ops).trades
  {
    hide Apply;
    if ops == [] {
    } else {
      RunAppends(cfg, b, ops[..|ops| - 1]);
      ApplyAppends(cfg, Run(cfg, b, ops[..|ops| - 1]), ops[|ops| - 1]);
    }
  }

  lemma PlanOfBook(b: Book, o: Order)
    requires OnReducingPlan(b, o)
    ensures Shared(b.trades, o)
  {
  }

  /** If no other fill enlarges the entry while the order waits, and the order was sized for all of it,
      then over every run it leaves the queue only with its N-th slice, and its entry exactly flat. */
  lemma RunLeavesFlat(cfg: Config, b: Book, ops: seq<Op>, o: Order) returns (i: nat)
    requires Queued(b.pending, b.nextOID) && Ledger(b, b.trades)
    requires Reducing(o) && o in b.pending && o.id !in FilledIds(b.trades)
    requires Abs(EntryQty(b.trades, o)) <= o.qty
    requires forall j :: 0 <= j < |ops| ==> LeavesAlone(ops[j], o)
    requires NeverGrows(Run(cfg, b, ops).trades, |b.trades|, o)
    requires o.id !in OrderIds(Run(cfg, b, ops).pending)
    ensures var trades := Run(cfg, b, ops).trades;
      && i < |trades| && trades[i].orderID == o.id && ById(trades[..i + 1], o.id) == ById(trades, o.id)
      && |ById(trades, o.id)| == SlicesLeft(o)
      && EntryQty(trades[..i + 1], o) == 0.0
  {
    hide *;
    var b' := Run(cfg, b, ops);
    RunKeepsReducing(cfg, b, ops, o);
    RunAppends(cfg, b, ops);
    assert b'.trades[..|b.trades|] == b.trades && b'.trades[..|b'.trades|] == b'.trades;
    FirstReducing(b, o);
    FirstCovered(b.trades, o);
    PlanOfBook(b', o);
    StaysCovered(b'.trades, |b.trades|, |b'.trades|, o);
    LeftIsDone(b', o);
    CoveredFillsAll(b'.trades, o);
    i := LeavesFlatIff(b', o);
  }

  /** A submitted reduce-only order is sized for all of its entry. */
  lemma SubmitCovers(b: Book, o: Order)
    requires Ledger(b, b.trades) && o.reduceOnly && Submit(b, o).0 != b
    ensures var b' := Submit(b, o).0;
      var queued := o.(id := b.nextOID, qty := Abs(EntryQty(b.trades, o)), notional := 0.0);
      b'.trades == b.trades && b'.pending == b.pending + [queued] && queued.qty > 0.0
  {
    hide PendingReduceOnly;
    hide Ledger;
    EntryOfLedger(b, b.trades, KeyOf(o));
  }
}
