/**
 The state of the backtest broker as a value, and each of its operations as a function on that
 state (internal/backtest/broker.go). `Broker` in Broker.dfy is proved against these functions;
 what the broker promises is proved about them in Ledger.dfy, QueueLaws.dfy, PnlLaws.dfy, Twap.dfy
 and TwapReduce.dfy.
 */
module Books {
  import opened Basics
  import opened Market
  import opened Positions
  import opened Sums

  /** The price function of the current bar. */
  type Quotes = Security -> BarPrices

  datatype EntryKey = EntryKey(security: Security, entryID: string)

  datatype Book = Book(
    cash: real,
    positions: map<Security, Position>,
    entries: map<EntryKey, Position>,
    pending: seq<Order>,
    trades: seq<Trade>,
    nextOID: int,
    nextTID: int,
    quotes: Option<Quotes>)

  function Initial(cfg: Config): Book {
    Book(cfg.initialCapital, map[], map[], [], [], 1, 1, None)
  }

  function PositionOf(b: Book, s: Security): Position {
    GetOr(b.positions, s, FLAT)
  }

  function EntryOf(b: Book, k: EntryKey): Position {
    GetOr(b.entries, k, FLAT)
  }

  function KeyOf(o: Order): EntryKey { EntryKey(o.security, o.entryID) }

  /** What a reduce-only order may close: the whole of its entry, if it stands against it. */
  function ReducibleQuantity(entries: map<EntryKey, Position>, o: Order): Option<real> {
    var entry := GetOr(entries, KeyOf(o), FLAT);
    if o.entryID == "" || entry.qty == 0.0 then None
    else if (entry.qty > 0.0 && o.side != Sell) || (entry.qty < 0.0 && o.side != Buy) then None
    else Some(Abs(entry.qty))
  }

  /** The order at the size it would execute at now; None when it is reduce-only and may not. */
  function Sized(entries: map<EntryKey, Position>, o: Order): Option<Order> {
    if !o.reduceOnly then Some(o)
    else match ReducibleQuantity(entries, o)
      case Some(qty) => Some(o.(qty := qty, notional := 0.0))
      case None => None
  }

  /** The id of the first pending reduce-only order of the same entry. */
  function PendingReduceOnly(pending: seq<Order>, o: Order): Option<int> {
    if pending == [] then None
    else if pending[0].reduceOnly && KeyOf(pending[0]) == KeyOf(o) then Some(pending[0].id)
    else PendingReduceOnly(pending[1..], o)
  }

  function Submit(b: Book, o: Order): (Book, int) {
    match Sized(b.entries, o)
    case None => (b, 0)
    case Some(sized) =>
      var duplicate := if o.reduceOnly then PendingReduceOnly(b.pending, o) else None;
      match duplicate
      case Some(id) => (b, id)
      case None =>
        (b.(pending := b.pending + [sized.(id := b.nextOID)], nextOID := b.nextOID + 1), b.nextOID)
  }

  function Without(pending: seq<Order>, s: Security): seq<Order> {
    if pending == [] then []
    else
      var front := Without(pending[..|pending| - 1], s);
      var last := pending[|pending| - 1];
      if last.security != s then front + [last] else front
  }

  function Cancel(b: Book, s: Security): Book {
    b.(pending := Without(b.pending, s))
  }

  function ApplyTrade(b: Book, t: Trade): Book {
    var moved := b.(positions := b.positions[t.security := UpdatePosition(PositionOf(b, t.security), t)]);
    if t.entryID == "" then moved
    else
      var key := EntryKey(t.security, t.entryID);
      var entry := UpdatePosition(EntryOf(b, key), t);
      moved.(entries := if entry.qty == 0.0 then b.entries - {key} else b.entries[key := entry])
  }

  /** The trade that executing `o` on terms `q` records. */
  function TradeOf(cfg: Config, b: Book, o: Order, q: Quote, barIndex: int): Trade
    requires q.Quote?
  {
    Trade(b.nextTID, if o.id == 0 then b.nextOID else o.id, o.entryID, o.reduceOnly, o.security, o.side,
          q.qty, q.price, Commission(cfg, q.qty, q.price), Abs(q.price - q.reference), barIndex)
  }

  /** The common tail of the four execution paths: number the order and the trade, pay, book. */
  function Fill(cfg: Config, b: Book, o: Order, q: Quote, barIndex: int): (b': Book)
    requires q.Quote?
    ensures b'.quotes == b.quotes && b'.trades == b.trades && b'.pending == b.pending
  {
    var t := TradeOf(cfg, b, o, q, barIndex);
    var paid := b.(
      nextOID := if o.id == 0 then b.nextOID + 1 else b.nextOID,
      nextTID := b.nextTID + 1,
      cash := b.cash + CashDelta(cfg, PositionOf(b, o.security), t));
    ApplyTrade(paid, t)
  }

  datatype Outcome = Outcome(book: Book, trade: Option<Trade>, usable: bool)

  /** One order on one bar (executeOrderOnBar); the trade is not yet in the trade list. */
  function ExecuteOnBar(cfg: Config, b: Book, o: Order, barIndex: int): (out: Outcome)
    requires b.quotes.Some?
    ensures out.book.quotes == b.quotes && out.book.trades == b.trades && out.book.pending == b.pending
    ensures out.trade.Some? ==> out.usable
    ensures out.trade.None? ==> out.book == b
  {
    match Sized(b.entries, o)
    case None => Outcome(b, None, true)
    case Some(sized) =>
      match BarQuote(cfg, sized, b.quotes.value(o.security))
      case NoQuote(usable) => Outcome(b, None, usable)
      case Quote(qty, price, reference) =>
        var q := Quote(qty, price, reference);
        Outcome(Fill(cfg, b, sized, q, barIndex), Some(TradeOf(cfg, b, sized, q, barIndex)), true)
  }

  /** What is left of a TWAP order after the slice `t`; None when it is done. */
  function RestOfTwap(o: Order, t: Trade): Option<Order> {
    var total := if o.qty <= 0.0 && o.notional > 0.0 then t.qty * SlicesLeft(o) as real else o.qty;
    var notional := if o.qty <= 0.0 && o.notional > 0.0 then 0.0 else o.notional;
    var restQty := total - t.qty;
    var restBars := o.twapBars - 1;
    if restQty > 0.0 && restBars > 0 then Some(o.(qty := restQty, notional := notional, twapBars := restBars))
    else None
  }

  /** What stays in the queue of an order after its turn. */
  function KeptOrder(o: Order, out: Outcome): seq<Order> {
    match out.trade
    case None => [o]
    case Some(t) =>
      if o.kind != TwapMarket then []
      else match RestOfTwap(o, t)
        case Some(rest) => [rest]
        case None => []
  }

  function FillsOf(out: Outcome): seq<Trade> {
    match out.trade
    case None => []
    case Some(t) => [t]
  }

  datatype Swept = Swept(book: Book, fills: seq<Trade>, remaining: seq<Order>)

  /** The loop of ProcessPending over the first orders of the queue. */
  function Sweep(cfg: Config, b: Book, orders: seq<Order>, barIndex: int): (s: Swept)
    requires b.quotes.Some?
    ensures s.book.quotes == b.quotes && s.book.trades == b.trades && s.book.pending == b.pending
  {
    if orders == [] then Swept(b, [], [])
    else
      var s := Sweep(cfg, b, orders[..|orders| - 1], barIndex);
      var o := orders[|orders| - 1];
      var out := ExecuteOnBar(cfg, s.book, o, barIndex);
      Swept(out.book, s.fills + FillsOf(out), s.remaining + KeptOrder(o, out))
  }

  function Process(cfg: Config, b: Book, barIndex: int): (Book, seq<Trade>) {
    if b.quotes.None? || b.pending == [] then (b, [])
    else
      var s := Sweep(cfg, b, b.pending, barIndex);
      (s.book.(pending := s.remaining, trades := b.trades + s.fills), s.fills)
  }

  /** Append the trade of an immediate execution. */
  function Recorded(cfg: Config, b: Book, o: Order, q: Quote, barIndex: int): (Book, Option<Trade>) {
    match q
    case NoQuote(_) => (b, None)
    case Quote(_, _, _) =>
      var t := TradeOf(cfg, b, o, q, barIndex);
      (Fill(cfg, b, o, q, barIndex).(trades := b.trades + [t]), Some(t))
  }

  function ExecuteNow(cfg: Config, b: Book, o: Order, barIndex: int): (Book, Option<Trade>) {
    match (b.quotes, Sized(b.entries, o))
    case (Some(quotes), Some(sized)) => Recorded(cfg, b, sized, BarQuote(cfg, sized, quotes(o.security)), barIndex)
    case _ => (b, None)
  }

  function ExecuteAtClose(cfg: Config, b: Book, o: Order, barIndex: int): (Book, Option<Trade>) {
    match (b.quotes, Sized(b.entries, o))
    case (Some(quotes), Some(sized)) => Recorded(cfg, b, sized, CloseQuote(cfg, sized, quotes(o.security)), barIndex)
    case _ => (b, None)
  }

  /** The stop path does not look at `reduceOnly`. */
  function ExecuteStop(cfg: Config, b: Book, o: Order, barIndex: int, extra: real): (Book, Option<Trade>) {
    match b.quotes
    case None => (b, None)
    case Some(quotes) => Recorded(cfg, b, o, StopNowQuote(cfg, o, quotes(o.security), extra), barIndex)
  }

  function Adjust(b: Book, amount: real): Book {
    b.(cash := b.cash + amount)
  }

  function WorthIn(cfg: Config, b: Book, s: Security): real {
    match b.quotes
    case None => 0.0
    case Some(quotes) => Worth(cfg, s, PositionOf(b, s), quotes(s))
  }

  ghost function Worths(cfg: Config, b: Book): map<Security, real> {
    map s | s in b.positions :: WorthIn(cfg, b, s)
  }

  /** Cash plus the market value of all positions. */
  ghost function Equity(cfg: Config, b: Book): real {
    b.cash + Total(Worths(cfg, b))
  }

  /** Unrealized PnL of one position: in the base asset it is what the position is worth. */
  function UnrealizedIn(cfg: Config, b: Book, s: Security): real {
    match b.quotes
    case None => 0.0
    case Some(quotes) =>
      var p := PositionOf(b, s);
      var mark := MarkPrice(cfg, p.qty, quotes(s));
      if p.qty == 0.0 || !ValidPrice(mark) then 0.0
      else if UsesBaseAsset(cfg, s) then Unrealized(p, mark) / mark
      else Unrealized(p, mark)
  }

  ghost function UnrealizedPnL(cfg: Config, b: Book): real {
    Total(map s | s in b.positions :: UnrealizedIn(cfg, b, s))
  }

  ghost function RealizedPnL(b: Book): real {
    Total(map s | s in b.positions :: b.positions[s].realized)
  }
}
