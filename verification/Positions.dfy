/**
 Average-cost position keeping (internal/backtest/position.go) and what a fill does to the account
 through one position (`tradeCashDelta` and the marking code of internal/backtest/broker.go).
 */
module Positions {
  import opened Basics
  import opened Market

  /** `qty` is positive for a long position and negative for a short one. */
  datatype Position = Position(qty: real, avgEntry: real, realized: real, costBasis: real)

  const FLAT := Position(0.0, 0.0, 0.0, 0.0)

  /** What every position reached by fills satisfies. */
  predicate Sound(p: Position) {
    if p.qty == 0.0 then p.avgEntry == 0.0 && p.costBasis == 0.0
    else ValidPrice(p.avgEntry) && p.costBasis == p.avgEntry * Abs(p.qty)
  }

  lemma FlatIsSound()
    ensures Sound(FLAT)
  {
  }

  predicate ValidTrade(t: Trade) {
    ValidQuantity(t.qty) && ValidPrice(t.fillPrice)
  }

  predicate SameSign(a: real, b: real) {
    (a > 0.0 && b > 0.0) || (a < 0.0 && b < 0.0)
  }

  /** Adding to a position: the average entry is the quotient of the costs and the quantities. */
  function AddTo(p: Position, fill: real, price: real): Position
    requires SameSign(p.qty, fill)
  {
    var cost := p.costBasis + price * Abs(fill);
    var qty := p.qty + fill;
    p.(qty := qty, costBasis := cost, avgEntry := cost / Abs(qty))
  }

  function ClosedQty(p: Position, fill: real): real {
    Min(Abs(fill), Abs(p.qty))
  }

  /** The quote PnL of the quantity that a fill closes. */
  function ClosingGain(p: Position, fill: real, price: real): real {
    var closed := ClosedQty(p, fill);
    if p.qty > 0.0 then closed * (price - p.avgEntry) else closed * (p.avgEntry - price)
  }

  /** Reducing, closing or reversing a position. */
  function ReduceBy(p: Position, fill: real, price: real): Position {
    var closed := ClosedQty(p, fill);
    var rest := Abs(p.qty) - closed;
    var excess := Abs(fill) - closed;
    var realized := p.realized + ClosingGain(p, fill, price);
    if rest > 0.0 then
      Position(if p.qty > 0.0 then rest else -rest, p.avgEntry, realized, p.avgEntry * rest)
    else if excess > 0.0 then
      Position(if fill > 0.0 then excess else -excess, price, realized, price * excess)
    else
      Position(0.0, 0.0, realized, 0.0)
  }

  /** Average cost on adds, average kept on reductions, reset to the fill price on a reversal. */
  function UpdatePosition(p: Position, t: Trade): Position {
    var fill := t.Signed();
    if p.qty == 0.0 then
      p.(qty := fill, avgEntry := t.fillPrice, costBasis := t.fillPrice * Abs(fill))
    else if SameSign(p.qty, fill) then
      AddTo(p, fill, t.fillPrice)
    else
      ReduceBy(p, fill, t.fillPrice)
  }

  /** Cost of the open quantity, less the PnL that is already realized. */
  function NetCost(p: Position): real {
    p.qty * p.avgEntry - p.realized
  }

  /** What an average-cost book keeps when `fill` at `price` takes position `p` to `q`. */
  predicate Conserved(p: Position, q: Position, fill: real, price: real) {
    && Sound(q)
    && q.qty == p.qty + fill
    && NetCost(q) == NetCost(p) + fill * price
  }

  function Unrealized(p: Position, mark: real): real {
    if p.qty == 0.0 then 0.0 else p.qty * (mark - p.avgEntry)
  }

  lemma AddConserves(p: Position, fill: real, price: real)
    requires Sound(p) && ValidPrice(price) && SameSign(p.qty, fill)
    ensures Conserved(p, AddTo(p, fill, price), fill, price)
  {
    var cost := p.costBasis + price * Abs(fill);
    var n := Abs(p.qty + fill);
    var avg := cost / n;
    assert avg * n == cost;
    if fill > 0.0 {
      assert cost == p.avgEntry * p.qty + price * fill;
    } else {
      assert p.avgEntry * Abs(p.qty) == -(p.avgEntry * p.qty);
      assert price * Abs(fill) == -(price * fill);
    }
    assert p.avgEntry * Abs(p.qty) > 0.0 && price * Abs(fill) > 0.0;
    QuotientPositive(cost, n);
  }

  lemma QuotientPositive(a: real, n: real)
    requires a > 0.0 && n > 0.0
    ensures a / n > 0.0
  {
  }

  lemma ReduceConserves(p: Position, fill: real, price: real)
    requires Sound(p) && ValidPrice(price) && p.qty != 0.0 && fill != 0.0 && !SameSign(p.qty, fill)
    ensures Conserved(p, ReduceBy(p, fill, price), fill, price)
  {
    var closed := ClosedQty(p, fill);
    Distribute(closed, price, p.avgEntry);
    Distribute(closed, p.avgEntry, price);
    if closed == p.qty || closed == -p.qty {
    } else if fill > 0.0 {
      assert (p.qty + fill) * p.avgEntry == p.qty * p.avgEntry + fill * p.avgEntry;
    } else {
      assert (p.qty + fill) * p.avgEntry == p.qty * p.avgEntry + fill * p.avgEntry;
    }
  }

  lemma Distribute(a: real, b: real, c: real)
    ensures a * (b - c) == a * b - a * c
  {
  }

  /** An average-cost book loses nothing: a fill adds its signed quantity to the position and its
      signed cost to (cost of the open quantity) - (realized PnL). */
  lemma FillConserves(p: Position, t: Trade)
    requires Sound(p) && ValidTrade(t)
    ensures Conserved(p, UpdatePosition(p, t), t.Signed(), t.fillPrice)
  {
    if p.qty == 0.0 {
    } else if SameSign(p.qty, t.Signed()) {
      AddConserves(p, t.Signed(), t.fillPrice);
    } else {
      ReduceConserves(p, t.Signed(), t.fillPrice);
    }
  }

  lemma AddAverages(p: Position, fill: real, price: real)
    requires Sound(p) && ValidPrice(price) && SameSign(p.qty, fill)
    ensures var q := AddTo(p, fill, price);
      q.realized == p.realized && q.avgEntry * (p.qty + fill) == p.avgEntry * p.qty + price * fill
  {
    AddConserves(p, fill, price);
    var q := AddTo(p, fill, price);
    assert q.realized == p.realized;
    hide AddTo;
    assert q.qty == p.qty + fill;
  }

  lemma ReduceAverages(p: Position, fill: real, price: real)
    requires p.qty != 0.0 && fill != 0.0 && !SameSign(p.qty, fill)
    ensures var q := ReduceBy(p, fill, price);
      var closed := if Abs(fill) < Abs(p.qty) then Abs(fill) else Abs(p.qty);
      && q.realized == p.realized + closed * (if p.qty > 0.0 then price - p.avgEntry else p.avgEntry - price)
      && (Abs(fill) < Abs(p.qty) ==> q.avgEntry == p.avgEntry)
      && (Abs(fill) > Abs(p.qty) ==> q.avgEntry == price)
      && (Abs(fill) == Abs(p.qty) ==> q.avgEntry == 0.0)
  {
  }

  /** How a fill moves the average price and the realized PnL. Opening and adding realize nothing; a fill
      against the position realizes, for what it closes, the difference to the average price, and keeps
      the average while something remains; beyond that it starts anew at its own price. */
  lemma FillAverages(p: Position, t: Trade)
    requires Sound(p) && ValidTrade(t)
    ensures var fill, q := t.Signed(), UpdatePosition(p, t);
      var closed := if Abs(fill) < Abs(p.qty) then Abs(fill) else Abs(p.qty);
      if p.qty == 0.0 then q.realized == p.realized && q.avgEntry == t.fillPrice
      else if SameSign(p.qty, fill) then
        q.realized == p.realized && q.avgEntry * (p.qty + fill) == p.avgEntry * p.qty + t.fillPrice * fill
      else
        && q.realized
             == p.realized + closed * (if p.qty > 0.0 then t.fillPrice - p.avgEntry else p.avgEntry - t.fillPrice)
        && (Abs(fill) < Abs(p.qty) ==> q.avgEntry == p.avgEntry)
        && (Abs(fill) > Abs(p.qty) ==> q.avgEntry == t.fillPrice)
        && (Abs(fill) == Abs(p.qty) ==> q.avgEntry == 0.0)
  {
    hide AddTo;
    hide ReduceBy;
    var fill := t.Signed();
    if p.qty != 0.0 {
      if SameSign(p.qty, fill) {
        AddAverages(p, fill, t.fillPrice);
      } else {
        ReduceAverages(p, fill, t.fillPrice);
      }
    }
  }

  /** Reading the conservation at a mark: realized + unrealized moves by signed * (mark - fill). */
  lemma FillAtMark(p: Position, q: Position, fill: real, price: real, mark: real)
    requires Conserved(p, q, fill, price)
    ensures q.realized + Unrealized(q, mark) == p.realized + Unrealized(p, mark) + fill * (mark - price)
  {
    Distribute(q.qty, mark, q.avgEntry);
    Distribute(p.qty, mark, p.avgEntry);
    Distribute(fill, mark, price);
    DistributeSum(p.qty, fill, mark);
  }

  lemma DistributeSum(a: real, b: real, c: real)
    ensures (a + b) * c == a * c + b * c
  {
  }

  /** The commission in account units. */
  function AccountCommission(cfg: Config, t: Trade): real {
    if UsesBaseAsset(cfg, t.security) && ValidPrice(t.fillPrice) then t.commission / t.fillPrice else t.commission
  }

  /** The cash effect of a trade, given the position it meets (tradeCashDelta). */
  function CashDelta(cfg: Config, p: Position, t: Trade): real {
    if !UsesBaseAsset(cfg, t.security) then t.NetAmount()
    else
      var commission := AccountCommission(cfg, t);
      var fill := t.Signed();
      if p.qty == 0.0 || fill == 0.0 || SameSign(p.qty, fill) then -commission
      else
        var closed := ClosedQty(p, fill);
        if closed <= 0.0 || !ValidPrice(p.avgEntry) || !ValidPrice(t.fillPrice) then -commission
        else
          ClosingGain(p, fill, t.fillPrice) / t.fillPrice - commission
  }

  /** What a position adds to the account's market value: nothing when flat or without a valid mark. */
  function Worth(cfg: Config, s: Security, p: Position, bp: BarPrices): real {
    if p.qty == 0.0 then 0.0
    else
      var mark := MarkPrice(cfg, p.qty, bp);
      if !ValidPrice(mark) then 0.0
      else if UsesBaseAsset(cfg, s) then Unrealized(p, mark) / mark
      else p.qty * mark
  }

  /** A position has a usable mark, or needs none. */
  predicate Marked(cfg: Config, p: Position, bp: BarPrices) {
    p.qty == 0.0 || ValidPrice(MarkPrice(cfg, p.qty, bp))
  }

  /** The change of cash plus market value when trade `t` takes position `p` to `q`, before
      commission and in account units. */
  function Gain(cfg: Config, p: Position, q: Position, t: Trade, bp: BarPrices): real {
    CashDelta(cfg, p, t) + AccountCommission(cfg, t) + Worth(cfg, t.security, q, bp) - Worth(cfg, t.security, p, bp)
  }

  /** The position that remains after a fill is still marked at the price it was marked at. */
  predicate MarkKept(cfg: Config, p: Position, t: Trade, bp: BarPrices) {
    var qty := p.qty + t.Signed();
    qty == 0.0 || MarkPrice(cfg, qty, bp) == MarkPrice(cfg, p.qty, bp)
  }

  lemma QuoteWorth(cfg: Config, s: Security, p: Position, bp: BarPrices)
    requires !UsesBaseAsset(cfg, s) && Marked(cfg, p, bp)
    ensures Worth(cfg, s, p, bp) == p.qty * MarkPrice(cfg, p.qty, bp)
  {
  }

  lemma QuoteCash(cfg: Config, p: Position, t: Trade)
    requires !UsesBaseAsset(cfg, t.security)
    ensures CashDelta(cfg, p, t) + AccountCommission(cfg, t)
         == -(t.Signed() * t.fillPrice) + if t.side == Unset then 2.0 * (t.qty * t.fillPrice) else 0.0
  {
  }

  /** Quote accounting, any fill price and any marks: the gain is the price improvement, plus the
      change of mark on the quantity that remains, plus twice the amount of a fill that names no side. */
  lemma QuoteGain(cfg: Config, p: Position, q: Position, t: Trade, bp: BarPrices)
    requires Conserved(p, q, t.Signed(), t.fillPrice) && !UsesBaseAsset(cfg, t.security)
    requires Marked(cfg, p, bp) && Marked(cfg, q, bp)
    ensures var before := MarkPrice(cfg, p.qty, bp);
      var after := MarkPrice(cfg, q.qty, bp);
      Gain(cfg, p, q, t, bp)
        == t.Signed() * (before - t.fillPrice) + q.qty * (after - before)
           + (if t.side == Unset then 2.0 * (t.qty * t.fillPrice) else 0.0)
  {
    var before := MarkPrice(cfg, p.qty, bp);
    var after := MarkPrice(cfg, q.qty, bp);
    QuoteWorth(cfg, t.security, p, bp);
    QuoteWorth(cfg, t.security, q, bp);
    QuoteCash(cfg, p, t);
    Distribute(q.qty, after, before);
    DistributeSum(p.qty, t.Signed(), before);
    Distribute(t.Signed(), before, t.fillPrice);
  }

  /** Base-asset accounting: the PnL that a fill realizes is converted at the fill price. */
  lemma BaseCash(cfg: Config, p: Position, t: Trade)
    requires Sound(p) && ValidTrade(t) && UsesBaseAsset(cfg, t.security)
    ensures CashDelta(cfg, p, t) + AccountCommission(cfg, t)
      == (UpdatePosition(p, t).realized - p.realized) / t.fillPrice
  {
  }

  /** Base-asset accounting, at a fill at the mark: the gain is the revaluation, between the two
      marks, of the cost of the quantity that remains. */
  lemma BaseGain(cfg: Config, p: Position, q: Position, t: Trade, bp: BarPrices)
    requires Conserved(p, q, t.Signed(), t.fillPrice) && UsesBaseAsset(cfg, t.security)
    requires t.fillPrice == MarkPrice(cfg, p.qty, bp) && ValidPrice(t.fillPrice)
    requires CashDelta(cfg, p, t) + AccountCommission(cfg, t) == (q.realized - p.realized) / t.fillPrice
    ensures Gain(cfg, p, q, t, bp) == Worth(cfg, t.security, q, bp) - Unrealized(q, t.fillPrice) / t.fillPrice
  {
    var m := t.fillPrice;
    FillAtMark(p, q, t.Signed(), m, m);
    DivideDifference(Unrealized(p, m), Unrealized(q, m), m);
  }

  lemma DivideDifference(a: real, b: real, m: real)
    requires m != 0.0
    ensures a / m - b / m == (a - b) / m
  {
  }

  /** The unit gain (m - a) / m of an entry price a > 0 tells marks apart. */
  lemma UnitGainInjective(qty: real, a: real, m: real, n: real)
    requires qty != 0.0 && a > 0.0 && m > 0.0 && n > 0.0 && m != n
    ensures qty * (m - a) / m != qty * (n - a) / n
  {
    var cost := qty * a;
    UnitGain(qty, a, m);
    UnitGain(qty, a, n);
    NonZeroProduct(qty, a);
    var x, y := cost / m, cost / n;
    assert x * m == cost && y * n == cost;
    Distribute(x, m, n);
    NonZeroProduct(x, m - n);
  }

  lemma UnitGain(qty: real, a: real, m: real)
    requires m > 0.0
    ensures qty * (m - a) / m == qty - qty * a / m
  {
    Distribute(qty, m, a);
    DivideDifference(qty * m, qty * a, m);
    assert qty * m / m == qty;
  }

  lemma NonZeroProduct(a: real, b: real)
    ensures a * b == 0.0 <==> a == 0.0 || b == 0.0
  {
  }

  /** A position is worth the same in the base asset at two marks only if it is flat or they agree. */
  lemma RevaluedUnitGain(q: Position, m: real, n: real)
    requires Sound(q) && m > 0.0 && n > 0.0
    ensures Unrealized(q, m) / m == Unrealized(q, n) / n <==> q.qty == 0.0 || m == n
  {
    if q.qty != 0.0 && m != n {
      UnitGainInjective(q.qty, q.avgEntry, m, n);
    }
  }

  lemma BaseWorth(cfg: Config, s: Security, q: Position, bp: BarPrices)
    requires UsesBaseAsset(cfg, s) && Marked(cfg, q, bp)
    ensures q.qty == 0.0 ==> Worth(cfg, s, q, bp) == 0.0
    ensures q.qty != 0.0 ==>
      var m := MarkPrice(cfg, q.qty, bp);
      m > 0.0 && Worth(cfg, s, q, bp) == Unrealized(q, m) / m
  {
  }

  lemma FairBaseGain(cfg: Config, p: Position, q: Position, t: Trade, bp: BarPrices)
    requires Conserved(p, q, t.Signed(), t.fillPrice) && UsesBaseAsset(cfg, t.security)
    requires t.fillPrice == MarkPrice(cfg, p.qty, bp) && ValidPrice(t.fillPrice) && Marked(cfg, q, bp)
    requires CashDelta(cfg, p, t) + AccountCommission(cfg, t) == (q.realized - p.realized) / t.fillPrice
    ensures Gain(cfg, p, q, t, bp) == 0.0 <==> MarkKept(cfg, p, t, bp)
  {
    BaseGain(cfg, p, q, t, bp);
    BaseWorth(cfg, t.security, q, bp);
    if q.qty == 0.0 {
      assert Unrealized(q, t.fillPrice) / t.fillPrice == 0.0;
    } else {
      RevaluedUnitGain(q, MarkPrice(cfg, q.qty, bp), t.fillPrice);
    }
  }

  /** Taking back less than a whole amount n * m cannot undo twice the amount. */
  lemma PartOfAmount(part: real, n: real, m: real, m': real)
    requires 0.0 <= part <= n && 0.0 < n && 0.0 < m && (part == 0.0 || 0.0 < m')
    ensures part * (m' - m) + 2.0 * (n * m) > 0.0
  {
    Distribute(part, m', m);
    assert part * m' >= 0.0;
    DistributeSum(part, n - part, m);
    assert (n - part) * m >= 0.0;
    assert n * m > 0.0;
  }

  /** A fill at the mark that names no side always gains, whatever happens to the mark: if the mark
      of the rest moves, the position has crossed zero, and the rest is smaller than the fill. */
  lemma SidelessFillGains(cfg: Config, p: Position, q: Position, t: Trade, bp: BarPrices)
    requires Conserved(p, q, t.Signed(), t.fillPrice) && !UsesBaseAsset(cfg, t.security) && ValidTrade(t)
    requires t.fillPrice == MarkPrice(cfg, p.qty, bp) && Marked(cfg, q, bp) && t.side == Unset
    ensures Gain(cfg, p, q, t, bp) > 0.0
  {
    var before, after := MarkPrice(cfg, p.qty, bp), MarkPrice(cfg, q.qty, bp);
    QuoteGain(cfg, p, q, t, bp);
    assert t.Signed() * (before - t.fillPrice) == 0.0;
    if after == before {
      NonZeroProduct(t.qty, before);
      assert t.qty * before > 0.0;
    } else {
      assert 0.0 <= q.qty < t.qty;
      hide MarkPrice;
      hide Gain;
      PartOfAmount(q.qty, t.qty, before, after);
    }
  }

  lemma FairQuoteGain(cfg: Config, p: Position, q: Position, t: Trade, bp: BarPrices)
    requires Conserved(p, q, t.Signed(), t.fillPrice) && !UsesBaseAsset(cfg, t.security) && ValidTrade(t)
    requires t.fillPrice == MarkPrice(cfg, p.qty, bp) && Marked(cfg, q, bp)
    ensures Gain(cfg, p, q, t, bp) == 0.0 <==> t.side != Unset && MarkKept(cfg, p, t, bp)
  {
    if t.side == Unset {
      SidelessFillGains(cfg, p, q, t, bp);
    } else {
      QuoteGain(cfg, p, q, t, bp);
      NonZeroProduct(q.qty, MarkPrice(cfg, q.qty, bp) - t.fillPrice);
    }
  }

  lemma CloseAndMidKeepMarks(cfg: Config, p: Position, t: Trade, bp: BarPrices)
    ensures cfg.valuationMode != ValueAtExit ==> MarkKept(cfg, p, t, bp)
  {
  }

  /** Fair fills are free, and exactly these. A fill at the security's current mark moves cash plus
      market value by minus its commission if and only if the trade names a side (which only quote
      accounting cares about) and the mark of what remains is kept, as it always is under close or
      mid valuation. */
  lemma FairFill(cfg: Config, p: Position, t: Trade, bp: BarPrices)
    requires Sound(p) && ValidTrade(t)
    requires t.fillPrice == MarkPrice(cfg, p.qty, bp) && Marked(cfg, UpdatePosition(p, t), bp)
    ensures Gain(cfg, p, UpdatePosition(p, t), t, bp) == 0.0
      <==> (UsesBaseAsset(cfg, t.security) || t.side != Unset) && MarkKept(cfg, p, t, bp)
    ensures cfg.valuationMode != ValueAtExit ==> MarkKept(cfg, p, t, bp)
  {
    FillConserves(p, t);
    CloseAndMidKeepMarks(cfg, p, t, bp);
    if UsesBaseAsset(cfg, t.security) {
      BaseCash(cfg, p, t);
      FairBaseGain(cfg, p, UpdatePosition(p, t), t, bp);
    } else {
      FairQuoteGain(cfg, p, UpdatePosition(p, t), t, bp);
    }
  }

  /** A fill that only closes: against the position, and for no more than it holds. */
  predicate Reduces(p: Position, t: Trade) {
    && p.qty != 0.0
    && t.side == (if p.qty > 0.0 then Sell else Buy)
    && t.qty <= Abs(p.qty)
  }

  /** The fill neither flips nor enlarges the quantity. */
  predicate Shrinks(before: real, after: real) {
    && before != 0.0
    && Abs(after) < Abs(before)
    && (after == 0.0 || SameSign(after, before))
  }

  /** A valid fill shrinks a position exactly when it only closes. */
  lemma ShrinksIffReduces(p: Position, t: Trade)
    requires ValidTrade(t)
    ensures t.side != Unset ==> (Shrinks(p.qty, p.qty + t.Signed()) <==> Reduces(p, t))
    ensures Reduces(p, t) ==> Shrinks(p.qty, p.qty + t.Signed())
  {
  }
}
