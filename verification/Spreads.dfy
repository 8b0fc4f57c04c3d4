/**
 Multi-leg option spreads as values: what opening, extending and closing them does to the broker's
 cash and to the spread tracker (the spread operations of internal/backtest/context.go and
 `SpreadTracker` of internal/backtest/options.go). `BarContext` in SpreadContext.dfy is proved
 against these functions.
 */
module Spreads {
  import opened Market
  import opened Sums
  import opened Chains

  datatype Leg = Leg(
    contract: Contract, side: Side, qty: real, entryPrice: real, entryCommission: real,
    closed: bool, closePrice: real, closeCommission: real)
  {
    function Notional(price: real): real {
      qty * price * contract.Multiplier()
    }

    function RealizedPnL(): real {
      if !closed then 0.0
      else
        var gain := if side == Sell then entryPrice - closePrice else closePrice - entryPrice;
        qty * gain * contract.Multiplier() - (entryCommission + closeCommission)
    }
  }

  /** `open` and `archive` list spread ids; a spread moves to the archive when its last leg closes. */
  datatype Tracker = Tracker(spreads: map<int, seq<Leg>>, open: seq<int>, archive: seq<int>, nextID: int)

  datatype Account = Account(cash: real, tracker: Tracker)

  const EMPTY := Tracker(map[], [], [], 1)

  function LegCommission(cfg: Config, leg: Leg, price: real): real {
    CommissionForNotional(cfg, leg.qty, price, leg.Notional(price))
  }

  /** What opening a leg pays: a sold leg brings its premium in. */
  function EntryFlow(leg: Leg): real {
    if leg.side == Sell then leg.Notional(leg.entryPrice) - leg.entryCommission
    else -(leg.Notional(leg.entryPrice) + leg.entryCommission)
  }

  function ExitFlowAt(cfg: Config, leg: Leg, price: real): real {
    if leg.side == Sell then -(leg.Notional(price) + LegCommission(cfg, leg, price))
    else leg.Notional(price) - LegCommission(cfg, leg, price)
  }

  function Prepare(cfg: Config, leg: Leg): Leg {
    leg.(entryCommission := LegCommission(cfg, leg, leg.entryPrice))
  }

  function PrepareAll(cfg: Config, legs: seq<Leg>): (r: seq<Leg>)
    ensures |r| == |legs| && forall i :: 0 <= i < |legs| ==> r[i] == Prepare(cfg, legs[i])
  {
    seq(|legs|, i requires 0 <= i < |legs| => Prepare(cfg, legs[i]))
  }

  function Fresh(leg: Leg): Leg {
    leg.(closed := false, closePrice := 0.0)
  }

  function FreshAll(legs: seq<Leg>): (r: seq<Leg>)
    ensures |r| == |legs| && forall i :: 0 <= i < |legs| ==> r[i] == Fresh(legs[i])
  {
    seq(|legs|, i requires 0 <= i < |legs| => Fresh(legs[i]))
  }

  /** The cash effect of opening legs. */
  function EntryFlows(legs: seq<Leg>): real {
    if legs == [] then 0.0 else EntryFlows(legs[..|legs| - 1]) + EntryFlow(legs[|legs| - 1])
  }

  predicate FullyClosed(legs: seq<Leg>) {
    forall i :: 0 <= i < |legs| ==> legs[i].closed
  }

  /** Open a spread. The legs are taken as the caller made them, even if marked closed. */
  function Open(cfg: Config, a: Account, legs: seq<Leg>): (Account, int) {
    var prepared := PrepareAll(cfg, legs);
    var t := a.tracker;
    (Account(a.cash + EntryFlows(prepared),
             t.(spreads := t.spreads[t.nextID := prepared], open := t.open + [t.nextID], nextID := t.nextID + 1)),
     t.nextID)
  }

  /** Add legs to a spread that still has an open leg; these legs are always reset to open. */
  function Append(cfg: Config, a: Account, id: int, legs: seq<Leg>): (Account, bool) {
    var t := a.tracker;
    if legs == [] || id !in t.spreads || FullyClosed(t.spreads[id]) then (a, false)
    else
      var prepared := FreshAll(PrepareAll(cfg, legs));
      (Account(a.cash + EntryFlows(prepared), t.(spreads := t.spreads[id := t.spreads[id] + prepared])), true)
  }

  function Remove(ids: seq<int>, id: int): seq<int> {
    if ids == [] then []
    else if ids[0] == id then ids[1..]
    else [ids[0]] + Remove(ids[1..], id)
  }

  /** Move a fully closed spread from the open list to the archive. */
  function Archived(t: Tracker, id: int): Tracker
    requires id in t.spreads
  {
    if FullyClosed(t.spreads[id]) && id in t.open then
      t.(open := Remove(t.open, id), archive := t.archive + [id])
    else t
  }

  function CloseLegAt(leg: Leg, price: real, commission: real): Leg {
    leg.(closed := true, closePrice := price, closeCommission := commission)
  }

  function CloseInTracker(t: Tracker, id: int, index: int, price: real, commission: real): (Tracker, bool) {
    if id !in t.spreads || !(0 <= index < |t.spreads[id]|) || t.spreads[id][index].closed then (t, false)
    else
      var legs := t.spreads[id];
      (Archived(t.(spreads := t.spreads[id := legs[index := CloseLegAt(legs[index], price, commission)]]), id), true)
  }

  function CloseLeg(cfg: Config, a: Account, id: int, index: int, price: real): (Account, bool) {
    var t := a.tracker;
    if id !in t.spreads || !(0 <= index < |t.spreads[id]|) || t.spreads[id][index].closed then (a, false)
    else
      var leg := t.spreads[id][index];
      var (t', ok) := CloseInTracker(t, id, index, price, LegCommission(cfg, leg, price));
      (Account(a.cash + ExitFlowAt(cfg, leg, price), t'), ok)
  }

  /** The loop of CloseSpread over the first `n` legs. */
  function CloseFirst(cfg: Config, a: Account, id: int, price: Contract -> real, n: nat): Account {
    if n == 0 then a
    else
      var before := CloseFirst(cfg, a, id, price, n - 1);
      var legs := GetOr(before.tracker.spreads, id, []);
      if n - 1 < |legs| && !legs[n - 1].closed then CloseLeg(cfg, before, id, n - 1, price(legs[n - 1].contract)).0
      else before
  }

  function CloseSpread(cfg: Config, a: Account, id: int, price: Contract -> real): Account {
    if id !in a.tracker.spreads then a
    else CloseFirst(cfg, a, id, price, |a.tracker.spreads[id]|)
  }

  // ---- Valuation ----

  predicate OptionPriceValid(p: real) { p > 0.0 }

  function FirstValid(prices: seq<real>): real {
    if prices == [] then 0.0
    else if OptionPriceValid(prices[0]) then prices[0]
    else FirstValid(prices[1..])
  }

  function MidPrice(c: Contract): real {
    if OptionPriceValid(c.bidPrice) && OptionPriceValid(c.askPrice) then (c.bidPrice + c.askPrice) / 2.0 else 0.0
  }

  function OptionMark(c: Contract): real {
    FirstValid([c.markPrice, MidPrice(c), c.bidPrice, c.askPrice])
  }

  /** The notional amount of a leg at the mark of a contract. */
  function Marked(leg: Leg, c: Contract): real {
    leg.qty * OptionMark(c) * c.Multiplier()
  }

  /** The market value of one leg, at the snapshot of its contract in the chain. Only a bought
      leg counts as an asset here. */
  function LegValue(leg: Leg, chain: Chain): real {
    var c := Current(chain, leg.contract);
    var mark := OptionMark(c);
    if leg.closed || !OptionPriceValid(mark) then 0.0
    else if leg.side == Buy then Marked(leg, c)
    else -Marked(leg, c)
  }

  function LegsValue(legs: seq<Leg>, chain: Chain): real {
    if legs == [] then 0.0 else LegsValue(legs[..|legs| - 1], chain) + LegValue(legs[|legs| - 1], chain)
  }

  /** The market value of the spreads on the open list. */
  function SpreadEquity(t: Tracker, chain: Chain, n: nat): real
    requires n <= |t.open|
  {
    if n == 0 then 0.0
    else SpreadEquity(t, chain, n - 1) + LegsValue(GetOr(t.spreads, t.open[n - 1], []), chain)
  }

  function OpenEquity(t: Tracker, chain: Chain): real {
    SpreadEquity(t, chain, |t.open|)
  }
}
