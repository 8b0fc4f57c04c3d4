/**
 Conservation of spread cash over whole runs of open, append, close-leg and close-spread calls.
 */
module SpreadLaws {
  import opened Market
  import opened Positions
  import opened Sums
  import opened Books
  import opened Ledgers
  import opened PnlLaws
  import opened Chains
  import S = Spreads
  import opened Spreads

  /** Ids are below the next one, the open list names each spread at most once, and a spread that
      is not on it has no open leg. */
  predicate SoundTracker(t: Tracker) {
    && (forall id :: id in t.spreads ==> 1 <= id < t.nextID)
    && (forall i :: 0 <= i < |t.open| ==> t.open[i] in t.spreads)
    && (forall i, j :: 0 <= i < j < |t.open| ==> t.open[i] != t.open[j])
    && (forall id :: id in t.spreads && id !in t.open ==> FullyClosed(t.spreads[id]))
    && 1 <= t.nextID
  }

  /** What closing a leg has paid, from the leg's own record. */
  function ExitFlow(leg: Leg): real {
    if leg.side == Sell then -(leg.Notional(leg.closePrice) + leg.closeCommission)
    else leg.Notional(leg.closePrice) - leg.closeCommission
  }

  /** A leg's whole cash effect: its entry once, its exit once it is closed. */
  function CashOf(): Leg -> real {
    (leg: Leg) => EntryFlow(leg) + if leg.closed then ExitFlow(leg) else 0.0
  }

  function EntryOfLeg(): Leg -> real { (leg: Leg) => EntryFlow(leg) }

  /** The exit a leg already claims when it is opened. */
  function StaleExit(): Leg -> real { (leg: Leg) => if leg.closed then ExitFlow(leg) else 0.0 }

  function ValueOf(chain: Chain): Leg -> real { (leg: Leg) => LegValue(leg, chain) }

  function RealizedOf(): Leg -> real { (leg: Leg) => leg.RealizedPnL() }

  /** A sum over all legs of all spreads. */
  ghost function PerSpread(t: Tracker, f: Leg -> real): map<int, real> {
    map id | id in t.spreads :: Sum(t.spreads[id], f)
  }

  ghost function OverLegs(t: Tracker, f: Leg -> real): real {
    Total(PerSpread(t, f))
  }

  lemma OverLegsPut(t: Tracker, t': Tracker, id: int, legs: seq<Leg>, f: Leg -> real)
    requires t'.spreads == t.spreads[id := legs]
    ensures OverLegs(t', f) == OverLegs(t, f) - Sum(GetOr(t.spreads, id, []), f) + Sum(legs, f)
  {
    hide Total;
    assert PerSpread(t', f) == PerSpread(t, f)[id := Sum(legs, f)];
    TotalUpdate(PerSpread(t, f), id, Sum(legs, f));
  }

  lemma {:induction false} EntryFlowsAreSum(legs: seq<Leg>)
    ensures EntryFlows(legs) == Sum(legs, EntryOfLeg())
  {
    if legs == [] {
    } else {
      EntryFlowsAreSum(legs[..|legs| - 1]);
    }
  }

  // ---- The tracker stays sound ----

  lemma {:induction false} RemoveKeeps(ids: seq<int>, id: int)
    requires forall i, j :: 0 <= i < j < |ids| ==> ids[i] != ids[j]
    ensures var r := Remove(ids, id);
      && (forall x :: x in r <==> x in ids && x != id)
      && (forall i, j :: 0 <= i < j < |r| ==> r[i] != r[j])
  {
    if ids == [] {
    } else {
      assert ids == [ids[0]] + ids[1..];
      assert ids[0] !in ids[1..];
      if ids[0] != id {
        RemoveKeeps(ids[1..], id);
        var rest := Remove(ids[1..], id);
        assert ids[0] !in rest;
      }
    }
  }

  lemma ArchivedIsSound(t: Tracker, id: int)
    requires id in t.spreads
    requires SoundTracker(t)
    ensures SoundTracker(Archived(t, id)) && Archived(t, id).spreads == t.spreads
  {
    if FullyClosed(t.spreads[id]) && id in t.open {
      RemoveKeeps(t.open, id);
      var rest := Remove(t.open, id);
      assert forall i :: 0 <= i < |rest| ==> rest[i] in rest;
    }
  }

  lemma PutLegsIsSound(t: Tracker, id: int, legs: seq<Leg>)
    requires SoundTracker(t) && id in t.spreads
    requires id !in t.open ==> FullyClosed(legs)
    ensures SoundTracker(t.(spreads := t.spreads[id := legs]))
  {
  }

  // ---- One call ----

  /** Opening pays the entry flows; legs that claim to be closed already are the only discrepancy. */
  lemma OpenPays(cfg: Config, a: Account, legs: seq<Leg>)
    requires SoundTracker(a.tracker)
    ensures var a' := S.Open(cfg, a, legs).0;
      && SoundTracker(a'.tracker)
      && a'.cash - a.cash
         == OverLegs(a'.tracker, CashOf()) - OverLegs(a.tracker, CashOf()) - Sum(PrepareAll(cfg, legs), StaleExit())
  {
    var t, prepared := a.tracker, PrepareAll(cfg, legs);
    var t' := S.Open(cfg, a, legs).0.tracker;
    OverLegsPut(t, t', t.nextID, prepared, CashOf());
    EntryFlowsAreSum(prepared);
    SumPlus(prepared, EntryOfLeg(), StaleExit(), CashOf());
    assert Sum([], CashOf()) == 0.0;
    hide Sum;
    hide OverLegs;
    assert t'.open == t.open + [t.nextID];
    assert forall i :: 0 <= i < |t.open| ==> t.open[i] != t.nextID;
  }

  lemma {:induction false} FreshHasNoStaleExit(legs: seq<Leg>)
    requires forall i :: 0 <= i < |legs| ==> !legs[i].closed
    ensures Sum(legs, StaleExit()) == 0.0
  {
    if legs == [] {
    } else {
      FreshHasNoStaleExit(legs[..|legs| - 1]);
    }
  }

  /** Appending pays the entry flows of the appended legs. */
  lemma AppendPays(cfg: Config, a: Account, id: int, legs: seq<Leg>)
    requires SoundTracker(a.tracker)
    ensures var a' := S.Append(cfg, a, id, legs).0;
      && SoundTracker(a'.tracker)
      && a'.cash - a.cash == OverLegs(a'.tracker, CashOf()) - OverLegs(a.tracker, CashOf())
  {
    if S.Append(cfg, a, id, legs).1 {
      var t, added := a.tracker, FreshAll(PrepareAll(cfg, legs));
      OverLegsPut(t, S.Append(cfg, a, id, legs).0.tracker, id, t.spreads[id] + added, CashOf());
      SumConcat(t.spreads[id], added, CashOf());
      EntryFlowsAreSum(added);
      FreshHasNoStaleExit(added);
      SumPlus(added, EntryOfLeg(), StaleExit(), CashOf());
      hide Sum;
      hide OverLegs;
      PutLegsIsSound(t, id, t.spreads[id] + added);
    }
  }

  /** Closing a leg pays its exit flow, once: a closed leg does not close again. */
  lemma CloseLegPays(cfg: Config, a: Account, id: int, index: int, price: real)
    requires SoundTracker(a.tracker)
    ensures var (a', ok) := S.CloseLeg(cfg, a, id, index, price);
      && SoundTracker(a'.tracker)
      && a'.cash - a.cash == OverLegs(a'.tracker, CashOf()) - OverLegs(a.tracker, CashOf())
      && (ok <==>
            id in a.tracker.spreads && 0 <= index < |a.tracker.spreads[id]| && !a.tracker.spreads[id][index].closed)
      && (!ok ==> a' == a)
      && (ok ==> !S.CloseLeg(cfg, a', id, index, price).1)
  {
    if S.CloseLeg(cfg, a, id, index, price).1 {
      var t := a.tracker;
      var legs := t.spreads[id];
      var commission := LegCommission(cfg, legs[index], price);
      var closed := CloseLegAt(legs[index], price, commission);
      var put := t.(spreads := t.spreads[id := legs[index := closed]]);
      ClosingPaysExit(cfg, legs[index], price);
      CloseMovesCash(legs, index, price, commission);
      hide LegCommission;
      hide ExitFlowAt;
      hide ExitFlow;
      hide Sum;
      hide OverLegs;
      PutLegsIsSound(t, id, legs[index := closed]);
      hide SoundTracker;
      ArchivedIsSound(put, id);
      OverLegsPut(t, Archived(put, id), id, legs[index := closed], CashOf());
    }
  }

  lemma ClosingKeepsEntry(leg: Leg, price: real, commission: real)
    ensures EntryFlow(CloseLegAt(leg, price, commission)) == EntryFlow(leg)
  {
  }

  lemma ClosingPaysExit(cfg: Config, leg: Leg, price: real)
    ensures ExitFlow(CloseLegAt(leg, price, LegCommission(cfg, leg, price))) == ExitFlowAt(cfg, leg, price)
  {
    hide LegCommission;
  }

  lemma CloseMovesCash(legs: seq<Leg>, index: nat, price: real, commission: real)
    requires index < |legs| && !legs[index].closed
    ensures var closed := CloseLegAt(legs[index], price, commission);
      Sum(legs[index := closed], CashOf()) == Sum(legs, CashOf()) + ExitFlow(closed)
  {
    ClosingKeepsEntry(legs[index], price, commission);
    hide Sum;
    hide EntryFlow;
    hide ExitFlow;
    SumUpdate(legs, index, CloseLegAt(legs[index], price, commission), CashOf());
  }

  /** ... and closes that leg and no other. */
  lemma CloseLegCloses(cfg: Config, a: Account, id: int, index: int, price: real)
    requires S.CloseLeg(cfg, a, id, index, price).1
    ensures var before, after := a.tracker.spreads, S.CloseLeg(cfg, a, id, index, price).0.tracker.spreads;
      && id in before && id in after && |after[id]| == |before[id]|
      && (forall i :: 0 <= i < |before[id]| ==> after[id][i].closed == (before[id][i].closed || i == index))
  {
    hide ExitFlowAt;
    hide LegCommission;
  }

  lemma {:induction false} CloseFirstPays(cfg: Config, a: Account, id: int, price: Contract -> real, n: nat)
    requires SoundTracker(a.tracker) && id in a.tracker.spreads && n <= |a.tracker.spreads[id]|
    ensures var a' := CloseFirst(cfg, a, id, price, n);
      && SoundTracker(a'.tracker)
      && a'.cash - a.cash == OverLegs(a'.tracker, CashOf()) - OverLegs(a.tracker, CashOf())
      && id in a'.tracker.spreads && |a'.tracker.spreads[id]| == |a.tracker.spreads[id]|
      && (forall i :: 0 <= i < n ==> a'.tracker.spreads[id][i].closed)
  {
    hide SoundTracker;
    hide OverLegs;
    hide S.CloseLeg;
    if n == 0 {
    } else {
      CloseFirstPays(cfg, a, id, price, n - 1);
      var before := CloseFirst(cfg, a, id, price, n - 1);
      var leg := before.tracker.spreads[id][n - 1];
      if !leg.closed {
        CloseLegPays(cfg, before, id, n - 1, price(leg.contract));
        CloseLegCloses(cfg, before, id, n - 1, price(leg.contract));
      }
    }
  }

  /** Closing a spread closes every leg of it, each once and at its own price. */
  lemma CloseSpreadPays(cfg: Config, a: Account, id: int, price: Contract -> real)
    requires SoundTracker(a.tracker)
    ensures var a' := S.CloseSpread(cfg, a, id, price);
      && SoundTracker(a'.tracker)
      && a'.cash - a.cash == OverLegs(a'.tracker, CashOf()) - OverLegs(a.tracker, CashOf())
      && (id in a.tracker.spreads ==> id in a'.tracker.spreads && FullyClosed(a'.tracker.spreads[id]))
  {
    if id in a.tracker.spreads {
      CloseFirstPays(cfg, a, id, price, |a.tracker.spreads[id]|);
    }
  }

  // ---- Whole runs ----

  datatype SpreadOp =
    | OpenSpread(legs: seq<Leg>)
    | AppendSpreadLegs(id: int, legs: seq<Leg>)
    | CloseSpreadLeg(id: int, index: int, price: real)
    | CloseSpread(id: int, prices: Contract -> real)

  function ApplySpread(cfg: Config, a: Account, op: SpreadOp): Account {
    match op
    case OpenSpread(legs) => S.Open(cfg, a, legs).0
    case AppendSpreadLegs(id, legs) => S.Append(cfg, a, id, legs).0
    case CloseSpreadLeg(id, index, price) => S.CloseLeg(cfg, a, id, index, price).0
    case CloseSpread(id, prices) => S.CloseSpread(cfg, a, id, prices)
  }

  function RunSpreads(cfg: Config, cash: real, ops: seq<SpreadOp>): Account {
    if ops == [] then Account(cash, EMPTY)
    else ApplySpread(cfg, RunSpreads(cfg, cash, ops[..|ops| - 1]), ops[|ops| - 1])
  }

  ghost function StaleExitOf(cfg: Config, op: SpreadOp): real {
    if op.OpenSpread? then Sum(PrepareAll(cfg, op.legs), StaleExit()) else 0.0
  }

  /** The exits that opened legs claimed without paying: zero when legs are opened fresh. */
  ghost function StaleExits(cfg: Config, ops: seq<SpreadOp>): real {
    if ops == [] then 0.0 else StaleExits(cfg, ops[..|ops| - 1]) + StaleExitOf(cfg, ops[|ops| - 1])
  }

  /** Every spread call moves cash by what it changes of the legs' whole cash effect. */
  lemma SpreadStepPays(cfg: Config, a: Account, op: SpreadOp)
    requires SoundTracker(a.tracker)
    ensures var a' := ApplySpread(cfg, a, op);
      && SoundTracker(a'.tracker)
      && a'.cash - a.cash
         == OverLegs(a'.tracker, CashOf()) - OverLegs(a.tracker, CashOf()) - StaleExitOf(cfg, op)
  {
    hide SoundTracker;
    hide OverLegs;
    match op {
      case OpenSpread(legs) => OpenPays(cfg, a, legs);
      case AppendSpreadLegs(id, legs) => AppendPays(cfg, a, id, legs);
      case CloseSpreadLeg(id, index, price) => CloseLegPays(cfg, a, id, index, price);
      case CloseSpread(id, prices) => CloseSpreadPays(cfg, a, id, prices);
    }
    hide S.Open;
    hide S.Append;
    hide S.CloseLeg;
    hide S.CloseSpread;
  }

  /** Over every run: cash has moved by each leg's entry flow exactly once and its exit flow exactly
      once if it is closed, except for the exits of legs that were opened as already closed. */
  lemma {:induction false} RunSpreadCash(cfg: Config, cash: real, ops: seq<SpreadOp>)
    ensures var a := RunSpreads(cfg, cash, ops);
      && SoundTracker(a.tracker)
      && a.cash - cash == OverLegs(a.tracker, CashOf()) - StaleExits(cfg, ops)
  {
    if ops == [] {
      TotalZero(PerSpread(EMPTY, CashOf()));
    } else {
      RunSpreadCash(cfg, cash, ops[..|ops| - 1]);
      SpreadStepPays(cfg, RunSpreads(cfg, cash, ops[..|ops| - 1]), ops[|ops| - 1]);
      hide SoundTracker;
      hide OverLegs;
      hide StaleExitOf;
      hide ApplySpread;
    }
  }

  predicate OpensFresh(op: SpreadOp) {
    op.OpenSpread? ==> forall i :: 0 <= i < |op.legs| ==> !op.legs[i].closed
  }

  lemma {:induction false} FreshRunsHaveNoStaleExits(cfg: Config, ops: seq<SpreadOp>)
    requires forall i :: 0 <= i < |ops| ==> OpensFresh(ops[i])
    ensures StaleExits(cfg, ops) == 0.0
  {
    if ops == [] {
    } else {
      FreshRunsHaveNoStaleExits(cfg, ops[..|ops| - 1]);
      assert OpensFresh(ops[|ops| - 1]);
      if ops[|ops| - 1].OpenSpread? {
        FreshHasNoStaleExit(PrepareAll(cfg, ops[|ops| - 1].legs));
      }
    }
  }

  /** A closed leg has made what its record says: the signed difference of exit and entry notional,
      less both commissions. */
  lemma ClosedLegCash(leg: Leg)
    requires leg.closed
    ensures EntryFlow(leg) + ExitFlow(leg) == leg.RealizedPnL()
  {
    var m := leg.contract.Multiplier();
    var q, e, c := leg.qty, leg.entryPrice, leg.closePrice;
    Distribute(q, c, e);
    Distribute(q, e, c);
    DifferenceTimes(q * c, q * e, m);
    DifferenceTimes(q * e, q * c, m);
  }

  lemma DifferenceTimes(a: real, b: real, m: real)
    ensures (a - b) * m == a * m - b * m
  {
  }

  /** A fully closed book, opened from fresh legs, has gained exactly the realized PnL of its legs. */
  lemma ClosedBookGains(cfg: Config, cash: real, ops: seq<SpreadOp>)
    requires forall i :: 0 <= i < |ops| ==> OpensFresh(ops[i])
    requires var t := RunSpreads(cfg, cash, ops).tracker; forall id :: id in t.spreads ==> FullyClosed(t.spreads[id])
    ensures var a := RunSpreads(cfg, cash, ops); a.cash - cash == OverLegs(a.tracker, RealizedOf())
  {
    var t := RunSpreads(cfg, cash, ops).tracker;
    RunSpreadCash(cfg, cash, ops);
    FreshRunsHaveNoStaleExits(cfg, ops);
    hide RunSpreads;
    hide StaleExits;
    forall id | id in t.spreads
      ensures PerSpread(t, CashOf())[id] == PerSpread(t, RealizedOf())[id]
    {
      ClosedLegsCash(t.spreads[id]);
    }
    hide Sum;
    hide FullyClosed;
    assert PerSpread(t, CashOf()) == PerSpread(t, RealizedOf());
  }

  lemma {:induction false} ClosedLegsCash(legs: seq<Leg>)
    requires FullyClosed(legs)
    ensures Sum(legs, CashOf()) == Sum(legs, RealizedOf())
  {
    if legs == [] {
    } else {
      ClosedLegsCash(legs[..|legs| - 1]);
      ClosedLegCash(legs[|legs| - 1]);
    }
  }

  /** Opening a leg that claims to be closed books an exit that was never paid: here the record of
      the book says a profit of 50 where cash has only lost the premium of 100. */
  lemma StaleLegBreaksTheBooks(cfg: Config)
    requires cfg.commissionModel == NoCommission
    ensures var leg := Leg(Contract("us", "X", "O:X", 0.0, 0.0, 0.0), Buy, 1.0, 1.0, 0.0, true, 1.5, 0.0);
      var a := RunSpreads(cfg, 0.0, [OpenSpread([leg])]);
      a.cash == -100.0 && leg.RealizedPnL() == 50.0 && StaleExits(cfg, [OpenSpread([leg])]) == 150.0
  {
    var leg := Leg(Contract("us", "X", "O:X", 0.0, 0.0, 0.0), Buy, 1.0, 1.0, 0.0, true, 1.5, 0.0);
    var op := OpenSpread([leg]);
    assert leg.contract.Multiplier() == 100.0;
    assert PrepareAll(cfg, [leg]) == [leg];
    assert [op][..0] == [] && [leg][..0] == [];
    assert EntryFlow(leg) == -100.0 && ExitFlow(leg) == 150.0;
    assert EntryFlows([leg]) == EntryFlows([]) + EntryFlow(leg);
    assert Sum([leg], StaleExit()) == Sum([], StaleExit()) + 150.0;
    assert RunSpreads(cfg, 0.0, [op]) == ApplySpread(cfg, RunSpreads(cfg, 0.0, []), op);
  }

  // ---- Valuation ----

  lemma {:induction false} LegsValueIsSum(legs: seq<Leg>, chain: Chain)
    ensures LegsValue(legs, chain) == Sum(legs, ValueOf(chain))
  {
    if legs == [] {
    } else {
      LegsValueIsSum(legs[..|legs| - 1], chain);
    }
  }

  lemma {:induction false} ClosedLegsWorthNothing(legs: seq<Leg>, chain: Chain)
    requires FullyClosed(legs)
    ensures Sum(legs, ValueOf(chain)) == 0.0
  {
    if legs == [] {
    } else {
      ClosedLegsWorthNothing(legs[..|legs| - 1], chain);
    }
  }

  function FirstOpen(t: Tracker, n: nat): set<int>
    requires n <= |t.open|
  {
    set i | 0 <= i < n :: t.open[i]
  }

  lemma {:induction false} OpenListSum(t: Tracker, chain: Chain, n: nat)
    requires SoundTracker(t) && n <= |t.open|
    ensures SpreadEquity(t, chain, n) == Total(Restrict(PerSpread(t, ValueOf(chain)), FirstOpen(t, n)))
  {
    var values := PerSpread(t, ValueOf(chain));
    hide Sum;
    hide Total;
    hide LegsValue;
    hide FullyClosed;
    hide Restrict;
    if n == 0 {
      assert FirstOpen(t, 0) == {};
      TotalRestrict(values);
    } else {
      var id := t.open[n - 1];
      OpenListSum(t, chain, n - 1);
      LegsValueIsSum(t.spreads[id], chain);
      assert id !in FirstOpen(t, n - 1);
      assert FirstOpen(t, n) == FirstOpen(t, n - 1) + {id};
      TotalRestrictStep(values, FirstOpen(t, n), id);
      assert FirstOpen(t, n) - {id} == FirstOpen(t, n - 1);
    }
  }

  /** In a sound tracker the open list misses nothing: the loop over it values every open leg of
      every spread exactly once. */
  lemma OpenEquityIsAllLegs(t: Tracker, chain: Chain)
    requires SoundTracker(t)
    ensures OpenEquity(t, chain) == OverLegs(t, ValueOf(chain))
  {
    var values := PerSpread(t, ValueOf(chain));
    var listed := FirstOpen(t, |t.open|);
    OpenListSum(t, chain, |t.open|);
    forall id | id in values
      ensures values[id] == GetOr(Restrict(values, listed), id, 0.0)
    {
      if id !in t.open {
        ClosedLegsWorthNothing(t.spreads[id], chain);
      } else {
        var i :| 0 <= i < |t.open| && t.open[i] == id;
        assert id in listed;
      }
    }
    hide Sum;
    TotalOfNonZero(Restrict(values, listed), values);
  }

  /** Closing a leg at its current mark is free but for its commission, exactly when the leg names a
      side: marking takes any leg but a bought one for a sold one, closing takes any leg but a sold
      one for a bought one. `available` is the current chain. */
  lemma CloseAtMark(cfg: Config, a: Account, id: int, index: int, available: seq<Contract>)
    requires SoundTracker(a.tracker) && forall c :: c in available ==> Separable(c)
    requires id in a.tracker.spreads && 0 <= index < |a.tracker.spreads[id]|
    requires var leg := a.tracker.spreads[id][index];
      && !leg.closed && leg.qty > 0.0 && Separable(leg.contract)
      && OptionPriceValid(OptionMark(Current(Snapshot(available), leg.contract)))
    ensures var chain := Snapshot(available);
      var leg := a.tracker.spreads[id][index];
      var mark := OptionMark(Current(chain, leg.contract));
      var a' := S.CloseLeg(cfg, a, id, index, mark).0;
      var before := a.cash + OpenEquity(a.tracker, chain);
      var after := a'.cash + OpenEquity(a'.tracker, chain);
      after == before - LegCommission(cfg, leg, mark) <==> leg.side != Unset
  {
    hide Snapshot;
    hide Current;
    hide Sum;
    hide OverLegs;
    hide OpenEquity;
    hide OptionMark;
    hide LegValue;
    hide ExitFlowAt;
    hide LegCommission;
    var chain := Snapshot(available);
    var t := a.tracker;
    var legs := t.spreads[id];
    var leg := legs[index];
    var mark := OptionMark(Current(chain, leg.contract));
    var closed := CloseLegAt(leg, mark, LegCommission(cfg, leg, mark));
    var t' := S.CloseLeg(cfg, a, id, index, mark).0.tracker;
    CloseLegPays(cfg, a, id, index, mark);
    hide SoundTracker;
    OpenEquityIsAllLegs(t, chain);
    OpenEquityIsAllLegs(t', chain);
    assert t'.spreads == t.spreads[id := legs[index := closed]];
    OverLegsPut(t, t', id, legs[index := closed], ValueOf(chain));
    SumUpdate(legs, index, closed, ValueOf(chain));
    ClosedLegIsWorthless(closed, chain);
    LookupKeepsContract(available, leg.contract);
    MarkedLeg(cfg, leg, chain);
  }

  lemma ClosedLegIsWorthless(leg: Leg, chain: Chain)
    requires leg.closed
    ensures LegValue(leg, chain) == 0.0
  {
  }

  lemma MarkedLeg(cfg: Config, leg: Leg, chain: Chain)
    requires !leg.closed && leg.qty > 0.0 && OptionPriceValid(OptionMark(Current(chain, leg.contract)))
    requires Current(chain, leg.contract).Multiplier() == leg.contract.Multiplier()
    ensures var mark := OptionMark(Current(chain, leg.contract));
      ExitFlowAt(cfg, leg, mark) == LegValue(leg, chain) - LegCommission(cfg, leg, mark) <==> leg.side != Unset
  {
    hide OptionMark;
    hide LegCommission;
    hide Current;
    var mark := OptionMark(Current(chain, leg.contract));
    var m := leg.contract.Multiplier();
    NonZeroProduct(leg.qty, mark);
    NonZeroProduct(leg.qty * mark, m);
    assert leg.Notional(mark) == leg.qty * mark * m;
  }

  lemma OneMoreSpreadOp(cfg: Config, cash: real, ops: seq<SpreadOp>, op: SpreadOp)
    ensures RunSpreads(cfg, cash, ops + [op]) == ApplySpread(cfg, RunSpreads(cfg, cash, ops), op)
  {
    hide ApplySpread;
    assert (ops + [op])[..|ops|] == ops;
  }

  /** One contract, bought by its entry flow and marked as sold. */
  function SidelessLeg(): Leg {
    Leg(Contract("us", "X", "O:X", 1.0, 0.0, 0.0), Unset, 1.0, 1.0, 0.0, false, 0.0, 0.0)
  }

  lemma SidelessLegOpened(cfg: Config, chain: Chain)
    requires cfg.commissionModel == NoCommission && chain == map[]
    ensures var a := ApplySpread(cfg, Account(0.0, EMPTY), OpenSpread([SidelessLeg()]));
      a == Account(-100.0, Tracker(map[1 := [SidelessLeg()]], [1], [], 2)) && OpenEquity(a.tracker, chain) == -100.0
  {
    var leg := SidelessLeg();
    assert leg.contract.Multiplier() == 100.0;
    assert PrepareAll(cfg, [leg]) == [leg];
    assert EntryFlows([leg]) == -100.0 by {
      assert [leg][..0] == [];
    }
    var t := Tracker(map[1 := [leg]], [1], [], 2);
    assert Current(chain, leg.contract) == leg.contract;
    assert OptionMark(leg.contract) == 1.0;
    assert LegValue(leg, chain) == -100.0;
    assert LegsValue([leg], chain) == -100.0 by {
      assert [leg][..0] == [];
    }
    assert SpreadEquity(t, chain, 1) == SpreadEquity(t, chain, 0) + LegsValue([leg], chain);
  }

  lemma SidelessLegClosed(cfg: Config, chain: Chain)
    requires cfg.commissionModel == NoCommission
    ensures var held := Tracker(map[1 := [SidelessLeg()]], [1], [], 2);
      var a := ApplySpread(cfg, Account(-100.0, held), CloseSpreadLeg(1, 0, 1.0));
      a.cash == 0.0 && OpenEquity(a.tracker, chain) == 0.0
  {
    var leg := SidelessLeg();
    assert leg.contract.Multiplier() == 100.0;
    var t := Tracker(map[1 := [leg]], [1], [], 2);
    assert FullyClosed([leg][0 := CloseLegAt(leg, 1.0, 0.0)]);
    assert Remove([1], 1) == [];
  }

  /** A run: a leg opened without a side at its mark takes a book to a loss of 200, and closing it at
      the same mark, free of commission, takes the loss back. */
  lemma SidelessLegIsMarkedAsSold(cfg: Config)
    requires cfg.commissionModel == NoCommission
    ensures var open := RunSpreads(cfg, 0.0, [OpenSpread([SidelessLeg()])]);
      var closed := RunSpreads(cfg, 0.0, [OpenSpread([SidelessLeg()])] + [CloseSpreadLeg(1, 0, 1.0)]);
      && open.cash + OpenEquity(open.tracker, map[]) == -200.0
      && closed.cash + OpenEquity(closed.tracker, map[]) == 0.0
  {
    hide ApplySpread;
    hide OpenEquity;
    hide SidelessLeg;
    var opening := OpenSpread([SidelessLeg()]);
    SidelessLegOpened(cfg, map[]);
    SidelessLegClosed(cfg, map[]);
    OneMoreSpreadOp(cfg, 0.0, [], opening);
    assert [] + [opening] == [opening];
    OneMoreSpreadOp(cfg, 0.0, [opening], CloseSpreadLeg(1, 0, 1.0));
    assert RunSpreads(cfg, 0.0, []) == Account(0.0, EMPTY);
  }

  // ---- Spreads and trades together ----

  /** What a leg has made at the current marks: its realized PnL, or entry flow plus value. */
  function MadeByLeg(chain: Chain): Leg -> real {
    (leg: Leg) => if leg.closed then leg.RealizedPnL() else EntryFlow(leg) + LegValue(leg, chain)
  }

  lemma {:induction false} MadeByLegs(legs: seq<Leg>, chain: Chain)
    ensures Sum(legs, MadeByLeg(chain)) == Sum(legs, CashOf()) + Sum(legs, ValueOf(chain))
  {
    if legs == [] {
    } else {
      MadeByLegs(legs[..|legs| - 1], chain);
      var leg := legs[|legs| - 1];
      if leg.closed {
        ClosedLegCash(leg);
      }
    }
  }

  /** What a strategy does through its bar context: it trades, and it opens and closes spreads, all
      paid from the broker's cash. */
  datatype ContextOp = Trading(trade: Op) | Spreading(spread: SpreadOp)

  datatype Context = Context(book: Book, tracker: Tracker)

  function ContextStep(cfg: Config, c: Context, op: ContextOp): Context {
    match op
    case Trading(trade) => c.(book := Apply(cfg, c.book, trade))
    case Spreading(spread) =>
      var a := ApplySpread(cfg, Account(c.book.cash, c.tracker), spread);
      Context(c.book.(cash := a.cash), a.tracker)
  }

  function RunContext(cfg: Config, ops: seq<ContextOp>): Context {
    if ops == [] then Context(Initial(cfg), EMPTY)
    else ContextStep(cfg, RunContext(cfg, ops[..|ops| - 1]), ops[|ops| - 1])
  }

  /** The amounts put in from outside: the adjustments that are not spread flows. */
  function PutIn(ops: seq<ContextOp>): real {
    if ops == [] then 0.0
    else
      var op := ops[|ops| - 1];
      PutIn(ops[..|ops| - 1]) + if op.Trading? && op.trade.AdjustCash? then op.trade.amount else 0.0
  }

  ghost function StaleExitsIn(cfg: Config, ops: seq<ContextOp>): real {
    if ops == [] then 0.0
    else
      var op := ops[|ops| - 1];
      StaleExitsIn(cfg, ops[..|ops| - 1]) + if op.Spreading? then StaleExitOf(cfg, op.spread) else 0.0
  }

  /** The books of a context: the broker's cash is what was put in, what the trades paid, and the
      whole cash effect of the legs, except for the exits that stale legs claimed. */
  ghost predicate ContextAgrees(cfg: Config, c: Context, putIn: real, stale: real) {
    && Ledger(c.book, c.book.trades)
    && SoundTracker(c.tracker)
    && CashAgrees(cfg, c.book, c.book.trades, putIn + OverLegs(c.tracker, CashOf()) - stale)
  }

  lemma MovedCashAgrees(cfg: Config, b: Book, adjusted: real, cash: real)
    requires Ledger(b, b.trades) && CashAgrees(cfg, b, b.trades, adjusted)
    ensures Ledger(b.(cash := cash), b.trades)
    ensures CashAgrees(cfg, b.(cash := cash), b.trades, adjusted + (cash - b.cash))
  {
  }

  lemma ContextStepAgrees(cfg: Config, c: Context, putIn: real, stale: real, op: ContextOp)
    requires ContextAgrees(cfg, c, putIn, stale)
    ensures ContextAgrees(cfg, ContextStep(cfg, c, op),
                          putIn + if op.Trading? && op.trade.AdjustCash? then op.trade.amount else 0.0,
                          stale + if op.Spreading? then StaleExitOf(cfg, op.spread) else 0.0)
  {
    hide Ledger;
    hide SoundTracker;
    hide OverLegs;
    hide CashAgrees;
    hide StaleExitOf;
    var adjusted := putIn + OverLegs(c.tracker, CashOf()) - stale;
    match op {
      case Trading(trade) =>
        ApplyKeepsLedger(cfg, c.book, trade);
        ApplyCash(cfg, c.book, adjusted, trade);
        hide Apply;
        var amount := if trade.AdjustCash? then trade.amount else 0.0;
        assert putIn + amount + OverLegs(c.tracker, CashOf()) - (stale + 0.0) == adjusted + amount;
      case Spreading(spread) =>
        var a := Account(c.book.cash, c.tracker);
        SpreadStepPays(cfg, a, spread);
        hide ApplySpread;
        var a' := ApplySpread(cfg, a, spread);
        MovedCashAgrees(cfg, c.book, adjusted, a'.cash);
        assert putIn + 0.0 + OverLegs(a'.tracker, CashOf()) - (stale + StaleExitOf(cfg, spread))
            == adjusted + (a'.cash - c.book.cash);
    }
  }

  /** Over every interleaving of trades and spread calls on the one cash balance, the books agree. */
  lemma {:induction false} RunContextAgrees(cfg: Config, ops: seq<ContextOp>)
    ensures ContextAgrees(cfg, RunContext(cfg, ops), PutIn(ops), StaleExitsIn(cfg, ops))
  {
    if ops == [] {
      RunKeepsLedger(cfg, []);
      RunCash(cfg, []);
      TotalZero(PerSpread(EMPTY, CashOf()));
    } else {
      var front := ops[..|ops| - 1];
      RunContextAgrees(cfg, front);
      hide ContextAgrees;
      ContextStepAgrees(cfg, RunContext(cfg, front), PutIn(front), StaleExitsIn(cfg, front), ops[|ops| - 1]);
      hide ContextStep;
    }
  }

  /** The operation names a side for every order, and opens no leg that is marked closed. */
  predicate Proper(op: ContextOp) {
    match op
    case Trading(trade) => NamesSide(trade)
    case Spreading(spread) => OpensFresh(spread)
  }

  lemma {:induction false} ProperContext(cfg: Config, ops: seq<ContextOp>)
    requires forall i :: 0 <= i < |ops| ==> Proper(ops[i])
    ensures var b := RunContext(cfg, ops).book; OrdersSided(b.pending) && TradesSided(b.trades)
    ensures StaleExitsIn(cfg, ops) == 0.0
  {
    if ops == [] {
    } else {
      var front, op := ops[..|ops| - 1], ops[|ops| - 1];
      ProperContext(cfg, front);
      assert Proper(ops[|ops| - 1]);
      match op {
        case Trading(trade) => ApplyKeepsSides(cfg, RunContext(cfg, front).book, trade);
        case Spreading(spread) =>
          if spread.OpenSpread? {
            FreshHasNoStaleExit(PrepareAll(cfg, spread.legs));
          }
      }
      hide ApplySpread;
      hide Apply;
    }
  }

  lemma LegsMade(t: Tracker, chain: Chain)
    requires SoundTracker(t)
    ensures OverLegs(t, MadeByLeg(chain)) == OverLegs(t, CashOf()) + OpenEquity(t, chain)
  {
    OpenEquityIsAllLegs(t, chain);
    hide OpenEquity;
    hide SoundTracker;
    forall id | id in t.spreads
      ensures PerSpread(t, MadeByLeg(chain))[id] == PerSpread(t, CashOf())[id] + PerSpread(t, ValueOf(chain))[id]
    {
      MadeByLegs(t.spreads[id], chain);
    }
    hide Sum;
    TotalAdd(PerSpread(t, CashOf()), PerSpread(t, ValueOf(chain)), PerSpread(t, MadeByLeg(chain)));
  }

  /** The profit of a whole context. After any interleaving of trades and spread calls, with every
      open position marked: total PnL (broker plus open spreads) is the promised profit of the trades
      and of what was put in, plus what every leg has made, except for the amounts of trades without a
      side and the exits of stale legs. Both vanish when every order handed in names a side and every
      leg is opened fresh. */
  lemma ContextPnl(cfg: Config, ops: seq<ContextOp>, chain: Chain)
    requires var b := RunContext(cfg, ops).book; b.quotes.Some? && AllMarked(cfg, b)
    ensures var c := RunContext(cfg, ops);
      var totalPnL := Equity(cfg, c.book) - cfg.initialCapital + OpenEquity(c.tracker, chain);
      var promised := Promised(cfg, c.book, PutIn(ops)) + OverLegs(c.tracker, MadeByLeg(chain));
      && totalPnL == promised + Sum(c.book.trades, Quoted(cfg, Sideless())) - StaleExitsIn(cfg, ops)
      && ((forall i :: 0 <= i < |ops| ==> Proper(ops[i])) ==> totalPnL == promised)
  {
    var c := RunContext(cfg, ops);
    RunContextAgrees(cfg, ops);
    if forall i :: 0 <= i < |ops| ==> Proper(ops[i]) {
      ProperContext(cfg, ops);
    }
    assert forall i :: 0 <= i < |c.book.trades| ==> ValidTrade(c.book.trades[i]);
    hide RunContext;
    hide Ledger;
    hide CashAgrees;
    var moved := OverLegs(c.tracker, CashOf());
    StatePnl(cfg, c.book, PutIn(ops) + moved - StaleExitsIn(cfg, ops));
    SidelessExcess(cfg, c.book.trades);
    LegsMade(c.tracker, chain);
    hide Sum;
    hide OverLegs;
    hide Equity;
    hide OpenEquity;
    hide SoundTracker;
    hide StaleExitsIn;
  }
}
