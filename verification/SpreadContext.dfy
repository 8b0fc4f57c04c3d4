/**
 The spread tracker and the bar context as the source has them: objects that update their fields,
 with all cash going through the broker (internal/backtest/options.go:764-869 and
 internal/backtest/context.go:646-829, 1026-1068).
 */
module SpreadContext {
  import opened Market
  import opened Sums
  import opened Chains
  import opened Spreads
  import opened Brokers

  class SpreadTracker {
    var spreads: map<int, seq<Leg>>
    var open: seq<int>
    var archive: seq<int>
    var nextID: int

    ghost function State(): Tracker
      reads this
    {
      Tracker(spreads, open, archive, nextID)
    }

    constructor ()
      ensures State() == EMPTY
    {
      spreads, open, archive, nextID := map[], [], [], 1;
    }

    method OpenFull(legs: seq<Leg>) returns (id: int)
      modifies this
      ensures id == old(nextID)
      ensures State() == old(State()).(
        spreads := old(spreads)[id := legs], open := old(open) + [id], nextID := id + 1)
    {
      id := nextID;
      nextID := nextID + 1;
      open := open + [id];
      spreads := spreads[id := legs];
    }

    method IsFullyClosed(id: int) returns (closed: bool)
      requires id in spreads
      ensures closed == FullyClosed(spreads[id])
    {
      var legs := spreads[id];
      for i := 0 to |legs|
        invariant forall j :: 0 <= j < i ==> legs[j].closed
      {
        if !legs[i].closed {
          return false;
        }
      }
      return true;
    }

    method ArchiveIfClosed(id: int)
      requires id in spreads
      modifies this
      ensures State() == Archived(old(State()), id)
    {
      var closed := IsFullyClosed(id);
      if !closed {
        return;
      }
      for i := 0 to |open|
        invariant open == old(open) && archive == old(archive) && spreads == old(spreads) && nextID == old(nextID)
        invariant forall j :: 0 <= j < i ==> open[j] != id
      {
        if open[i] == id {
          RemoveFirst(open, id, i);
          open := open[..i] + open[i + 1..];
          archive := archive + [id];
          return;
        }
      }
    }

    method CloseLegFull(id: int, index: int, price: real, commission: real) returns (ok: bool)
      modifies this
      ensures (State(), ok) == CloseInTracker(old(State()), id, index, price, commission)
    {
      if id !in spreads || index < 0 || index >= |spreads[id]| {
        return false;
      }
      var legs := spreads[id];
      if legs[index].closed {
        return false;
      }
      spreads := spreads[id := legs[index := CloseLegAt(legs[index], price, commission)]];
      ArchiveIfClosed(id);
      return true;
    }
  }

  lemma RemoveLater(ids: seq<int>, id: int)
    requires ids != [] && ids[0] != id
    ensures Remove(ids, id) == [ids[0]] + Remove(ids[1..], id)
  {
  }

  lemma {:induction false} RemoveFirst(ids: seq<int>, id: int, i: nat)
    requires i < |ids| && ids[i] == id && forall j :: 0 <= j < i ==> ids[j] != id
    ensures Remove(ids, id) == ids[..i] + ids[i + 1..]
  {
    if i == 0 {
    } else {
      var rest := ids[1..];
      RemoveFirst(rest, id, i - 1);
      RemoveLater(ids, id);
      hide Remove;
      assert ids[..i] == [ids[0]] + rest[..i - 1];
      assert rest[i..] == ids[i + 1..];
    }
  }

  lemma EquityOfList(t: Tracker, chain: Chain)
    ensures SpreadEquity(t, chain, 0) == 0.0
    ensures OpenEquity(t, chain) == SpreadEquity(t, chain, |t.open|)
  {
  }

  lemma LegValueCases(leg: Leg, chain: Chain)
    ensures var c := Current(chain, leg.contract);
      LegValue(leg, chain) ==
        if leg.closed || !OptionPriceValid(OptionMark(c)) then 0.0
        else if leg.side == Buy then Marked(leg, c) else -Marked(leg, c)
  {
    hide Current;
    hide OptionMark;
    hide IsUSChainMarket;
  }

  lemma EquityStep(t: Tracker, chain: Chain, i: nat)
    requires i < |t.open|
    ensures var legs := GetOr(t.spreads, t.open[i], []);
      SpreadEquity(t, chain, i + 1) == SpreadEquity(t, chain, i) + LegsValue(legs, chain)
    ensures LegsValue([], chain) == 0.0
  {
    hide LegValue;
  }

  lemma LegsValueStep(legs: seq<Leg>, chain: Chain, j: nat)
    requires j < |legs|
    ensures LegsValue(legs[..j + 1], chain) == LegsValue(legs[..j], chain) + LegValue(legs[j], chain)
  {
    hide LegValue;
    assert legs[..j + 1][..j] == legs[..j];
  }

  class BarContext {
    const broker: Broker
    const tracker: SpreadTracker

    ghost function State(): Account
      reads broker, tracker
    {
      Account(broker.cash, tracker.State())
    }

    /** Only the broker's cash has moved, and to where the account says. */
    twostate predicate OnlyCashMoved()
      reads broker
    {
      broker.State() == old(broker.State()).(cash := broker.cash)
    }

    constructor (broker: Broker, tracker: SpreadTracker)
      ensures this.broker == broker && this.tracker == tracker
    {
      this.broker, this.tracker := broker, tracker;
    }

    method PrepareOpenSpreadLegs(legs: seq<Leg>) returns (prepared: seq<Leg>)
      ensures prepared == PrepareAll(broker.config, legs)
    {
      prepared := legs;
      for i := 0 to |legs|
        invariant |prepared| == |legs|
        invariant forall j :: 0 <= j < |legs| ==>
          prepared[j] == if j < i then Prepare(broker.config, legs[j]) else legs[j]
      {
        var commission := LegCommission(broker.config, prepared[i], prepared[i].entryPrice);
        prepared := prepared[i := prepared[i].(entryCommission := commission)];
      }
    }

    method ApplyOpenSpreadCashImpact(legs: seq<Leg>)
      modifies broker
      ensures broker.cash == old(broker.cash) + EntryFlows(legs) && OnlyCashMoved()
    {
      for i := 0 to |legs|
        invariant broker.cash == old(broker.cash) + EntryFlows(legs[..i]) && OnlyCashMoved()
      {
        assert legs[..i + 1][..i] == legs[..i];
        var amount := legs[i].Notional(legs[i].entryPrice);
        if legs[i].side == Sell {
          broker.AdjustCash(amount - legs[i].entryCommission);
        } else {
          broker.AdjustCash(-(amount + legs[i].entryCommission));
        }
      }
      assert legs[..|legs|] == legs;
    }

    method ApplyCloseSpreadCashImpact(leg: Leg, closePrice: real)
      modifies broker
      ensures broker.cash == old(broker.cash) + ExitFlowAt(broker.config, leg, closePrice) && OnlyCashMoved()
    {
      var amount := leg.Notional(closePrice);
      var commission := LegCommission(broker.config, leg, closePrice);
      if leg.side == Sell {
        broker.AdjustCash(-(amount + commission));
        return;
      }
      broker.AdjustCash(amount - commission);
    }

    method OpenSpread(legs: seq<Leg>) returns (id: int)
      modifies broker, tracker
      ensures (State(), id) == Open(broker.config, old(State()), legs) && OnlyCashMoved()
    {
      var prepared := PrepareOpenSpreadLegs(legs);
      ApplyOpenSpreadCashImpact(prepared);
      id := tracker.OpenFull(prepared);
    }

    method AppendSpreadLegs(id: int, legs: seq<Leg>) returns (ok: bool)
      modifies broker, tracker
      ensures (State(), ok) == Append(broker.config, old(State()), id, legs) && OnlyCashMoved()
    {
      if |legs| == 0 || id !in tracker.spreads {
        return false;
      }
      var closed := tracker.IsFullyClosed(id);
      if closed {
        return false;
      }
      var prepared := PrepareOpenSpreadLegs(legs);
      var added := prepared;
      for i := 0 to |prepared|
        invariant |added| == |prepared| && broker.State() == old(broker.State())
          && tracker.State() == old(tracker.State())
        invariant forall j :: 0 <= j < |prepared| ==> added[j] == if j < i then Fresh(prepared[j]) else prepared[j]
      {
        added := added[i := added[i].(closed := false, closePrice := 0.0)];
      }
      assert added == FreshAll(prepared);
      ApplyOpenSpreadCashImpact(added);
      tracker.spreads := tracker.spreads[id := tracker.spreads[id] + added];
      return true;
    }

    method CloseSpreadLeg(id: int, index: int, closePrice: real) returns (ok: bool)
      modifies broker, tracker
      ensures (State(), ok) == CloseLeg(broker.config, old(State()), id, index, closePrice) && OnlyCashMoved()
    {
      if id !in tracker.spreads || index < 0 || index >= |tracker.spreads[id]| {
        return false;
      }
      var leg := tracker.spreads[id][index];
      if leg.closed {
        return false;
      }
      var closeCommission := LegCommission(broker.config, leg, closePrice);
      ApplyCloseSpreadCashImpact(leg, closePrice);
      ok := tracker.CloseLegFull(id, index, closePrice, closeCommission);
    }

    method CloseSpread(id: int, price: Contract -> real)
      modifies broker, tracker
      ensures State() == Spreads.CloseSpread(broker.config, old(State()), id, price) && OnlyCashMoved()
    {
      if id !in tracker.spreads {
        return;
      }
      var n := |tracker.spreads[id]|;
      for i := 0 to n
        invariant State() == CloseFirst(broker.config, old(State()), id, price, i) && OnlyCashMoved()
        invariant id in tracker.spreads && |tracker.spreads[id]| == n
      {
        var leg := tracker.spreads[id][i];
        if !leg.closed {
          var ok := CloseSpreadLeg(id, i, price(leg.contract));
        }
      }
    }

    method SpreadUnrealizedEquity(available: seq<Contract>) returns (value: real)
      ensures value == OpenEquity(tracker.State(), Snapshot(available))
    {
      ghost var t := tracker.State();
      assert t.open == tracker.open && t.spreads == tracker.spreads;
      hide *;
      var chain := SnapshotOf(available);
      value := 0.0;
      EquityOfList(t, chain);
      for i := 0 to |tracker.open|
        invariant value == SpreadEquity(t, chain, i)
      {
        var legs := GetOr(tracker.spreads, tracker.open[i], []);
        EquityStep(t, chain, i);
        for j := 0 to |legs|
          invariant value == SpreadEquity(t, chain, i) + LegsValue(legs[..j], chain)
        {
          LegsValueStep(legs, chain, j);
          LegValueCases(legs[j], chain);
          if legs[j].closed {
            continue;
          }
          var contract := CurrentOf(chain, legs[j].contract);
          var mark := OptionMark(contract);
          if !OptionPriceValid(mark) {
            continue;
          }
          var notional := Marked(legs[j], contract);
          if legs[j].side == Buy {
            value := value + notional;
          } else {
            value := value - notional;
          }
        }
        assert legs[..|legs|] == legs;
      }
    }
  }
}
