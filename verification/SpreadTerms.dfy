/**
 At which prices spread legs open and close, and what each of them pays, said from the legs before the
 call and the prices alone (internal/backtest/context.go:646-829).
 */
module SpreadTerms {
  import opened Market
  import opened Sums
  import opened Chains
  import opened FillLaws
  import S = Spreads
  import opened Spreads
  import opened SpreadContext

  /** Units of the underlying in one contract. */
  function SizeOf(c: Contract): real {
    if c.market in ["us", "us-options", "us-stocks", "us-stock", "us-underlying", "stocks"] then 100.0
    else if "O:" <= c.symbol then 100.0
    else 1.0
  }

  lemma MultiplierIs(c: Contract)
    ensures c.Multiplier() == SizeOf(c)
  {
    assert "O:" <= c.symbol <==> |c.symbol| >= 2 && c.symbol[..2] == "O:";
  }

  function Amount(leg: Leg, price: real): real {
    price * (leg.qty * SizeOf(leg.contract))
  }

  /** What a leg is charged at a price; the charge for each unit is by the contract. */
  function Fee(cfg: Config, leg: Leg, price: real): real {
    if leg.qty > 0.0 && price > 0.0 then Charge(cfg, leg.qty, Amount(leg, price)) else 0.0
  }

  lemma AmountIs(leg: Leg, price: real)
    ensures leg.Notional(price) == Amount(leg, price)
  {
    MultiplierIs(leg.contract);
    hide SizeOf;
    hide IsUSChainMarket;
    var m := leg.contract.Multiplier();
    Regroup(leg.qty, price, m);
  }

  lemma Regroup(q: real, p: real, m: real)
    ensures q * p * m == p * (q * m)
  {
  }

  lemma FeeIs(cfg: Config, leg: Leg, price: real)
    ensures LegCommission(cfg, leg, price) == Fee(cfg, leg, price)
  {
    AmountIs(leg, price);
    CommissionIs(cfg, leg.qty, price, leg.Notional(price));
    hide CommissionForNotional;
    hide Amount;
  }

  // ---- Closing ----

  /** A leg as closing it at a price leaves it. */
  function ClosedAt(cfg: Config, leg: Leg, price: real): Leg {
    leg.(closed := true, closePrice := price, closeCommission := Fee(cfg, leg, price))
  }

  /** What closing a leg at a price brings in: a sold leg is bought back. */
  function Proceeds(cfg: Config, leg: Leg, price: real): real {
    (if leg.side == Sell then -Amount(leg, price) else Amount(leg, price)) - Fee(cfg, leg, price)
  }

  /** The tracker has forgotten or kept the spread on its lists: it moves from the open list to the end
      of the archive when its last leg closes. */
  ghost predicate Shelved(t: Tracker, t': Tracker, id: int, done: bool) {
    && t'.nextID == t.nextID
    && (if done && id in t.open then
          && t'.archive == t.archive + [id]
          && exists i :: 0 <= i < |t.open| && t.open[i] == id && id !in t.open[..i]
               && t'.open == t.open[..i] + t.open[i + 1..]
        else t'.archive == t.archive && t'.open == t.open)
  }

  lemma {:induction false} FirstOf(ids: seq<int>, id: int) returns (i: nat)
    requires id in ids
    ensures i < |ids| && ids[i] == id && id !in ids[..i]
  {
    if ids[0] == id {
      i := 0;
    } else {
      assert ids == [ids[0]] + ids[1..];
      i := FirstOf(ids[1..], id);
      assert ids[..i + 1] == [ids[0]] + ids[1..][..i];
      i := i + 1;
    }
  }

  lemma ArchivedIsShelved(t: Tracker, id: int)
    requires id in t.spreads
    ensures Shelved(t, Archived(t, id), id, FullyClosed(t.spreads[id])) && Archived(t, id).spreads == t.spreads
  {
    if FullyClosed(t.spreads[id]) && id in t.open {
      var i := FirstOf(t.open, id);
      assert forall j :: 0 <= j < i ==> t.open[..i][j] == t.open[j];
      RemoveFirst(t.open, id, i);
    }
  }

  /** Closing one open leg: it is closed at the price and nothing else of any spread changes, and cash
      moves by its proceeds. */
  lemma CloseLegIs(cfg: Config, a: Account, id: int, index: int, price: real)
    requires id in a.tracker.spreads && 0 <= index < |a.tracker.spreads[id]| && !a.tracker.spreads[id][index].closed
    ensures var (a', ok) := S.CloseLeg(cfg, a, id, index, price);
      var legs := a.tracker.spreads[id];
      var legs' := legs[index := ClosedAt(cfg, legs[index], price)];
      && ok
      && a'.tracker.spreads == a.tracker.spreads[id := legs']
      && Shelved(a.tracker, a'.tracker, id, FullyClosed(legs'))
      && a'.cash == a.cash + Proceeds(cfg, legs[index], price)
  {
    var t, leg := a.tracker, a.tracker.spreads[id][index];
    FeeIs(cfg, leg, price);
    AmountIs(leg, price);
    hide Fee;
    hide Amount;
    hide LegCommission;
    var put := t.(spreads := t.spreads[id := t.spreads[id][index := ClosedAt(cfg, leg, price)]]);
    ArchivedIsShelved(put, id);
    hide Archived;
  }

  /** What closing a spread makes of its first `n` legs: each open one is closed at the price of its own
      contract. */
  function ClosedFirst(cfg: Config, legs: seq<Leg>, price: Contract -> real, n: nat): (r: seq<Leg>)
    ensures |r| == |legs|
    ensures forall i :: 0 <= i < |r| ==>
      r[i] == if i < n && !legs[i].closed then ClosedAt(cfg, legs[i], price(legs[i].contract)) else legs[i]
  {
    seq(|legs|, i requires 0 <= i < |legs| =>
      if i < n && !legs[i].closed then ClosedAt(cfg, legs[i], price(legs[i].contract)) else legs[i])
  }

  /** What an open leg brings in at the price of its own contract. */
  function OwnProceeds(cfg: Config, price: Contract -> real): Leg -> real {
    (leg: Leg) => if leg.closed then 0.0 else Proceeds(cfg, leg, price(leg.contract))
  }

  ghost predicate ClosedSoFar(cfg: Config, a: Account, a': Account, id: int, price: Contract -> real, n: nat)
    requires id in a.tracker.spreads && n <= |a.tracker.spreads[id]|
  {
    var legs := a.tracker.spreads[id];
    var legs' := ClosedFirst(cfg, legs, price, n);
    && a'.tracker.spreads == a.tracker.spreads[id := legs']
    && Shelved(a.tracker, a'.tracker, id, !FullyClosed(legs) && FullyClosed(legs'))
    && a'.cash == a.cash + Sum(legs[..n], OwnProceeds(cfg, price))
  }

  lemma ClosedNone(cfg: Config, a: Account, id: int, price: Contract -> real)
    requires id in a.tracker.spreads
    ensures CloseFirst(cfg, a, id, price, 0) == a && ClosedSoFar(cfg, a, a, id, price, 0)
  {
    hide ClosedAt;
    hide Proceeds;
    hide CloseLeg;
    var legs := a.tracker.spreads[id];
    assert ClosedFirst(cfg, legs, price, 0) == legs;
    assert a.tracker.spreads[id := legs] == a.tracker.spreads;
  }

  lemma SumStep(cfg: Config, legs: seq<Leg>, price: Contract -> real, n: nat)
    requires n < |legs|
    ensures Sum(legs[..n + 1], OwnProceeds(cfg, price))
         == Sum(legs[..n], OwnProceeds(cfg, price)) + OwnProceeds(cfg, price)(legs[n])
  {
    assert legs[..n + 1] == legs[..n] + [legs[n]];
    SumAppend(legs[..n], legs[n], OwnProceeds(cfg, price));
    hide Sum;
  }

  /** One more leg. */
  lemma ClosedOneMore(cfg: Config, a: Account, b: Account, id: int, price: Contract -> real, n: nat)
    requires id in a.tracker.spreads && n < |a.tracker.spreads[id]| && ClosedSoFar(cfg, a, b, id, price, n)
    ensures var leg := a.tracker.spreads[id][n];
      ClosedSoFar(cfg, a, if leg.closed then b else S.CloseLeg(cfg, b, id, n, price(leg.contract)).0, id, price, n + 1)
  {
    var legs := a.tracker.spreads[id];
    var now, next := ClosedFirst(cfg, legs, price, n), ClosedFirst(cfg, legs, price, n + 1);
    var leg := legs[n];
    SumStep(cfg, legs, price, n);
    hide Sum;
    hide ClosedFirst;
    hide Proceeds;
    if leg.closed {
      assert next == now;
    } else {
      assert next == now[n := ClosedAt(cfg, leg, price(leg.contract))];
      CloseLegIs(cfg, b, id, n, price(leg.contract));
      hide ClosedAt;
      hide S.CloseLeg;
      assert !now[n].closed && !FullyClosed(now) && !FullyClosed(legs);
    }
  }

  lemma CloseFirstStep(cfg: Config, a: Account, id: int, price: Contract -> real, n: nat)
    requires id in a.tracker.spreads && n < |a.tracker.spreads[id]|
    requires ClosedSoFar(cfg, a, CloseFirst(cfg, a, id, price, n), id, price, n)
    ensures var leg, before := a.tracker.spreads[id][n], CloseFirst(cfg, a, id, price, n);
      CloseFirst(cfg, a, id, price, n + 1)
        == if leg.closed then before else S.CloseLeg(cfg, before, id, n, price(leg.contract)).0
  {
    hide S.CloseLeg;
    hide Sum;
    hide Shelved;
    hide Proceeds;
    hide ClosedAt;
    var legs := a.tracker.spreads[id];
    assert ClosedFirst(cfg, legs, price, n)[n] == legs[n];
    hide ClosedFirst;
  }

  lemma {:induction false} CloseFirstIs(cfg: Config, a: Account, id: int, price: Contract -> real, n: nat)
    requires id in a.tracker.spreads && n <= |a.tracker.spreads[id]|
    ensures ClosedSoFar(cfg, a, CloseFirst(cfg, a, id, price, n), id, price, n)
  {
    hide *;
    if n == 0 {
      ClosedNone(cfg, a, id, price);
    } else {
      CloseFirstIs(cfg, a, id, price, n - 1);
      ClosedOneMore(cfg, a, CloseFirst(cfg, a, id, price, n - 1), id, price, n - 1);
      CloseFirstStep(cfg, a, id, price, n - 1);
    }
  }

  /** Closing a spread: every leg that was open is closed at the price of its own contract, with the
      commission at that price; closed legs, other spreads and everything else of the legs are as they
      were; and cash moves by what the open legs bring in. */
  lemma CloseSpreadIs(cfg: Config, a: Account, id: int, price: Contract -> real)
    ensures var a' := S.CloseSpread(cfg, a, id, price);
      if id !in a.tracker.spreads then a' == a
      else
        var legs := a.tracker.spreads[id];
        && a'.tracker.spreads.Keys == a.tracker.spreads.Keys && |a'.tracker.spreads[id]| == |legs|
        && (forall x :: x in a.tracker.spreads && x != id ==> a'.tracker.spreads[x] == a.tracker.spreads[x])
        && (forall i :: 0 <= i < |legs| ==>
              a'.tracker.spreads[id][i]
                == if legs[i].closed then legs[i] else ClosedAt(cfg, legs[i], price(legs[i].contract)))
        && Shelved(a.tracker, a'.tracker, id, exists i :: 0 <= i < |legs| && !legs[i].closed)
        && a'.cash == a.cash + Sum(legs, OwnProceeds(cfg, price))
  {
    if id in a.tracker.spreads {
      var legs := a.tracker.spreads[id];
      CloseFirstIs(cfg, a, id, price, |legs|);
      hide CloseFirst;
      hide Sum;
      hide ClosedFirst;
      assert legs[..|legs|] == legs;
      assert FullyClosed(ClosedFirst(cfg, legs, price, |legs|));
    }
  }

  // ---- Opening ----

  /** A leg as it is opened: with the commission at its own entry price. */
  function OpenedAs(cfg: Config, leg: Leg): Leg {
    leg.(entryCommission := Fee(cfg, leg, leg.entryPrice))
  }

  /** What opening a leg brings in: a sold leg its premium. */
  function Premium(cfg: Config): Leg -> real {
    (leg: Leg) =>
      (if leg.side == Sell then Amount(leg, leg.entryPrice) else -Amount(leg, leg.entryPrice))
        - Fee(cfg, leg, leg.entryPrice)
  }

  lemma {:induction false} PremiumsAre(cfg: Config, legs: seq<Leg>, made: seq<Leg>)
    requires |made| == |legs|
    requires forall i :: 0 <= i < |legs| ==>
      made[i] == OpenedAs(cfg, legs[i]).(closed := made[i].closed, closePrice := made[i].closePrice)
    ensures EntryFlows(made) == Sum(legs, Premium(cfg))
  {
    if legs == [] {
    } else {
      var last := |legs| - 1;
      PremiumsAre(cfg, legs[..last], made[..last]);
      PremiumIs(cfg, legs[last], made[last]);
      hide EntryFlow;
      hide OpenedAs;
    }
  }

  lemma PremiumIs(cfg: Config, leg: Leg, x: Leg)
    requires x == OpenedAs(cfg, leg).(closed := x.closed, closePrice := x.closePrice)
    ensures EntryFlow(x) == Premium(cfg)(leg)
  {
    AmountIs(x, x.entryPrice);
    assert Amount(x, x.entryPrice) == Amount(leg, leg.entryPrice);
    hide Fee;
  }

  /** Opening a spread: it is listed and stored under the next id with its legs as given but for their
      entry commissions, every other spread is as it was, and cash moves by the premiums. */
  lemma OpenIs(cfg: Config, a: Account, legs: seq<Leg>)
    ensures var (a', id) := S.Open(cfg, a, legs);
      && id == a.tracker.nextID && a'.tracker.nextID == id + 1
      && a'.tracker.open == a.tracker.open + [id] && a'.tracker.archive == a.tracker.archive
      && id in a'.tracker.spreads && a'.tracker.spreads == a.tracker.spreads[id := a'.tracker.spreads[id]]
      && |a'.tracker.spreads[id]| == |legs|
      && (forall i :: 0 <= i < |legs| ==> a'.tracker.spreads[id][i] == OpenedAs(cfg, legs[i]))
      && a'.cash == a.cash + Sum(legs, Premium(cfg))
  {
    forall i | 0 <= i < |legs|
      ensures Prepare(cfg, legs[i]) == OpenedAs(cfg, legs[i])
    {
      FeeIs(cfg, legs[i], legs[i].entryPrice);
    }
    hide Fee;
    hide LegCommission;
    PremiumsAre(cfg, legs, PrepareAll(cfg, legs));
    hide Sum;
    hide EntryFlows;
  }

  /** Appending legs, to a spread with an open leg: they come after the legs that are there, open
      whatever they claim, at the commissions of their entry prices; cash moves by their premiums. */
  lemma AppendIs(cfg: Config, a: Account, id: int, legs: seq<Leg>)
    ensures var (a', ok) := S.Append(cfg, a, id, legs);
      && (ok <==> legs != [] && id in a.tracker.spreads
                    && exists i :: 0 <= i < |a.tracker.spreads[id]| && !a.tracker.spreads[id][i].closed)
      && (!ok ==> a' == a)
      && (ok ==>
            var before := a.tracker.spreads[id];
            && id in a'.tracker.spreads
            && a'.tracker == a.tracker.(spreads := a.tracker.spreads[id := a'.tracker.spreads[id]])
            && before <= a'.tracker.spreads[id] && |a'.tracker.spreads[id]| == |before| + |legs|
            && (forall i :: 0 <= i < |legs| ==>
                  a'.tracker.spreads[id][|before| + i] == OpenedAs(cfg, legs[i]).(closed := false, closePrice := 0.0))
            && a'.cash == a.cash + Sum(legs, Premium(cfg)))
  {
    forall i | 0 <= i < |legs|
      ensures Prepare(cfg, legs[i]) == OpenedAs(cfg, legs[i])
    {
      FeeIs(cfg, legs[i], legs[i].entryPrice);
    }
    hide Fee;
    hide LegCommission;
    PremiumsAre(cfg, legs, FreshAll(PrepareAll(cfg, legs)));
    hide Sum;
    hide EntryFlows;
  }

  // ---- Marks ----

  lemma FirstValidOf(p: real, rest: seq<real>)
    ensures FirstValid([p] + rest) == if p > 0.0 then p else FirstValid(rest)
  {
    assert ([p] + rest)[1..] == rest;
  }

  /** The mark of a contract: its mark price, or else halfway between bid and ask if it has both, or else
      the one it has. */
  lemma OptionMarkIs(c: Contract)
    ensures var mark := OptionMark(c);
      if c.markPrice > 0.0 then mark == c.markPrice
      else if c.bidPrice > 0.0 && c.askPrice > 0.0 then c.askPrice - mark == mark - c.bidPrice
      else if c.bidPrice > 0.0 then mark == c.bidPrice
      else if c.askPrice > 0.0 then mark == c.askPrice
      else mark <= 0.0
  {
    FirstValidOf(c.askPrice, []);
    FirstValidOf(c.bidPrice, [c.askPrice]);
    FirstValidOf(MidPrice(c), [c.bidPrice, c.askPrice]);
    FirstValidOf(c.markPrice, [MidPrice(c), c.bidPrice, c.askPrice]);
    assert [c.askPrice] + [] == [c.askPrice];
    assert [c.bidPrice] + [c.askPrice] == [c.bidPrice, c.askPrice];
    assert [MidPrice(c)] + [c.bidPrice, c.askPrice] == [MidPrice(c), c.bidPrice, c.askPrice];
    assert [c.markPrice] + [MidPrice(c), c.bidPrice, c.askPrice]
        == [c.markPrice, MidPrice(c), c.bidPrice, c.askPrice];
    assert FirstValid([]) == 0.0;
  }

  /** The value of a leg in the open book: nothing when closed or without a mark, positive for a bought
      leg and negative for any other. */
  lemma LegValueIs(leg: Leg, chain: Chain)
    ensures var c := Current(chain, leg.contract);
      var mark := OptionMark(c);
      LegValue(leg, chain) ==
        if leg.closed || mark <= 0.0 then 0.0
        else mark * (leg.qty * SizeOf(c)) * (if leg.side == Buy then 1.0 else -1.0)
  {
    var c := Current(chain, leg.contract);
    MultiplierIs(c);
    hide Current;
    hide OptionMark;
    hide SizeOf;
    hide IsUSChainMarket;
    Regroup(leg.qty, OptionMark(c), c.Multiplier());
  }
}
