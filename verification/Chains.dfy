/**
 Option contracts and the snapshot of the current chain that marks are taken from
 (internal/backtest/options.go:88-199 and internal/backtest/context.go:1031-1048). Markets and
 symbols are taken as already trimmed and case-folded.
 */
module Chains {

  predicate IsUSChainMarket(market: string) {
    market in {"us", "us-options", "us-stocks", "us-stock", "us-underlying", "stocks"}
  }

  /** One option at a point in time. */
  datatype Contract = Contract(
    market: string, underlying: string, symbol: string, markPrice: real, bidPrice: real, askPrice: real)
  {
    function Multiplier(): real {
      if IsUSChainMarket(market) || (|symbol| >= 2 && symbol[..2] == "O:") then 100.0 else 1.0
    }

    function LookupKey(): string {
      market + "|" + (underlying + "|" + symbol)
    }

    /** The key, and the bare symbol behind it. */
    function LookupKeys(): seq<string> {
      if symbol == "" then [LookupKey()] else [LookupKey(), symbol]
    }
  }

  /** The contracts by their keys. */
  type Chain = map<string, Contract>

  function Snapshot(contracts: seq<Contract>): Chain {
    if contracts == [] then map[]
    else
      var last := contracts[|contracts| - 1];
      Snapshot(contracts[..|contracts| - 1])[last.LookupKey() := last]
  }

  function FirstFound(chain: Chain, keys: seq<string>, otherwise: Contract): Contract {
    if keys == [] then otherwise
    else if keys[0] in chain then chain[keys[0]]
    else FirstFound(chain, keys[1..], otherwise)
  }

  /** The contract as the chain has it, or as it was. */
  function Current(chain: Chain, c: Contract): Contract {
    FirstFound(chain, c.LookupKeys(), c)
  }

  method SnapshotOf(contracts: seq<Contract>) returns (chain: Chain)
    ensures chain == Snapshot(contracts)
  {
    chain := map[];
    for i := 0 to |contracts|
      invariant chain == Snapshot(contracts[..i])
    {
      assert contracts[..i + 1][..i] == contracts[..i];
      chain := chain[contracts[i].LookupKey() := contracts[i]];
    }
    assert contracts[..|contracts|] == contracts;
  }

  method CurrentOf(chain: Chain, c: Contract) returns (contract: Contract)
    ensures contract == Current(chain, c)
  {
    contract := c;
    var keys := c.LookupKeys();
    for i := 0 to |keys|
      invariant contract == c && FirstFound(chain, keys, c) == FirstFound(chain, keys[i..], c)
    {
      if keys[i] in chain {
        return chain[keys[i]];
      }
    }
  }

  // ---- What the lookup finds ----

  /** The parts of the key do not contain its separator. */
  predicate Separable(c: Contract) {
    '|' !in c.market && '|' !in c.underlying && '|' !in c.symbol
  }

  predicate SameContract(c: Contract, d: Contract) {
    c.market == d.market && c.underlying == d.underlying && c.symbol == d.symbol
  }

  lemma SplitIsUnique(a: string, x: string, b: string, y: string)
    requires '|' !in a && '|' !in b && a + "|" + x == b + "|" + y
    ensures a == b && x == y
  {
    var s := a + "|" + x;
    assert s[..|a|] == a && s[|a|] == '|';
    assert s[..|b|] == b && s[|b|] == '|';
    assert s[|a| + 1..] == x && s[|b| + 1..] == y;
  }

  lemma KeyIsInjective(c: Contract, d: Contract)
    requires Separable(c) && Separable(d) && c.LookupKey() == d.LookupKey()
    ensures SameContract(c, d)
  {
    SplitIsUnique(c.market, c.underlying + "|" + c.symbol, d.market, d.underlying + "|" + d.symbol);
    SplitIsUnique(c.underlying, c.symbol, d.underlying, d.symbol);
  }

  lemma {:induction false} SnapshotHasKeys(contracts: seq<Contract>)
    ensures forall k :: k in Snapshot(contracts) ==> Snapshot(contracts)[k] in contracts
    ensures forall k :: k in Snapshot(contracts) ==> k == Snapshot(contracts)[k].LookupKey()
  {
    if contracts == [] {
    } else {
      var front, last := contracts[..|contracts| - 1], contracts[|contracts| - 1];
      assert contracts == front + [last];
      SnapshotHasKeys(front);
    }
  }

  /** A snapshot has every contract, under its key, that no later one replaces. */
  lemma {:induction false} SnapshotHolds(contracts: seq<Contract>, i: nat)
    requires i < |contracts|
    requires forall j :: i < j < |contracts| ==> contracts[j].LookupKey() != contracts[i].LookupKey()
    ensures contracts[i].LookupKey() in Snapshot(contracts)
    ensures Snapshot(contracts)[contracts[i].LookupKey()] == contracts[i]
  {
    if i == |contracts| - 1 {
    } else {
      SnapshotHolds(contracts[..|contracts| - 1], i);
    }
  }

  /** The bare symbol is never a key: a key holds a separator. So the fallback finds nothing. */
  lemma SymbolIsNoKey(c: Contract, d: Contract)
    requires Separable(c)
    ensures c.symbol != d.LookupKey()
  {
    assert d.LookupKey()[|d.market|] == '|';
  }

  lemma CurrentCases(chain: Chain, c: Contract)
    ensures Current(chain, c) ==
      if c.LookupKey() in chain then chain[c.LookupKey()]
      else if c.symbol != "" && c.symbol in chain then chain[c.symbol]
      else c
  {
    var keys := c.LookupKeys();
    if c.LookupKey() !in chain {
      assert FirstFound(chain, keys, c) == FirstFound(chain, keys[1..], c);
      if c.symbol != "" {
        assert keys[1..] == [c.symbol];
        assert [c.symbol][1..] == [];
      }
    }
  }

  /** The lookup finds the contract itself, at other prices: its market, underlying and symbol, and so
      its multiplier, are kept. */
  lemma LookupKeepsContract(contracts: seq<Contract>, c: Contract)
    requires Separable(c) && forall d :: d in contracts ==> Separable(d)
    ensures SameContract(Current(Snapshot(contracts), c), c)
    ensures Current(Snapshot(contracts), c).Multiplier() == c.Multiplier()
  {
    var chain := Snapshot(contracts);
    SnapshotHasKeys(contracts);
    CurrentCases(chain, c);
    hide Snapshot;
    hide Current;
    if c.LookupKey() in chain {
      KeyIsInjective(chain[c.LookupKey()], c);
    } else {
      if c.symbol in chain {
        SymbolIsNoKey(c, chain[c.symbol]);
      }
      assert c.symbol !in chain;
    }
  }
}
