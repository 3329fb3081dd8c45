/** The chain builder as an object that is updated in place on every tick. */
module ChainBuilders {
  import opened OptionChains
  import opened Rounding
  import opened Strikes

  /** `compute_synthetic_from_strike`. */
  method SyntheticFromStrike(strikes: seq<OptionStrike>, strike: real) returns (v: real)
    ensures v == Parity(strikes, strike)
  {
    assert strikes[0..] == strikes;
    for i := 0 to |strikes|
      invariant Parity(strikes[i..], strike) == Parity(strikes, strike)
    {
      assert strikes[i..][1..] == strikes[i + 1..];
      if strikes[i].strike == strike && Quoted(strikes[i]) {
        return strikes[i].strike + (strikes[i].ceLtp - strikes[i].peLtp);
      }
    }
    v := 0.0;
  }

  /** The start of `recalculate_greeks_internal`, and `recompute_underlying_from_options`. */
  method RecomputeChain(c: OptionChain, env: Env) returns (r: OptionChain)
    ensures r == Recompute(c, env)
  {
    hide Snap, Parity;
    r := c;
    if env.expired {
      return;
    }
    var future := if c.futLtp > 0.0 then c.futLtp else env.proxy;
    if future <= 0.0 {
      return;
    }
    var atm := RoundToGapAndSnap(StrikeList(c.strikes), future);
    if atm <= 0.0 {
      return;
    }
    var synthetic := SyntheticFromStrike(c.strikes, atm);
    if synthetic > 0.0 {
      r := c.(synthetic := synthetic);
    } else if c.synthetic <= 0.0 {
      r := c.(synthetic := future);
    }
  }

  class ChainBuilder {
    var chains: map<string, OptionChain>
    var index: map<int, Slot>

    function View(): Book
      reads this
    {
      Book(chains, index)
    }

    constructor ()
      ensures View() == EMPTY
    {
      chains, index := map[], map[];
    }

    method StoreChain(key: string, chain: OptionChain, env: Env)
      modifies this
      ensures View() == SetChain(old(View()), key, chain, env)
    {
      hide IndexRow, Recompute;
      assert chain.strikes[..0] == [];
      for i := 0 to |chain.strikes|
        invariant index == IndexRows(old(index), key, chain.strikes[..i])
        invariant chains == old(chains)
      {
        assert chain.strikes[..i + 1][..i] == chain.strikes[..i];
        index := IndexRow(index, key, i, chain.strikes[i]);
      }
      assert chain.strikes[..|chain.strikes|] == chain.strikes;
      var stored := RecomputeChain(chain, env);
      chains := chains[key := stored];
    }

    method UpdateOptionPrice(token: Int32, price: real, env: Env)
      modifies this`chains
      ensures View() == OptionTick(old(View()), token, price, env)
    {
      hide Recompute;
      if token !in index {
        return;
      }
      var slot := index[token];
      if slot.key !in chains {
        return;
      }
      var c := chains[slot.key];
      if slot.row < 0 || slot.row >= |c.strikes| {
        return;
      }
      var r, t := c.strikes[slot.row], AsToken(token);
      if r.ceToken == t {
        r := r.(ceLtp := price);
      } else if r.peToken == t {
        r := r.(peLtp := price);
      } else {
        return;
      }
      var updated := RecomputeChain(c.(strikes := c.strikes[slot.row := r]), env);
      chains := chains[slot.key := updated];
    }

    /** Visits every chain of the symbol, in whatever order the map yields them. */
    method UpdateSpotPrice(symbol: string, price: real, env: string -> Env)
      modifies this`chains
      ensures View() == SpotTick(old(View()), symbol, price, env)
    {
      hide Recompute, SpotSoFar;
      var todo := chains.Keys;
      SpotStarts(chains, symbol, price, env);
      while todo != {}
        invariant SpotSoFar(old(chains), chains, todo, symbol, price, env)
        decreases |todo|
      {
        var k :| k in todo;
        SpotSteps(old(chains), chains, todo, symbol, price, env, k);
        var c := chains[k];
        if c.symbol == symbol {
          if price > 0.0 {
            c := c.(futLtp := price);
          }
          var updated := RecomputeChain(c, env(k));
          chains := chains[k := updated];
        }
        todo := todo - {k};
      }
      SpotEnds(old(chains), chains, symbol, price, env);
    }
  }

  /** How far a spot tick has come: the chains not yet visited are as before, the others as specified. */
  ghost predicate SpotSoFar(before: map<string, OptionChain>, chains: map<string, OptionChain>, todo: set<string>,
                            symbol: string, price: real, env: string -> Env)
  {
    && chains.Keys == before.Keys && todo <= chains.Keys
    && (forall k :: k in chains && k in todo ==> chains[k] == before[k])
    && forall k :: k in chains && k !in todo ==> chains[k] == Spotted(before[k], symbol, price, env(k))
  }

  function Spotted(c: OptionChain, symbol: string, price: real, env: Env): OptionChain
  {
    if c.symbol == symbol then SpotChain(c, price, env) else c
  }

  lemma SpotStarts(before: map<string, OptionChain>, symbol: string, price: real, env: string -> Env)
    ensures SpotSoFar(before, before, before.Keys, symbol, price, env)
  {
  }

  lemma SpotSteps(before: map<string, OptionChain>, chains: map<string, OptionChain>, todo: set<string>,
                  symbol: string, price: real, env: string -> Env, k: string)
    requires SpotSoFar(before, chains, todo, symbol, price, env) && k in todo
    ensures k in chains
    ensures SpotSoFar(before, chains[k := Spotted(chains[k], symbol, price, env(k))], todo - {k}, symbol, price, env)
    ensures chains[k].symbol != symbol ==> SpotSoFar(before, chains, todo - {k}, symbol, price, env)
  {
    hide SpotChain;
    assert chains[k].symbol != symbol ==> chains[k := Spotted(chains[k], symbol, price, env(k))] == chains;
  }

  lemma SpotEnds(before: map<string, OptionChain>, chains: map<string, OptionChain>, symbol: string, price: real,
                 env: string -> Env)
    requires SpotSoFar(before, chains, {}, symbol, price, env)
    ensures forall index :: Book(chains, index) == SpotTick(Book(before, index), symbol, price, env)
  {
    hide SpotChain;
  }
}
