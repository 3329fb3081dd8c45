/**
 Seeding of the option chains from the contract table, and the publisher that marks the
 at-the-money row of a chain for the gateway to find.
 */
module AtmPublisher {
  import opened OptionChains
  import opened Strikes
  import opened ChainBuilders
  import opened Text

  // ---------------------------------------------------------------------------------------
  // Seeding
  // ---------------------------------------------------------------------------------------

  datatype Contract = Contract(
    token: Token, isValid: bool, symbol: string, baseSymbol: string, expiry: string, strike: real, isCall: bool)

  predicate IsOption(c: Contract)
  {
    c.isValid && (Contains(c.symbol, "CE") || Contains(c.symbol, "PE"))
  }

  function ChainKey(c: Contract): string
  {
    c.baseSymbol + "|" + c.expiry
  }

  /** Position of the row of a strike, or the number of rows. */
  function FindStrike(rows: seq<OptionStrike>, strike: real): (i: nat)
    ensures i <= |rows|
    ensures forall j :: 0 <= j < i ==> rows[j].strike != strike
    ensures i < |rows| ==> rows[i].strike == strike
  {
    if rows == [] || rows[0].strike == strike then 0 else 1 + FindStrike(rows[1..], strike)
  }

  function WithToken(r: OptionStrike, token: Token, isCall: bool): OptionStrike
  {
    if isCall then r.(ceToken := token) else r.(peToken := token)
  }

  /** The rows after one contract: its token goes to the row of its strike, which is added if missing. */
  function Place(rows: seq<OptionStrike>, c: Contract): seq<OptionStrike>
  {
    var i := FindStrike(rows, c.strike);
    if i < |rows| then rows[i := WithToken(rows[i], c.token, c.isCall)]
    else rows + [WithToken(OptionStrike(c.strike, 0, 0, 0.0, 0.0), c.token, c.isCall)]
  }

  function SeedOne(chains: map<string, OptionChain>, c: Contract): map<string, OptionChain>
  {
    if !IsOption(c) then chains else
    var key := ChainKey(c);
    var prior := if key in chains then chains[key] else OptionChain(c.baseSymbol, c.expiry, 0.0, 0.0, []);
    chains[key := prior.(symbol := c.baseSymbol, expiry := c.expiry, strikes := Place(prior.strikes, c))]
  }

  function SeedAll(contracts: seq<Contract>): map<string, OptionChain>
  {
    if contracts == [] then map[] else SeedOne(SeedAll(contracts[..|contracts| - 1]), contracts[|contracts| - 1])
  }

  /** The seeding loop, over the contract table in any order. */
  method SeedChains(contracts: seq<Contract>) returns (chains: map<string, OptionChain>)
    ensures chains == SeedAll(contracts)
  {
    hide SeedOne;
    chains := map[];
    assert contracts[..0] == [];
    for i := 0 to |contracts|
      invariant chains == SeedAll(contracts[..i])
    {
      assert contracts[..i + 1][..i] == contracts[..i];
      chains := SeedOne(chains, contracts[i]);
    }
    assert contracts[..|contracts|] == contracts;
  }

  predicate DistinctStrikes(rows: seq<OptionStrike>)
  {
    forall i, j :: 0 <= i < j < |rows| ==> rows[i].strike != rows[j].strike
  }

  /** Chains with distinct strikes whose tokens are unique and come from a given set. */
  ghost predicate Sound(chains: map<string, OptionChain>, tokens: set<Token>)
  {
    && (forall k :: k in chains ==> DistinctStrikes(chains[k].strikes))
    && Unique(chains)
    && forall k, i, t :: At(chains, k, i, t) ==> t in tokens
  }

  lemma PlaceKeepsDistinct(rows: seq<OptionStrike>, c: Contract)
    requires DistinctStrikes(rows)
    ensures DistinctStrikes(Place(rows, c))
  {
    hide FindStrike;
  }

  /**
   After placing a contract, a token of a row was there before at the same position, or is the
   placed one at its row.
   */
  lemma PlaceTokens(rows: seq<OptionStrike>, c: Contract, i: nat, t: Token)
    requires i < |Place(rows, c)| && HasToken(Place(rows, c)[i], t)
    ensures (i < |rows| && HasToken(rows[i], t)) || (t == c.token && i == FindStrike(rows, c.strike))
  {
    hide FindStrike;
  }

  lemma SeedOneSound(chains: map<string, OptionChain>, c: Contract, tokens: set<Token>)
    requires Sound(chains, tokens) && c.token !in tokens
    ensures Sound(SeedOne(chains, c), tokens + {c.token})
  {
    hide IsOption, ChainKey, Place, HasToken, FindStrike;
    if IsOption(c) {
      var key, after := ChainKey(c), SeedOne(chains, c);
      var rows := if key in chains then chains[key].strikes else [];
      PlaceKeepsDistinct(rows, c);
      var home := FindStrike(rows, c.strike);
      forall k, i, t | At(after, k, i, t)
        ensures At(chains, k, i, t) || (t == c.token && k == key && i == home)
      {
        if k == key {
          PlaceTokens(rows, c, i, t);
        }
      }
      SeededStaysUnique(chains, after, c.token, key, home, tokens);
    }
  }

  lemma SeededStaysUnique(chains: map<string, OptionChain>, after: map<string, OptionChain>, token: Token,
                          key: string, home: int, tokens: set<Token>)
    requires Unique(chains) && token !in tokens && forall k, i, t :: At(chains, k, i, t) ==> t in tokens
    requires forall k, i, t :: At(after, k, i, t) ==> At(chains, k, i, t) || (t == token && k == key && i == home)
    ensures Unique(after) && forall k, i, t :: At(after, k, i, t) ==> t in tokens + {token}
  {
    hide At;
  }

  predicate DistinctTokens(contracts: seq<Contract>)
  {
    forall i, j :: 0 <= i < j < |contracts| ==> contracts[i].token != contracts[j].token
  }

  function TokenSet(contracts: seq<Contract>): set<Token>
  {
    set i | 0 <= i < |contracts| :: contracts[i].token
  }

  /** In whatever order the contract table is visited, the seeded chains are sound. */
  lemma {:induction false} SeedAllSound(contracts: seq<Contract>)
    requires DistinctTokens(contracts)
    ensures Sound(SeedAll(contracts), TokenSet(contracts))
  {
    hide SeedOne;
    if contracts != [] {
      var front, last := contracts[..|contracts| - 1], contracts[|contracts| - 1];
      assert forall i :: 0 <= i < |front| ==> front[i] == contracts[i];
      SeedAllSound(front);
      hide Sound;
      assert last.token !in TokenSet(front);
      SeedOneSound(SeedAll(front), last, TokenSet(front));
      assert TokenSet(front) + {last.token} == TokenSet(contracts);
    }
  }

  // ---------------------------------------------------------------------------------------
  // Sorting the rows
  // ---------------------------------------------------------------------------------------

  function InsertRow(rows: seq<OptionStrike>, r: OptionStrike): seq<OptionStrike>
  {
    if rows == [] then [r]
    else if r.strike < rows[0].strike then [r] + rows
    else [rows[0]] + InsertRow(rows[1..], r)
  }

  function SortRows(rows: seq<OptionStrike>): seq<OptionStrike>
  {
    if rows == [] then [] else InsertRow(SortRows(rows[1..]), rows[0])
  }

  predicate Ascending(rows: seq<OptionStrike>)
  {
    forall i, j :: 0 <= i < j < |rows| ==> rows[i].strike < rows[j].strike
  }

  lemma {:induction false} InsertRowContents(rows: seq<OptionStrike>, r: OptionStrike)
    ensures multiset(InsertRow(rows, r)) == multiset(rows) + multiset{r}
  {
    if rows != [] && !(r.strike < rows[0].strike) {
      InsertRowContents(rows[1..], r);
      assert rows == [rows[0]] + rows[1..];
    }
  }

  lemma {:induction false} SortRowsContents(rows: seq<OptionStrike>)
    ensures multiset(SortRows(rows)) == multiset(rows)
  {
    if rows != [] {
      SortRowsContents(rows[1..]);
      InsertRowContents(SortRows(rows[1..]), rows[0]);
      assert rows == [rows[0]] + rows[1..];
    }
  }

  lemma {:induction false} InsertRowAscending(rows: seq<OptionStrike>, r: OptionStrike)
    requires Ascending(rows) && forall i :: 0 <= i < |rows| ==> rows[i].strike != r.strike
    ensures Ascending(InsertRow(rows, r))
  {
    if rows != [] && !(r.strike < rows[0].strike) {
      var rest := rows[1..];
      assert forall i :: 0 <= i < |rest| ==> rest[i] == rows[i + 1];
      InsertRowAscending(rest, r);
      InsertRowContents(rest, r);
      var s := InsertRow(rest, r);
      forall i | 0 <= i < |s| ensures rows[0].strike < s[i].strike {
        assert s[i] in multiset(s);
        assert s[i] == r || s[i] in rest;
      }
    }
  }

  lemma {:induction false} SortRowsAscending(rows: seq<OptionStrike>)
    requires DistinctStrikes(rows)
    ensures Ascending(SortRows(rows))
  {
    if rows != [] {
      var rest := rows[1..];
      SortRowsAscending(rest);
      SortRowsContents(rest);
      var s := SortRows(rest);
      forall i | 0 <= i < |s| ensures s[i].strike != rows[0].strike {
        assert s[i] in multiset(rest);
      }
      InsertRowAscending(s, rows[0]);
    }
  }

  function SortChain(c: OptionChain): OptionChain
  {
    c.(strikes := SortRows(c.strikes))
  }

  function SortAll(chains: map<string, OptionChain>): map<string, OptionChain>
  {
    map k | k in chains :: SortChain(chains[k])
  }

  lemma SortedAt(chains: map<string, OptionChain>, k: string, i: int, t: Token) returns (j: int)
    requires At(SortAll(chains), k, i, t)
    ensures At(chains, k, j, t) && chains[k].strikes[j] == SortAll(chains)[k].strikes[i]
  {
    hide HasToken, SortRows;
    var rows := chains[k].strikes;
    SortRowsContents(rows);
    assert SortRows(rows)[i] in multiset(rows);
    j :| 0 <= j < |rows| && rows[j] == SortRows(rows)[i];
  }

  /**
   For any table of contracts with distinct tokens, visited in any order, the sorted chains have
   strictly ascending strikes and no token in two rows.
   */
  lemma SeededChainsAreSound(contracts: seq<Contract>)
    requires DistinctTokens(contracts)
    ensures var chains := SortAll(SeedAll(contracts));
      Unique(chains) && forall k :: k in chains ==> Ascending(chains[k].strikes)
  {
    SeedAllSound(contracts);
    var chains := SeedAll(contracts);
    hide SeedAll, SortRows, Ascending;
    forall k | k in chains ensures Ascending(SortAll(chains)[k].strikes) {
      SortRowsAscending(chains[k].strikes);
    }
    forall k, i, l, j, t | At(SortAll(chains), k, i, t) && At(SortAll(chains), l, j, t) ensures k == l && i == j {
      var p := SortedAt(chains, k, i, t);
      var q := SortedAt(chains, l, j, t);
      assert k == l && p == q;
      AscendingInjective(SortAll(chains)[k].strikes, i, j);
    }
  }

  lemma AscendingInjective(rows: seq<OptionStrike>, i: int, j: int)
    requires Ascending(rows) && 0 <= i < |rows| && 0 <= j < |rows| && rows[i].strike == rows[j].strike
    ensures i == j
  {
  }

  // ---------------------------------------------------------------------------------------
  // What the seeded rows hold
  // ---------------------------------------------------------------------------------------

  function SideToken(r: OptionStrike, isCall: bool): Token
  {
    if isCall then r.ceToken else r.peToken
  }

  /** The token a list of rows holds for a side of a strike; zero if none. */
  function TokenIn(rows: seq<OptionStrike>, strike: real, isCall: bool): Token
  {
    var i := FindStrike(rows, strike);
    if i < |rows| then SideToken(rows[i], isCall) else 0
  }

  function TokenOf(chains: map<string, OptionChain>, key: string, strike: real, isCall: bool): Token
  {
    if key in chains then TokenIn(chains[key].strikes, strike, isCall) else 0
  }

  predicate Matches(c: Contract, key: string, strike: real, isCall: bool)
  {
    && c.isValid && (Contains(c.symbol, "CE") || Contains(c.symbol, "PE"))
    && c.baseSymbol + "|" + c.expiry == key && c.strike == strike && c.isCall == isCall
  }

  /** The token of the last option contract of a table for a side of a strike; zero if none. */
  function LastToken(contracts: seq<Contract>, key: string, strike: real, isCall: bool): Token
  {
    if contracts == [] then 0 else
    var last := contracts[|contracts| - 1];
    if Matches(last, key, strike, isCall) then last.token
    else LastToken(contracts[..|contracts| - 1], key, strike, isCall)
  }

  lemma FindUnique(rows: seq<OptionStrike>, strike: real, i: nat)
    requires DistinctStrikes(rows) && i < |rows| && rows[i].strike == strike
    ensures FindStrike(rows, strike) == i
  {
    hide FindStrike;
  }

  lemma PlaceEffect(rows: seq<OptionStrike>, c: Contract, strike: real, isCall: bool)
    requires DistinctStrikes(rows)
    ensures TokenIn(Place(rows, c), strike, isCall)
      == if c.strike == strike && c.isCall == isCall then c.token else TokenIn(rows, strike, isCall)
  {
    hide FindStrike, DistinctStrikes;
    PlaceKeepsDistinct(rows, c);
    var after, i, home := Place(rows, c), FindStrike(rows, strike), FindStrike(rows, c.strike);
    if i < |rows| {
      FindUnique(after, strike, i);
    }
    if c.strike == strike {
      FindUnique(after, strike, home);
    }
  }

  lemma SeedOneEffect(chains: map<string, OptionChain>, c: Contract, key: string, strike: real, isCall: bool)
    requires forall k :: k in chains ==> DistinctStrikes(chains[k].strikes)
    ensures TokenOf(SeedOne(chains, c), key, strike, isCall)
      == if Matches(c, key, strike, isCall) then c.token else TokenOf(chains, key, strike, isCall)
  {
    hide Contains, Place, TokenIn, DistinctStrikes;
    if IsOption(c) && ChainKey(c) == key {
      EmptyRows(strike, isCall);
      PlaceEffect(if key in chains then chains[key].strikes else [], c, strike, isCall);
    }
  }

  lemma EmptyRows(strike: real, isCall: bool)
    ensures DistinctStrikes([]) && TokenIn([], strike, isCall) == 0
  {
  }

  lemma {:induction false} SeedAllHolds(contracts: seq<Contract>, key: string, strike: real, isCall: bool)
    requires DistinctTokens(contracts)
    ensures TokenOf(SeedAll(contracts), key, strike, isCall) == LastToken(contracts, key, strike, isCall)
  {
    hide SeedOne, Matches, Unique, DistinctStrikes, TokenIn;
    if contracts != [] {
      var front, last := contracts[..|contracts| - 1], contracts[|contracts| - 1];
      assert forall i :: 0 <= i < |front| ==> front[i] == contracts[i];
      SeedAllHolds(front, key, strike, isCall);
      SeedAllSound(front);
      SeedOneEffect(SeedAll(front), last, key, strike, isCall);
    }
  }

  lemma SortKeepsTokens(rows: seq<OptionStrike>, strike: real, isCall: bool)
    requires DistinctStrikes(rows)
    ensures TokenIn(SortRows(rows), strike, isCall) == TokenIn(rows, strike, isCall)
  {
    hide FindStrike, SortRows, DistinctStrikes;
    var s := SortRows(rows);
    SortRowsContents(rows);
    var i, j := FindStrike(rows, strike), FindStrike(s, strike);
    if j < |s| {
      assert s[j] in multiset(rows);
      var m :| 0 <= m < |rows| && rows[m] == s[j];
      FindUnique(rows, strike, m);
    } else if i < |rows| {
      RowIsSorted(rows, i);
    }
  }

  lemma RowIsSorted(rows: seq<OptionStrike>, i: nat)
    requires i < |rows|
    ensures exists j :: 0 <= j < |SortRows(rows)| && SortRows(rows)[j] == rows[i]
  {
    hide SortRows;
    SortRowsContents(rows);
    assert rows[i] in multiset(SortRows(rows));
  }

  /**
   The sorted chains hold, for every chain, strike and side, the token of the last option contract
   visited for it, and no token where the table has no such contract.
   */
  lemma SeededChainsHoldTheTable(contracts: seq<Contract>, key: string, strike: real, isCall: bool)
    requires DistinctTokens(contracts)
    ensures TokenOf(SortAll(SeedAll(contracts)), key, strike, isCall) == LastToken(contracts, key, strike, isCall)
  {
    hide SeedAll, LastToken, TokenIn, SortRows, DistinctTokens, DistinctStrikes, Unique;
    SeedAllHolds(contracts, key, strike, isCall);
    SeedAllSound(contracts);
    var chains := SeedAll(contracts);
    if key in chains {
      SortKeepsTokens(chains[key].strikes, strike, isCall);
    }
  }

  /** A chain filed under its own symbol and expiry, with no price yet. */
  ghost predicate Untouched(chains: map<string, OptionChain>, key: string)
  {
    key in chains ==>
      && chains[key].symbol + "|" + chains[key].expiry == key
      && chains[key].futLtp == 0.0 && chains[key].synthetic == 0.0
      && forall i :: 0 <= i < |chains[key].strikes| ==>
           chains[key].strikes[i].ceLtp == 0.0 && chains[key].strikes[i].peLtp == 0.0
  }

  lemma {:induction false} SeedAllUntouched(contracts: seq<Contract>, key: string)
    ensures Untouched(SeedAll(contracts), key)
  {
    if contracts != [] {
      hide IsOption, FindStrike;
      SeedAllUntouched(contracts[..|contracts| - 1], key);
    }
  }

  /** Seeded chains are filed under their own symbol and expiry and carry no price yet. */
  lemma SeededChainsAreUntouched(contracts: seq<Contract>, key: string)
    ensures Untouched(SortAll(SeedAll(contracts)), key)
  {
    hide SeedAll, SortRows;
    SeedAllUntouched(contracts, key);
    var chains := SeedAll(contracts);
    if key in chains {
      var rows, sorted := chains[key].strikes, SortRows(chains[key].strikes);
      SortRowsContents(rows);
      forall i | 0 <= i < |sorted| ensures sorted[i].ceLtp == 0.0 && sorted[i].peLtp == 0.0 {
        assert sorted[i] in multiset(rows);
      }
    }
  }

  // ---------------------------------------------------------------------------------------
  // Publishing
  // ---------------------------------------------------------------------------------------

  function MiddleStrike(c: OptionChain): real
    requires c.strikes != []
  {
    c.strikes[|c.strikes| / 2].strike
  }

  /** The price from which the preliminary strike is taken. */
  function Reference(c: OptionChain, proxy: real): real
    requires c.strikes != []
  {
    if Anchor(c, proxy) <= 0.0 then MiddleStrike(c) else Anchor(c, proxy)
  }

  function PublishedFuture(c: OptionChain, proxy: real): real
    requires c.strikes != []
  {
    var parity := Parity(c.strikes, SnapStrike(c, Reference(c, proxy)));
    var kept := if parity <= 0.0 then c.synthetic else parity;
    if kept <= 0.0 && c.futLtp > 0.0 then c.futLtp else kept
  }

  function PublishedAtm(c: OptionChain, proxy: real): real
    requires c.strikes != []
  {
    var future := PublishedFuture(c, proxy);
    if future > 0.0 then SnapStrike(c, future) else MiddleStrike(c)
  }

  datatype ChainRow = ChainRow(strike: real, ceToken: Token, peToken: Token, isAtm: bool)

  /** What the gateway receives: underlying, future tick, at-the-money strike and rows. */
  datatype Snapshot = Snapshot(future: real, futureLtp: real, atm: real, rows: seq<ChainRow>)

  function Publish(c: OptionChain, proxy: real): (s: Snapshot)
    requires c.strikes != []
    ensures |s.rows| == |c.strikes| && s.atm == PublishedAtm(c, proxy)
    ensures forall i :: 0 <= i < |c.strikes| ==>
      s.rows[i].strike == c.strikes[i].strike && (s.rows[i].isAtm <==> c.strikes[i].strike == s.atm)
  {
    var atm := PublishedAtm(c, proxy);
    var rows := seq(|c.strikes|, i requires 0 <= i < |c.strikes| =>
      ChainRow(c.strikes[i].strike, c.strikes[i].ceToken, c.strikes[i].peToken, c.strikes[i].strike == atm));
    Snapshot(PublishedFuture(c, proxy), if c.futLtp > 0.0 then c.futLtp else 0.0, atm, rows)
  }

  /** The publisher's pass over one chain: anchor, preliminary strike, parity, final strike, then the marked rows. */
  method PublishChain(c: OptionChain, proxy: real) returns (s: Snapshot)
    requires c.strikes != []
    ensures s == Publish(c, proxy)
  {
    hide Snap, Parity;
    var monthly := if c.futLtp > 0.0 then c.futLtp else proxy;
    if monthly <= 0.0 {
      monthly := c.strikes[|c.strikes| / 2].strike;
    }
    var preliminary := RoundToGapAndSnap(StrikeList(c.strikes), monthly);
    var future := SyntheticFromStrike(c.strikes, preliminary);
    if future <= 0.0 {
      future := c.synthetic;
    }
    if future <= 0.0 && c.futLtp > 0.0 {
      future := c.futLtp;
    }
    var atm := c.strikes[|c.strikes| / 2].strike;
    if future > 0.0 {
      atm := RoundToGapAndSnap(StrikeList(c.strikes), future);
    }
    var rows := [];
    for i := 0 to |c.strikes|
      invariant |rows| == i
      invariant forall j :: 0 <= j < i ==>
        rows[j] == ChainRow(c.strikes[j].strike, c.strikes[j].ceToken, c.strikes[j].peToken, c.strikes[j].strike == atm)
    {
      var r := c.strikes[i];
      rows := rows + [ChainRow(r.strike, r.ceToken, r.peToken, r.strike == atm)];
    }
    s := Snapshot(future, if c.futLtp > 0.0 then c.futLtp else 0.0, atm, rows);
  }

  /** The published rows are those of the chain, each with its own tokens. */
  lemma RowsArePublished(c: OptionChain, proxy: real, i: nat)
    requires c.strikes != [] && i < |c.strikes|
    ensures var s := Publish(c, proxy);
      && |s.rows| == |c.strikes| && s.rows[i].strike == c.strikes[i].strike
      && s.rows[i].ceToken == c.strikes[i].ceToken && s.rows[i].peToken == c.strikes[i].peToken
      && s.futureLtp == if c.futLtp > 0.0 then c.futLtp else 0.0
  {
    hide PublishedAtm, PublishedFuture;
  }

  /**
   The published at-the-money strike is the one the published underlying is snapped to, so no listed
   strike is nearer to it by more than one step; without an underlying it is the middle one.
   */
  lemma AtmFollowsUnderlying(c: OptionChain, proxy: real, i: nat)
    requires c.strikes != [] && i < |c.strikes|
    ensures
      var s, strikes := Publish(c, proxy), StrikeList(c.strikes);
      && (s.future > 0.0 ==> s.atm == Snap(strikes, s.future))
      && (s.future > 0.0 ==> Distance(s.atm, s.future) <= Distance(strikes[i], s.future) + StepOf(strikes))
      && (s.future <= 0.0 ==> s.atm == c.strikes[|c.strikes| / 2].strike)
  {
    hide PublishedFuture, Snap, Distance, StepOf;
    SnapWithinOneStep(StrikeList(c.strikes), PublishedFuture(c, proxy), i);
  }

  /** The price the publisher starts from: the future tick, else the proxy, else the middle strike. */
  function StartingPrice(c: OptionChain, proxy: real): real
    requires c.strikes != []
  {
    if c.futLtp > 0.0 then c.futLtp else if proxy > 0.0 then proxy else c.strikes[|c.strikes| / 2].strike
  }

  /**
   The published underlying is what the first fully quoted row of the strike nearest to the starting
   price implies, if that is positive; otherwise the stored underlying, otherwise the future tick.
   */
  lemma UnderlyingIsPublished(c: OptionChain, proxy: real)
    requires c.strikes != []
    ensures
      var s, strike := Publish(c, proxy), Snap(StrikeList(c.strikes), StartingPrice(c, proxy));
      && (forall v :: PositiveParity(c.strikes, strike, v) ==> s.future == v)
      && ((forall v :: !PositiveParity(c.strikes, strike, v)) ==>
            s.future == if c.synthetic > 0.0 then c.synthetic else if c.futLtp > 0.0 then c.futLtp else c.synthetic)
  {
    hide PublishedAtm, Snap, PositiveParity, Parity;
    var strike := Snap(StrikeList(c.strikes), StartingPrice(c, proxy));
    ParityIsPositive(c.strikes, strike);
    assert Parity(c.strikes, strike) > 0.0 ==> PositiveParity(c.strikes, strike, Parity(c.strikes, strike));
    assert Reference(c, proxy) == StartingPrice(c, proxy);
  }

  /** Row `i` is marked and carries the published strike, and no other row does either. */
  predicate OnlyAtm(s: Snapshot, i: int)
  {
    && 0 <= i < |s.rows| && s.rows[i].isAtm && s.rows[i].strike == s.atm
    && forall j :: 0 <= j < |s.rows| && j != i ==> !s.rows[j].isAtm && s.rows[j].strike != s.atm
  }

  /** `FindATMRow`: the first row that is marked or has the published strike; the number of rows if there is none. */
  method FindAtmRow(s: Snapshot) returns (i: nat)
    ensures i <= |s.rows| && (i < |s.rows| ==> s.rows[i].isAtm || s.rows[i].strike == s.atm)
    ensures forall j :: 0 <= j < i ==> !s.rows[j].isAtm && s.rows[j].strike != s.atm
    ensures forall k :: OnlyAtm(s, k) ==> i == k
  {
    i := 0;
    while i < |s.rows| && !s.rows[i].isAtm && s.rows[i].strike != s.atm
      invariant i <= |s.rows|
      invariant forall j :: 0 <= j < i ==> !s.rows[j].isAtm && s.rows[j].strike != s.atm
    {
      i := i + 1;
    }
  }

  lemma AtmIsListed(c: OptionChain, proxy: real)
    requires c.strikes != []
    ensures PublishedAtm(c, proxy) in StrikeList(c.strikes)
  {
    hide Snap, PublishedFuture;
    var s := StrikeList(c.strikes);
    SnapWithinOneStep(s, PublishedFuture(c, proxy), 0);
    assert s[|s| / 2] in s;
  }

  /**
   A published chain with distinct strikes has exactly one marked row, the published strike is its
   strike, and any row the gateway could take for at-the-money is that row.
   */
  lemma ExactlyOneAtm(c: OptionChain, proxy: real)
    requires c.strikes != [] && DistinctStrikes(c.strikes)
    ensures exists i :: OnlyAtm(Publish(c, proxy), i)
  {
    hide PublishedAtm;
    AtmIsListed(c, proxy);
    var strikes, s := StrikeList(c.strikes), Publish(c, proxy);
    var i :| 0 <= i < |strikes| && strikes[i] == PublishedAtm(c, proxy);
    assert s.rows[i].isAtm && s.rows[i].strike == s.atm;
    assert forall j :: 0 <= j < |c.strikes| && j != i ==> c.strikes[j].strike != c.strikes[i].strike;
    assert OnlyAtm(s, i);
  }

  /** Ticks never change the strikes of a stored chain. */
  lemma {:induction false} StrikesStayDistinct(bs: seq<Book>, ops: seq<Op>, i: nat, k: string)
    requires IsHistory(bs, ops) && i < |bs| && k in bs[i].chains
    requires forall m :: 0 <= m < |ops| && ops[m].Seed? ==> DistinctStrikes(ops[m].chain.strikes)
    ensures DistinctStrikes(bs[i].chains[k].strikes)
  {
    hide Recompute, IndexRows;
    if i > 0 {
      HistoryStep(bs, ops, i - 1);
      var b := bs[i - 1];
      if k in b.chains {
        StrikesStayDistinct(bs, ops, i - 1, k);
        assert !(ops[i - 1].Seed? && ops[i - 1].key == k) ==>
          StrikeList(bs[i].chains[k].strikes) == StrikeList(b.chains[k].strikes) by {
          SameStrikes(b, ops[i - 1], k);
        }
      }
      SameListDistinct(bs[i].chains[k].strikes, if k in b.chains then b.chains[k].strikes else []);
    }
  }

  lemma SameStrikes(b: Book, op: Op, k: string)
    requires k in b.chains
    ensures k in Apply(b, op).chains
    ensures !Reseeds(op, k) ==> StrikeList(Apply(b, op).chains[k].strikes) == StrikeList(b.chains[k].strikes)
  {
    hide Recompute, IndexRows;
  }

  lemma SameListDistinct(a: seq<OptionStrike>, b: seq<OptionStrike>)
    ensures StrikeList(a) == StrikeList(b) && DistinctStrikes(b) ==> DistinctStrikes(a)
  {
    if StrikeList(a) == StrikeList(b) && DistinctStrikes(b) {
      assert |a| == |b|;
      forall i, j | 0 <= i < j < |a| ensures a[i].strike != a[j].strike {
        assert StrikeList(a)[i] == b[i].strike && StrikeList(a)[j] == b[j].strike;
      }
    }
  }

  /** A reseeding of a book with one of the sorted chains of a contract table. */
  predicate SeededFrom(contracts: seq<Contract>, op: Op)
  {
    op.Seed? ==> op.key in SeedAll(contracts) && op.chain == SortAll(SeedAll(contracts))[op.key]
  }

  lemma AscendingIsDistinct(contracts: seq<Contract>, key: string)
    requires DistinctTokens(contracts)
    ensures var chains := SortAll(SeedAll(contracts)); key in chains ==> DistinctStrikes(chains[key].strikes)
  {
    hide SeedAll, SortChain, Unique;
    SeededChainsAreSound(contracts);
  }

  /**
   For any contract table with distinct tokens, visited in any order, and any ticks and reseedings
   after it, every published chain has exactly one at-the-money row.
   */
  lemma PublishedChainsHaveOneAtm(contracts: seq<Contract>, bs: seq<Book>, ops: seq<Op>, i: nat, k: string, proxy: real)
    requires DistinctTokens(contracts)
    requires IsHistory(bs, ops) && i < |bs| && k in bs[i].chains && bs[i].chains[k].strikes != []
    requires forall m :: 0 <= m < |ops| ==> SeededFrom(contracts, ops[m])
    ensures exists r :: OnlyAtm(Publish(bs[i].chains[k], proxy), r)
  {
    hide IsHistory, PublishedAtm, SeedAll, SortChain, DistinctTokens, OnlyAtm;
    forall m | 0 <= m < |ops| && ops[m].Seed? ensures DistinctStrikes(ops[m].chain.strikes) {
      AscendingIsDistinct(contracts, ops[m].key);
      assert SeededFrom(contracts, ops[m]);
    }
    hide DistinctStrikes;
    StrikesStayDistinct(bs, ops, i, k);
    ExactlyOneAtm(bs[i].chains[k], proxy);
  }
}
