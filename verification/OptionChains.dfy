/**
 The option chains kept by the feed decoder: rows by strike, an index from token to row that is
 never cleaned, and an underlying price derived from the options on every tick.

 The put-call-parity proxy that stands in for a missing future tick enters as an arbitrary number.
 */
module OptionChains {
  import opened Rounding
  import opened Strikes

  type Token = t: int | 0 <= t < TWO32

  datatype OptionStrike = OptionStrike(strike: real, ceToken: Token, peToken: Token, ceLtp: real, peLtp: real)

  datatype OptionChain = OptionChain(symbol: string, expiry: string, futLtp: real, synthetic: real,
                                     strikes: seq<OptionStrike>)

  datatype Slot = Slot(key: string, row: int)

  datatype Book = Book(chains: map<string, OptionChain>, index: map<int, Slot>)

  const EMPTY := Book(map[], map[])

  /** The casts between unsigned tokens and the signed keys of the index. */
  function AsKey(t: Token): (k: Int32)
    ensures k == 0 <==> t == 0
  {
    if t >= 0x8000_0000 then t - TWO32 else t
  }

  function AsToken(k: Int32): (t: Token)
    ensures AsKey(t) == k
  {
    if k < 0 then k + TWO32 else k
  }

  lemma AsKeyInjective(s: Token, t: Token)
    requires AsKey(s) == AsKey(t)
    ensures s == t
  {
  }

  // ---------------------------------------------------------------------------------------
  // The derived underlying
  // ---------------------------------------------------------------------------------------

  function StrikeList(strikes: seq<OptionStrike>): (s: seq<real>)
    ensures |s| == |strikes| && forall i :: 0 <= i < |s| ==> s[i] == strikes[i].strike
  {
    seq(|strikes|, i requires 0 <= i < |strikes| => strikes[i].strike)
  }

  predicate Quoted(r: OptionStrike)
  {
    r.ceLtp > 0.0 && r.peLtp > 0.0
  }

  /** Strike plus call minus put at the first fully quoted row of a strike; zero if there is none. */
  function Parity(strikes: seq<OptionStrike>, strike: real): real
  {
    if strikes == [] then 0.0
    else if strikes[0].strike == strike && Quoted(strikes[0]) then
      strikes[0].strike + (strikes[0].ceLtp - strikes[0].peLtp)
    else Parity(strikes[1..], strike)
  }

  /** The monthly future: its own tick, or the proxy. */
  function Anchor(c: OptionChain, proxy: real): real
  {
    if c.futLtp > 0.0 then c.futLtp else proxy
  }

  function SnapStrike(c: OptionChain, px: real): real
  {
    if c.strikes == [] then 0.0 else Snap(StrikeList(c.strikes), px)
  }

  /** What a recalculation takes from outside: whether the expiry has passed, and the parity proxy. */
  datatype Env = Env(expired: bool, proxy: real)

  /** The effect of a recalculation: none once the expiry has passed, otherwise `recompute_underlying_from_options`. */
  function Recompute(c: OptionChain, env: Env): (r: OptionChain)
    ensures r == c.(synthetic := r.synthetic)
  {
    if env.expired then c else
    var future := Anchor(c, env.proxy);
    if future <= 0.0 then c else
    var atm := SnapStrike(c, future);
    if atm <= 0.0 then c else
    var synthetic := Parity(c.strikes, atm);
    if synthetic > 0.0 then c.(synthetic := synthetic)
    else if c.synthetic <= 0.0 then c.(synthetic := future)
    else c
  }

  // ---------------------------------------------------------------------------------------
  // Operations
  // ---------------------------------------------------------------------------------------

  function IndexRow(index: map<int, Slot>, key: string, i: int, r: OptionStrike): map<int, Slot>
  {
    var withCe := if r.ceToken != 0 then index[AsKey(r.ceToken) := Slot(key, i)] else index;
    if r.peToken != 0 then withCe[AsKey(r.peToken) := Slot(key, i)] else withCe
  }

  function IndexRows(index: map<int, Slot>, key: string, strikes: seq<OptionStrike>): map<int, Slot>
  {
    if strikes == [] then index else
    var n := |strikes| - 1;
    IndexRow(IndexRows(index, key, strikes[..n]), key, n, strikes[n])
  }

  /** `set_chain`. */
  function SetChain(b: Book, key: string, chain: OptionChain, env: Env): Book
  {
    Book(b.chains[key := Recompute(chain, env)], IndexRows(b.index, key, chain.strikes))
  }

  /** The effect of a tick on the row it was found for. */
  function PriceRow(r: OptionStrike, t: Token, price: real): OptionStrike
  {
    if r.ceToken == t then r.(ceLtp := price) else if r.peToken == t then r.(peLtp := price) else r
  }

  predicate HasToken(r: OptionStrike, t: Token)
  {
    t != 0 && (r.ceToken == t || r.peToken == t)
  }

  /** `update_option_price`: look up the index, check that the row is still the token's, set its price. */
  function OptionTick(b: Book, token: Int32, price: real, env: Env): Book
  {
    if token !in b.index then b else
    var slot := b.index[token];
    if slot.key !in b.chains then b else
    var c := b.chains[slot.key];
    if slot.row < 0 || slot.row >= |c.strikes| then b else
    var r, t := c.strikes[slot.row], AsToken(token);
    if r.ceToken != t && r.peToken != t then b else
    b.(chains := b.chains[slot.key := Recompute(c.(strikes := c.strikes[slot.row := PriceRow(r, t, price)]), env)])
  }

  function SpotChain(c: OptionChain, price: real, env: Env): OptionChain
  {
    Recompute(if price > 0.0 then c.(futLtp := price) else c, env)
  }

  /** `update_spot_price`: every chain of the symbol takes the new future price. */
  function SpotTick(b: Book, symbol: string, price: real, env: string -> Env): Book
  {
    b.(chains := map k | k in b.chains ::
      if b.chains[k].symbol == symbol then SpotChain(b.chains[k], price, env(k)) else b.chains[k])
  }

  // ---------------------------------------------------------------------------------------
  // The index agrees with a scan
  // ---------------------------------------------------------------------------------------

  /** What a scan of all rows for a token would do to one chain. */
  ghost function ScanChain(c: OptionChain, t: Token, price: real, env: Env): OptionChain
  {
    if exists i :: 0 <= i < |c.strikes| && HasToken(c.strikes[i], t)
    then Recompute(c.(strikes := ScanRows(c.strikes, t, price)), env)
    else c
  }

  function ScanRows(rows: seq<OptionStrike>, t: Token, price: real): (s: seq<OptionStrike>)
    ensures |s| == |rows|
    ensures forall i :: 0 <= i < |rows| ==>
      s[i] == if HasToken(rows[i], t) then PriceRow(rows[i], t, price) else rows[i]
  {
    seq(|rows|, i requires 0 <= i < |rows| => if HasToken(rows[i], t) then PriceRow(rows[i], t, price) else rows[i])
  }

  ghost function ScanAll(chains: map<string, OptionChain>, t: Token, price: real, env: Env): map<string, OptionChain>
  {
    map k | k in chains :: ScanChain(chains[k], t, price, env)
  }

  /** A token occurs in row `i` of chain `k`. */
  ghost predicate At(chains: map<string, OptionChain>, k: string, i: int, t: Token)
  {
    k in chains && 0 <= i < |chains[k].strikes| && HasToken(chains[k].strikes[i], t)
  }

  /** No token occurs in two rows. */
  ghost predicate Unique(chains: map<string, OptionChain>)
  {
    forall k, i, l, j, t :: At(chains, k, i, t) && At(chains, l, j, t) ==> k == l && i == j
  }

  ghost predicate Maps(index: map<int, Slot>, t: Token, k: string, i: int)
  {
    AsKey(t) in index && index[AsKey(t)] == Slot(k, i)
  }

  /** Every token of a stored chain is indexed at its row; other entries may be stale. */
  ghost predicate IndexOk(b: Book)
  {
    0 !in b.index && forall k, i, t :: At(b.chains, k, i, t) ==> Maps(b.index, t, k, i)
  }

  lemma IndexRowEffect(index: map<int, Slot>, key: string, i: int, r: OptionStrike, t: Token)
    requires t != 0
    ensures HasToken(r, t) ==> Maps(IndexRow(index, key, i, r), t, key, i)
    ensures !HasToken(r, t) ==> forall k, j :: Maps(IndexRow(index, key, i, r), t, k, j) <==> Maps(index, t, k, j)
    ensures 0 !in index ==> 0 !in IndexRow(index, key, i, r)
  {
    hide AsKey;
    if AsKey(r.ceToken) == AsKey(t) {
      AsKeyInjective(r.ceToken, t);
    }
    if AsKey(r.peToken) == AsKey(t) {
      AsKeyInjective(r.peToken, t);
    }
  }

  ghost predicate LastWith(rows: seq<OptionStrike>, i: int, t: Token)
  {
    0 <= i < |rows| && HasToken(rows[i], t) && forall j :: i < j < |rows| ==> !HasToken(rows[j], t)
  }

  /** The last row holding a token decides its entry; tokens in no row keep theirs. */
  lemma {:induction false} IndexRowsEffect(index: map<int, Slot>, key: string, rows: seq<OptionStrike>, t: Token)
    requires t != 0
    ensures (forall i :: 0 <= i < |rows| ==> !HasToken(rows[i], t)) ==>
      forall k, j :: Maps(IndexRows(index, key, rows), t, k, j) <==> Maps(index, t, k, j)
    ensures forall i :: LastWith(rows, i, t) ==> Maps(IndexRows(index, key, rows), t, key, i)
    ensures 0 !in index ==> 0 !in IndexRows(index, key, rows)
  {
    hide HasToken, Maps, IndexRow;
    if rows != [] {
      var n := |rows| - 1;
      var front := rows[..n];
      assert forall i :: 0 <= i < n ==> front[i] == rows[i];
      IndexRowsEffect(index, key, front, t);
      IndexRowEffect(IndexRows(index, key, front), key, n, rows[n], t);
    }
  }

  lemma RecomputeKeepsRows(chains: map<string, OptionChain>, chains': map<string, OptionChain>, k: string, i: int,
                           t: Token)
    requires chains.Keys == chains'.Keys
    requires forall l :: l in chains ==> SameTokens(chains[l].strikes, chains'[l].strikes)
    ensures At(chains, k, i, t) <==> At(chains', k, i, t)
  {
  }

  ghost predicate SameTokens(a: seq<OptionStrike>, b: seq<OptionStrike>)
  {
    |a| == |b| && forall i :: 0 <= i < |a| ==> a[i].ceToken == b[i].ceToken && a[i].peToken == b[i].peToken
  }

  /** Storing or replacing a chain keeps the index right, provided the stored tokens are then unique. */
  lemma SetChainKeepsIndex(b: Book, key: string, chain: OptionChain, env: Env)
    requires IndexOk(b) && Unique(SetChain(b, key, chain, env).chains)
    ensures IndexOk(SetChain(b, key, chain, env))
  {
    hide Recompute, IndexRows, HasToken;
    var n := SetChain(b, key, chain, env);
    forall k, i, t | At(n.chains, k, i, t) ensures Maps(n.index, t, k, i) {
      TokenNonZero(n.chains, k, i, t);
      IndexRowsEffect(b.index, key, chain.strikes, t);
      assert forall j :: 0 <= j < |chain.strikes| && HasToken(chain.strikes[j], t) ==> At(n.chains, key, j, t);
      if k == key {
        assert HasToken(chain.strikes[i], t);
      } else {
        assert At(b.chains, k, i, t);
      }
    }
    IndexRowsEffect(b.index, key, chain.strikes, 1);
  }

  lemma TokenNonZero(chains: map<string, OptionChain>, k: string, i: int, t: Token)
    requires At(chains, k, i, t)
    ensures t != 0
  {
  }

  lemma SameTokensKeepIndex(b: Book, n: Book)
    requires IndexOk(b) && n.index == b.index && n.chains.Keys == b.chains.Keys
    requires forall l :: l in b.chains ==> SameTokens(b.chains[l].strikes, n.chains[l].strikes)
    ensures IndexOk(n)
  {
    hide Maps, SameTokens;
    forall k, i, t | At(n.chains, k, i, t) ensures Maps(n.index, t, k, i) {
      RecomputeKeepsRows(b.chains, n.chains, k, i, t);
    }
  }

  lemma OptionTickKeepsIndex(b: Book, token: Int32, price: real, env: Env)
    requires IndexOk(b)
    ensures IndexOk(OptionTick(b, token, price, env))
  {
    hide Recompute, IndexOk;
    SameTokensKeepIndex(b, OptionTick(b, token, price, env));
  }

  lemma SpotTickKeepsIndex(b: Book, symbol: string, price: real, env: string -> Env)
    requires IndexOk(b)
    ensures IndexOk(SpotTick(b, symbol, price, env))
  {
    hide Recompute, IndexOk;
    SameTokensKeepIndex(b, SpotTick(b, symbol, price, env));
  }

  lemma ScanFindsNothing(chains: map<string, OptionChain>, t: Token, price: real, env: Env)
    requires forall k, i :: !At(chains, k, i, t)
    ensures ScanAll(chains, t, price, env) == chains
  {
    hide HasToken, Recompute;
    forall k | k in chains ensures ScanChain(chains[k], t, price, env) == chains[k] {
      assert forall i :: 0 <= i < |chains[k].strikes| && HasToken(chains[k].strikes[i], t) ==> At(chains, k, i, t);
    }
  }

  lemma ScanFindsOne(chains: map<string, OptionChain>, k: string, i: int, t: Token, price: real, env: Env)
    requires Unique(chains) && At(chains, k, i, t)
    ensures var c := chains[k];
      ScanAll(chains, t, price, env)
        == chains[k := Recompute(c.(strikes := c.strikes[i := PriceRow(c.strikes[i], t, price)]), env)]
  {
    hide HasToken, Recompute, PriceRow;
    var c := chains[k];
    assert forall j :: 0 <= j < |c.strikes| && HasToken(c.strikes[j], t) ==> At(chains, k, j, t);
    assert ScanRows(c.strikes, t, price) == c.strikes[i := PriceRow(c.strikes[i], t, price)];
    forall l | l in chains && l != k ensures ScanChain(chains[l], t, price, env) == chains[l] {
      assert forall j :: 0 <= j < |chains[l].strikes| && HasToken(chains[l].strikes[j], t) ==> At(chains, l, j, t);
    }
  }

  /**
   With unique tokens and a right index, a tick changes exactly what a scan of all chains for its
   token would change, whatever stale entries the index holds.
   */
  lemma TickMatchesScan(b: Book, token: Int32, price: real, env: Env)
    requires IndexOk(b) && Unique(b.chains)
    ensures OptionTick(b, token, price, env) == b.(chains := ScanAll(b.chains, AsToken(token), price, env))
  {
    hide Recompute, PriceRow, ScanAll, Unique;
    var t := AsToken(token);
    assert forall k, i :: At(b.chains, k, i, t) ==> Maps(b.index, t, k, i);
    if token in b.index {
      var slot := b.index[token];
      if At(b.chains, slot.key, slot.row, t) {
        ScanFindsOne(b.chains, slot.key, slot.row, t, price, env);
      } else {
        ScanFindsNothing(b.chains, t, price, env);
      }
    } else {
      ScanFindsNothing(b.chains, t, price, env);
    }
  }

  // ---------------------------------------------------------------------------------------
  // Histories
  // ---------------------------------------------------------------------------------------

  datatype Op =
    | Seed(key: string, chain: OptionChain, env: Env)
    | Spot(symbol: string, price: real, envs: string -> Env)
    | Option(token: Int32, price: real, env: Env)

  function Apply(b: Book, op: Op): Book
  {
    match op
    case Seed(key, chain, env) => SetChain(b, key, chain, env)
    case Spot(symbol, price, envs) => SpotTick(b, symbol, price, envs)
    case Option(token, price, env) => OptionTick(b, token, price, env)
  }

  /** Any sequence of operations from an empty book. */
  ghost predicate IsHistory(bs: seq<Book>, ops: seq<Op>)
  {
    |bs| == |ops| + 1 && bs[0] == EMPTY && forall i :: 0 <= i < |ops| ==> bs[i + 1] == Apply(bs[i], ops[i])
  }

  lemma HistoryStep(bs: seq<Book>, ops: seq<Op>, i: nat)
    requires IsHistory(bs, ops) && i < |ops|
    ensures bs[i + 1] == Apply(bs[i], ops[i])
  {
  }

  lemma {:induction false} HistoryIndexOk(bs: seq<Book>, ops: seq<Op>, i: nat)
    requires IsHistory(bs, ops) && i < |bs| && forall j :: 0 <= j < |bs| ==> Unique(bs[j].chains)
    ensures IndexOk(bs[i])
  {
    hide Unique, SetChain, SpotTick, OptionTick;
    if i > 0 {
      HistoryIndexOk(bs, ops, i - 1);
      HistoryStep(bs, ops, i - 1);
      hide IndexOk;
      match ops[i - 1] {
        case Seed(key, chain, env) => SetChainKeepsIndex(bs[i - 1], key, chain, env);
        case Spot(symbol, price, envs) => SpotTickKeepsIndex(bs[i - 1], symbol, price, envs);
        case Option(token, price, env) => OptionTickKeepsIndex(bs[i - 1], token, price, env);
      }
    }
  }

  /** At every point of every history with unique tokens, a tick does what a scan would do. */
  lemma TicksAlwaysMatchScan(bs: seq<Book>, ops: seq<Op>, i: nat, token: Int32, price: real, env: Env)
    requires IsHistory(bs, ops) && i < |bs| && forall j :: 0 <= j < |bs| ==> Unique(bs[j].chains)
    ensures OptionTick(bs[i], token, price, env) == bs[i].(chains := ScanAll(bs[i].chains, AsToken(token), price, env))
  {
    hide Unique, IndexOk, OptionTick, ScanAll;
    HistoryIndexOk(bs, ops, i);
    TickMatchesScan(bs[i], token, price, env);
  }

  // ---------------------------------------------------------------------------------------
  // The derived underlying over a history
  // ---------------------------------------------------------------------------------------

  /** A fully quoted row implies this underlying. */
  predicate Implies(r: OptionStrike, v: real)
  {
    Quoted(r) && v == r.strike + (r.ceLtp - r.peLtp)
  }

  /** The underlying is strike plus call minus put of a fully quoted listed row. */
  ghost predicate FromParity(c: OptionChain)
  {
    exists i :: 0 <= i < |c.strikes| && Implies(c.strikes[i], c.synthetic)
  }

  lemma {:induction false} ParityIsListed(strikes: seq<OptionStrike>, strike: real)
    requires Parity(strikes, strike) != 0.0
    ensures exists i :: 0 <= i < |strikes| && Implies(strikes[i], Parity(strikes, strike))
  {
    if strikes[0].strike == strike && Quoted(strikes[0]) {
      assert Implies(strikes[0], Parity(strikes, strike));
    } else {
      var rest := strikes[1..];
      ParityIsListed(rest, strike);
      var i :| 0 <= i < |rest| && Implies(rest[i], Parity(rest, strike));
      assert strikes[i + 1] == rest[i];
    }
  }

  lemma RecomputeUnderlying(c: OptionChain, env: Env)
    ensures var r := Recompute(c, env);
      && (c.synthetic > 0.0 ==> r.synthetic > 0.0)
      && (r.synthetic != c.synthetic ==> r.synthetic > 0.0)
      && (r.synthetic != c.synthetic ==>
            FromParity(r) || (c.synthetic <= 0.0 && r.synthetic == Anchor(c, env.proxy)))
  {
    hide Implies, SnapStrike, Parity;
    var future := Anchor(c, env.proxy);
    if future > 0.0 && SnapStrike(c, future) > 0.0 && Parity(c.strikes, SnapStrike(c, future)) > 0.0 {
      ParityIsListed(c.strikes, SnapStrike(c, future));
    }
  }

  /** The first row of a strike that has a positive price on both sides. */
  predicate FirstQuoted(strikes: seq<OptionStrike>, strike: real, i: int)
  {
    && 0 <= i < |strikes| && QuotedAt(strikes[i], strike)
    && forall j :: 0 <= j < i ==> !QuotedAt(strikes[j], strike)
  }

  predicate QuotedAt(r: OptionStrike, strike: real)
  {
    r.strike == strike && r.ceLtp > 0.0 && r.peLtp > 0.0
  }

  /** What a row says about the underlying. */
  function ImpliedBy(r: OptionStrike): real
  {
    r.strike + r.ceLtp - r.peLtp
  }

  lemma {:induction false} ParityMeaning(strikes: seq<OptionStrike>, strike: real)
    ensures forall i :: FirstQuoted(strikes, strike, i) ==> Parity(strikes, strike) == ImpliedBy(strikes[i])
    ensures (forall i :: !FirstQuoted(strikes, strike, i)) ==> Parity(strikes, strike) == 0.0
  {
    if strikes != [] {
      var rest := strikes[1..];
      ParityMeaning(rest, strike);
      if QuotedAt(strikes[0], strike) {
        assert FirstQuoted(strikes, strike, 0);
      } else {
        forall i ensures FirstQuoted(strikes, strike, i + 1) <==> FirstQuoted(rest, strike, i) {
          QuotedTail(strikes, strike, i);
        }
        assert forall i :: FirstQuoted(strikes, strike, i) ==> FirstQuoted(strikes, strike, (i - 1) + 1);
      }
    }
  }

  lemma QuotedTail(strikes: seq<OptionStrike>, strike: real, i: int)
    requires strikes != [] && !QuotedAt(strikes[0], strike)
    ensures FirstQuoted(strikes, strike, i + 1) <==> FirstQuoted(strikes[1..], strike, i)
  {
    hide QuotedAt;
    var rest := strikes[1..];
    assert forall j :: 0 <= j < |rest| ==> rest[j] == strikes[j + 1];
    if FirstQuoted(strikes, strike, i + 1) {
      forall j | 0 <= j < i ensures !QuotedAt(rest[j], strike) {
        assert !QuotedAt(strikes[j + 1], strike);
      }
    }
    if FirstQuoted(rest, strike, i) {
      forall j | 0 <= j < i + 1 ensures !QuotedAt(strikes[j], strike) {
        assert j > 0 ==> !QuotedAt(rest[j - 1], strike);
      }
    }
  }

  /** What the quoted row of a strike implies for the underlying, where that is positive. */
  ghost predicate PositiveParity(strikes: seq<OptionStrike>, strike: real, v: real)
  {
    exists i :: FirstQuoted(strikes, strike, i) && v == ImpliedBy(strikes[i]) && v > 0.0
  }

  lemma ParityIsPositive(strikes: seq<OptionStrike>, strike: real)
    ensures forall v :: PositiveParity(strikes, strike, v) <==> v > 0.0 && v == Parity(strikes, strike)
  {
    hide FirstQuoted, Parity;
    ParityMeaning(strikes, strike);
  }

  /**
   A recalculation, exactly: the future tick or else the proxy is snapped to a listed strike; if the
   first fully quoted row of that strike implies a positive underlying it is taken, and otherwise the
   anchor is, but only if no underlying was known.
   */
  lemma RecomputeExactly(c: OptionChain, env: Env)
    ensures
      var r := Recompute(c, env);
      var anchor := if c.futLtp > 0.0 then c.futLtp else env.proxy;
      && (env.expired || anchor <= 0.0 || c.strikes == [] ==> r == c)
      && (!env.expired && anchor > 0.0 && c.strikes != [] ==>
            var strike := Snap(StrikeList(c.strikes), anchor);
            && (strike <= 0.0 ==> r == c)
            && (forall v :: strike > 0.0 && PositiveParity(c.strikes, strike, v) ==> r == c.(synthetic := v))
            && (strike > 0.0 && (forall v :: !PositiveParity(c.strikes, strike, v)) ==>
                  r == if c.synthetic <= 0.0 then c.(synthetic := anchor) else c))
  {
    hide PositiveParity, Snap, Parity;
    if c.strikes != [] {
      var anchor := if c.futLtp > 0.0 then c.futLtp else env.proxy;
      var strike := Snap(StrikeList(c.strikes), anchor);
      ParityIsPositive(c.strikes, strike);
      assert forall v :: PositiveParity(c.strikes, strike, v) <==> v > 0.0 && v == Parity(c.strikes, strike);
      assert Parity(c.strikes, strike) > 0.0 ==> PositiveParity(c.strikes, strike, Parity(c.strikes, strike));
    }
  }

  predicate Reseeds(op: Op, k: string)
  {
    op.Seed? && op.key == k
  }

  /** Any other operation leaves a chain alone or recomputes it from the same stored underlying. */
  lemma StepUnderlying(b: Book, op: Op, k: string)
    requires k in b.chains && !Reseeds(op, k)
    ensures k in Apply(b, op).chains
    ensures var c, r := b.chains[k], Apply(b, op).chains[k];
      && (c.synthetic > 0.0 ==> r.synthetic > 0.0)
      && (r.synthetic != c.synthetic ==> r.synthetic > 0.0 && (FromParity(r) || c.synthetic <= 0.0))
  {
    hide Recompute, FromParity, Anchor, Apply, HandedOver;
    HandedIsRecalculated(b, op, k);
    var h := HandedOver(b, op, k);
    if h.Handed? {
      RecomputeUnderlying(h.chain, h.env);
    }
  }

  lemma {:induction false} UnderlyingStaysPositive(bs: seq<Book>, ops: seq<Op>, k: string, i: nat, j: nat)
    requires IsHistory(bs, ops) && i <= j < |bs| && k in bs[i].chains
    requires forall m :: i <= m < j ==> !Reseeds(ops[m], k)
    ensures k in bs[j].chains && (bs[i].chains[k].synthetic > 0.0 ==> bs[j].chains[k].synthetic > 0.0)
    decreases j
  {
    hide Apply, FromParity;
    if i < j {
      UnderlyingStaysPositive(bs, ops, k, i, j - 1);
      HistoryStep(bs, ops, j - 1);
      StepUnderlying(bs[j - 1], ops[j - 1], k);
    }
  }

  /**
   Between reseeds: once positive, the underlying stays positive, and every later change sets it to
   strike plus call minus put of a listed row with both prices positive.
   */
  lemma UnderlyingFollowsParity(bs: seq<Book>, ops: seq<Op>, k: string, i: nat, j: nat)
    requires IsHistory(bs, ops) && i <= j < |ops| && k in bs[i].chains && bs[i].chains[k].synthetic > 0.0
    requires forall m :: i <= m <= j ==> !Reseeds(ops[m], k)
    ensures k in bs[j].chains && k in bs[j + 1].chains && bs[j + 1].chains[k].synthetic > 0.0
    ensures bs[j + 1].chains[k].synthetic != bs[j].chains[k].synthetic ==> FromParity(bs[j + 1].chains[k])
  {
    hide Apply, FromParity;
    UnderlyingStaysPositive(bs, ops, k, i, j);
    HistoryStep(bs, ops, j);
    StepUnderlying(bs[j], ops[j], k);
  }

  /** A recalculation finds no parity value for an underlying that was never set, and takes the monthly future. */
  predicate TakesFuture(c: OptionChain, env: Env)
  {
    var future := Anchor(c, env.proxy);
    && !env.expired && future > 0.0 && SnapStrike(c, future) > 0.0
    && Parity(c.strikes, SnapStrike(c, future)) <= 0.0 && c.synthetic <= 0.0
  }

  /** What an operation hands to the recalculation of chain `k`, if it recalculates it. */
  datatype Handed = Nothing | Handed(chain: OptionChain, env: Env)

  function HandedOver(b: Book, op: Op, k: string): Handed
  {
    match op
    case Seed(key, chain, env) => if key == k then Handed(chain, env) else Nothing
    case Spot(symbol, price, envs) =>
      if k !in b.chains || b.chains[k].symbol != symbol then Nothing
      else Handed(if price > 0.0 then b.chains[k].(futLtp := price) else b.chains[k], envs(k))
    case Option(token, price, env) =>
      if token !in b.index || b.index[token].key != k || k !in b.chains then Nothing else
      var c, row, t := b.chains[k], b.index[token].row, AsToken(token);
      if row < 0 || row >= |c.strikes| || (c.strikes[row].ceToken != t && c.strikes[row].peToken != t) then Nothing
      else Handed(c.(strikes := c.strikes[row := PriceRow(c.strikes[row], t, price)]), env)
  }

  /** An operation recalculates what it hands over, and leaves every other chain alone. */
  lemma HandedIsRecalculated(b: Book, op: Op, k: string)
    ensures var h := HandedOver(b, op, k);
      if h.Handed? then k in Apply(b, op).chains && Apply(b, op).chains[k] == Recompute(h.chain, h.env)
      else (k in b.chains <==> k in Apply(b, op).chains) && (k in b.chains ==> Apply(b, op).chains[k] == b.chains[k])
    ensures HandedOver(b, op, k).Handed? && !Reseeds(op, k) ==>
      k in b.chains && HandedOver(b, op, k).chain.synthetic == b.chains[k].synthetic
  {
    hide Recompute, IndexRows, PriceRow;
  }

  /** The operation takes the fallback branch for chain `k`. */
  predicate FallsBack(b: Book, op: Op, k: string)
  {
    HandedOver(b, op, k).Handed? && TakesFuture(HandedOver(b, op, k).chain, HandedOver(b, op, k).env)
  }

  lemma FallbackIsPositive(c: OptionChain, env: Env)
    requires TakesFuture(c, env)
    ensures Recompute(c, env).synthetic == Anchor(c, env.proxy) > 0.0
  {
    hide SnapStrike, Parity;
  }

  /** From one storing of a chain to the next, the fallback branch is taken at most once for it. */
  lemma FallsBackAtMostOnce(bs: seq<Book>, ops: seq<Op>, k: string, i: nat, j: nat)
    requires IsHistory(bs, ops) && i < j < |ops| && FallsBack(bs[i], ops[i], k)
    requires forall m :: i < m <= j ==> !Reseeds(ops[m], k)
    ensures !FallsBack(bs[j], ops[j], k)
  {
    hide Apply, HandedOver, Recompute, SnapStrike, Parity;
    HistoryStep(bs, ops, i);
    HandedIsRecalculated(bs[i], ops[i], k);
    FallbackIsPositive(HandedOver(bs[i], ops[i], k).chain, HandedOver(bs[i], ops[i], k).env);
    UnderlyingStaysPositive(bs, ops, k, i + 1, j);
    HandedIsRecalculated(bs[j], ops[j], k);
  }

  // ---------------------------------------------------------------------------------------
  // What the chains show
  // ---------------------------------------------------------------------------------------

  /** The price a row shows for one of its tokens. */
  function QuoteOf(r: OptionStrike, u: Token): real
  {
    if r.ceToken == u then r.ceLtp else r.peLtp
  }

  lemma TickPrices(b: Book, token: Int32, price: real, env: Env, k: string, i: int, u: Token)
    requires IndexOk(b) && At(b.chains, k, i, u)
    ensures var after := OptionTick(b, token, price, env).chains;
      && k in after && |after[k].strikes| == |b.chains[k].strikes|
      && QuoteOf(after[k].strikes[i], u) == (if AsToken(token) == u then price else QuoteOf(b.chains[k].strikes[i], u))
      && after[k].futLtp == b.chains[k].futLtp
  {
    hide Recompute, AsKey, AsToken;
    assert Maps(b.index, u, k, i);
  }

  /** The price of the last tick of token `u` since chain `k` was last stored, or the stored price. */
  function LastQuote(ops: seq<Op>, k: string, i: nat, u: Token): real
  {
    if ops == [] then 0.0 else
    var op := ops[|ops| - 1];
    if op.Seed? && op.key == k && i < |op.chain.strikes| then QuoteOf(op.chain.strikes[i], u)
    else if op.Option? && AsToken(op.token) == u then op.price
    else LastQuote(ops[..|ops| - 1], k, i, u)
  }

  lemma StepQuotes(b: Book, op: Op, k: string, i: int, u: Token)
    requires IndexOk(b) && At(Apply(b, op).chains, k, i, u)
    ensures var r := Apply(b, op).chains[k].strikes[i];
      if Reseeds(op, k) then i < |op.chain.strikes| && QuoteOf(r, u) == QuoteOf(op.chain.strikes[i], u)
      else (
        && At(b.chains, k, i, u)
        && QuoteOf(r, u)
          == if op.Option? && AsToken(op.token) == u then op.price else QuoteOf(b.chains[k].strikes[i], u))
  {
    hide Recompute, IndexRows, IndexOk, QuoteOf;
    if !Reseeds(op, k) {
      match op {
        case Seed(key, chain, env) =>
        case Spot(symbol, price, envs) =>
        case Option(token, price, env) =>
          RecomputeKeepsRows(b.chains, OptionTick(b, token, price, env).chains, k, i, u);
          TickPrices(b, token, price, env, k, i, u);
      }
    }
  }

  /**
   At every moment of every history, the price shown for a token is that of its last tick since its
   chain was stored, or the stored price if it has not ticked.
   */
  lemma {:induction false} QuotesAreLastTicks(bs: seq<Book>, ops: seq<Op>, n: nat, k: string, i: nat, u: Token)
    requires IsHistory(bs, ops) && n < |bs| && forall j :: 0 <= j < |bs| ==> Unique(bs[j].chains)
    requires At(bs[n].chains, k, i, u)
    ensures QuoteOf(bs[n].chains[k].strikes[i], u) == LastQuote(ops[..n], k, i, u)
  {
    hide Apply, Unique, QuoteOf;
    assert n > 0;
    HistoryIndexOk(bs, ops, n - 1);
    HistoryStep(bs, ops, n - 1);
    hide IsHistory, IndexOk;
    StepQuotes(bs[n - 1], ops[n - 1], k, i, u);
    assert ops[..n][..n - 1] == ops[..n - 1] && ops[..n][n - 1] == ops[n - 1];
    if !Reseeds(ops[n - 1], k) {
      QuotesAreLastTicks(bs, ops, n - 1, k, i, u);
    }
  }

  /** The symbol under which a chain was last stored. */
  function StoredSymbol(ops: seq<Op>, k: string): string
  {
    if ops == [] then "" else
    var op := ops[|ops| - 1];
    if Reseeds(op, k) then op.chain.symbol else StoredSymbol(ops[..|ops| - 1], k)
  }

  /** The last positive price ticked for the symbol of a chain since the chain was last stored, or the stored one. */
  function LastFuture(ops: seq<Op>, k: string): real
  {
    if ops == [] then 0.0 else
    var op := ops[|ops| - 1];
    if Reseeds(op, k) then op.chain.futLtp
    else if op.Spot? && op.price > 0.0 && op.symbol == StoredSymbol(ops, k) then op.price
    else LastFuture(ops[..|ops| - 1], k)
  }

  lemma StepFuture(b: Book, op: Op, k: string)
    requires k in Apply(b, op).chains
    ensures var c := Apply(b, op).chains[k];
      if Reseeds(op, k) then c.symbol == op.chain.symbol && c.futLtp == op.chain.futLtp
      else (
        && k in b.chains && c.symbol == b.chains[k].symbol
        && c.futLtp == if op.Spot? && op.price > 0.0 && op.symbol == c.symbol then op.price else b.chains[k].futLtp)
  {
    hide Recompute, IndexRows, PriceRow;
  }

  /**
   At every moment of every history, a chain carries the last positive spot price of its symbol
   since it was stored.
   */
  lemma {:induction false} FutureIsLastSpot(bs: seq<Book>, ops: seq<Op>, n: nat, k: string)
    requires IsHistory(bs, ops) && n < |bs| && k in bs[n].chains
    ensures bs[n].chains[k].symbol == StoredSymbol(ops[..n], k) && bs[n].chains[k].futLtp == LastFuture(ops[..n], k)
  {
    hide Apply;
    assert n > 0;
    HistoryStep(bs, ops, n - 1);
    hide IsHistory;
    StepFuture(bs[n - 1], ops[n - 1], k);
    assert ops[..n][..n - 1] == ops[..n - 1] && ops[..n][n - 1] == ops[n - 1];
    if !Reseeds(ops[n - 1], k) {
      FutureIsLastSpot(bs, ops, n - 1, k);
    }
  }
}
