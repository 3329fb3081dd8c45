/**
 Netting of filled order rows, by the square-off for its closing intents and by the square-off plan
 for its legs.
 */
module Netting {
  import opened OrderTable
  import opened Sequences
  import opened Text

  /** The trade whose rows are netted. */
  datatype Account = Account(tradeUid: string, symbol: string)

  /** A row of this trade that carries a fill. */
  predicate Filled(a: Account, r: Row)
  {
    r.tradeUid == a.tradeUid && r.filledQty > 0 && IsFilledStatus(r.status)
  }

  function SymbolOf(a: Account, r: Row): string
  {
    if r.symbol == "" then a.symbol else r.symbol
  }

  /** The text under which a position is filed. */
  function Key(symbol: string, legType: string, token: int): string
  {
    symbol + "|" + legType + "|" + SignedDecimal(token)
  }

  function KeyOf(a: Account, r: Row): string
  {
    Key(SymbolOf(a, r), r.legType, r.token)
  }

  /** A key determines its token. */
  lemma KeyToken(s1: string, l1: string, t1: int, s2: string, l2: string, t2: int)
    requires Key(s1, l1, t1) == Key(s2, l2, t2)
    ensures t1 == t2
  {
    hide SignedDecimal;
    SplitAtLastSeparator(s1 + "|" + l1, s2 + "|" + l2, SignedDecimal(t1), SignedDecimal(t2), '|');
    SignedDecimalInjective(t1, t2);
  }

  /** A key whose symbol and leg type are free of the separator determines all three. */
  lemma KeyDetermines(s1: string, l1: string, t1: int, s2: string, l2: string, t2: int)
    requires Key(s1, l1, t1) == Key(s2, l2, t2) && '|' !in l1 && '|' !in l2
    ensures s1 == s2 && l1 == l2 && t1 == t2
  {
    hide SignedDecimal;
    KeyToken(s1, l1, t1, s2, l2, t2);
    SplitAtLastSeparator(s1 + "|" + l1, s2 + "|" + l2, SignedDecimal(t1), SignedDecimal(t2), '|');
    SplitAtLastSeparator(s1, s2, l1, l2, '|');
  }

  /** The two readers of the table that accumulate in the same way. */
  datatype Reader = SquareOffIntents | SquareOffPlan

  /** Only the square-off skips rows without a token. */
  predicate Included(v: Reader, a: Account, r: Row)
  {
    Filled(a, r) && (v == SquareOffIntents ==> r.token > 0)
  }

  /** Only the square-off trims the side before comparing. */
  predicate IsSell(v: Reader, side: string)
  {
    ToUpper(if v == SquareOffIntents then TrimSpace(side) else side) == "SELL"
  }

  function Signed(v: Reader, r: Row): int
  {
    if IsSell(v, r.side) then -r.filledQty else r.filledQty
  }

  predicate Contributes(v: Reader, a: Account, r: Row, key: string)
  {
    Included(v, a, r) && KeyOf(a, r) == key
  }

  /** Net quantity, traded value and traded quantity of a position. */
  datatype Totals = Totals(net: int, value: real, traded: int)

  function Plus(x: Totals, y: Totals): Totals
  {
    Totals(x.net + y.net, x.value + y.value, x.traded + y.traded)
  }

  const ZERO := Totals(0, 0.0, 0)

  lemma PlusZero(t: Totals)
    ensures Plus(t, ZERO) == t
  {
  }

  /** The magnitude of a quantity (`absInt64`). */
  function AbsInt(v: int): (n: nat)
    ensures n == v || n == -v
  {
    if v < 0 then -v else v
  }

  /** Volume-weighted price of a position. */
  function AveragePrice(t: Totals): real
  {
    if t.traded > 0 then t.value / t.traded as real else 0.0
  }

  function RowTotals(v: Reader, a: Account, r: Row, key: string): Totals
  {
    if Contributes(v, a, r, key) then Totals(Signed(v, r), r.avgFillPrice * r.filledQty as real, r.filledQty) else ZERO
  }

  /** What a key adds up to over a table. */
  function Net(v: Reader, a: Account, rows: seq<Row>, key: string): Totals
  {
    if rows == [] then ZERO else
    Plus(Net(v, a, rows[..|rows| - 1], key), RowTotals(v, a, rows[|rows| - 1], key))
  }

  lemma NetSnoc(v: Reader, a: Account, rows: seq<Row>, r: Row, key: string)
    ensures Net(v, a, rows + [r], key) == Plus(Net(v, a, rows, key), RowTotals(v, a, r, key))
  {
    assert (rows + [r])[..|rows|] == rows;
  }

  /**
   One more row moves a key's net quantity by its fill, down for a sale and up otherwise, and its value
   and volume up, if the row is a fill of the trade filed under that key; otherwise nothing moves.
   */
  lemma NextRowReads(v: Reader, a: Account, rows: seq<Row>, r: Row, key: string)
    ensures
      var before, after := Net(v, a, rows, key), Net(v, a, rows + [r], key);
      var side := if v.SquareOffIntents? then TrimSpace(r.side) else r.side;
      if r.tradeUid == a.tradeUid && r.status in ["FILLED", "SUCCESS"] && r.filledQty > 0
        && (v.SquareOffPlan? || r.token > 0)
        && key == Key(if r.symbol == "" then a.symbol else r.symbol, r.legType, r.token)
      then
        && after.net == (if ToUpper(side) == "SELL" then before.net - r.filledQty else before.net + r.filledQty)
        && after.value == before.value + r.avgFillPrice * r.filledQty as real
        && after.traded == before.traded + r.filledQty
      else after == before
  {
    hide Key, Net, ToUpper, TrimSpace;
    NetSnoc(v, a, rows, r, key);
    PlusZero(Net(v, a, rows, key));
  }

  lemma {:induction false} NetConcat(v: Reader, a: Account, xs: seq<Row>, ys: seq<Row>, key: string)
    ensures Net(v, a, xs + ys, key) == Plus(Net(v, a, xs, key), Net(v, a, ys, key))
  {
    hide RowTotals;
    if ys == [] {
      assert xs + ys == xs;
    } else {
      var front, last := ys[..|ys| - 1], ys[|ys| - 1];
      NetConcat(v, a, xs, front, key);
      AppendAssoc(xs, front, [last]);
      assert front + [last] == ys;
      NetSnoc(v, a, xs + front, last, key);
    }
  }

  // ---------------------------------------------------------------------------------------
  // Agreement
  // ---------------------------------------------------------------------------------------

  lemma CanonicalSide(v: Reader, side: string)
    requires side == "BUY" || side == "SELL"
    ensures IsSell(v, side) <==> side == "SELL"
  {
    assert TrimSpace("BUY") == "BUY" && TrimSpace("SELL") == "SELL";
    assert ToUpper("SELL") == "SELL";
    assert |ToUpper("BUY")| == 3;
  }

  /** A side that reads as a sale after trimming reads as one before. */
  predicate CleanSide(side: string)
  {
    ToUpper(TrimSpace(side)) == "SELL" ==> ToUpper(side) == "SELL"
  }

  /** The readers agree on a side exactly when it is clean; otherwise only the square-off sees a sale. */
  lemma SideReaders(side: string)
    ensures IsSell(SquareOffPlan, side) ==> IsSell(SquareOffIntents, side)
    ensures IsSell(SquareOffPlan, side) == IsSell(SquareOffIntents, side) <==> CleanSide(side)
  {
    if ToUpper(side) == "SELL" {
      assert "SELL"[0] == 'S' && "SELL"[3] == 'L';
      assert UpperChar(side[0]) == 'S' && UpperChar(side[|side| - 1]) == 'L';
      assert TrimSpace(side) == side;
    }
  }

  ghost predicate CleanUnder(a: Account, rows: seq<Row>, key: string)
  {
    forall i :: 0 <= i < |rows| && Contributes(SquareOffIntents, a, rows[i], key) ==> CleanSide(rows[i].side)
  }

  /** Same value and quantity traded, at most as much net, and equally much exactly when `same`. */
  predicate ReadAlike(x: Totals, y: Totals, same: bool)
  {
    x.value == y.value && x.traded == y.traded && x.net <= y.net && (x.net == y.net <==> same)
  }

  predicate CleanIn(a: Account, r: Row, key: string)
  {
    Contributes(SquareOffIntents, a, r, key) ==> CleanSide(r.side)
  }

  /** What a row adds under a key with a token, as the two readers see it. */
  lemma RowReaders(a: Account, r: Row, symbol: string, legType: string, token: int)
    requires token > 0
    ensures
      var k := Key(symbol, legType, token);
      ReadAlike(RowTotals(SquareOffIntents, a, r, k), RowTotals(SquareOffPlan, a, r, k), CleanIn(a, r, k))
  {
    hide Key, IsSell, IsFilledStatus, CleanSide;
    SideReaders(r.side);
    if KeyOf(a, r) == Key(symbol, legType, token) {
      KeyToken(SymbolOf(a, r), r.legType, r.token, symbol, legType, token);
    }
  }

  lemma CleanSnoc(a: Account, rows: seq<Row>, key: string)
    requires rows != []
    ensures CleanUnder(a, rows, key) <==> CleanUnder(a, rows[..|rows| - 1], key) && CleanIn(a, rows[|rows| - 1], key)
  {
    hide Contributes, CleanSide;
    var front := rows[..|rows| - 1];
    assert forall i :: 0 <= i < |front| ==> front[i] == rows[i];
  }

  lemma {:induction false} NetReaders(a: Account, rows: seq<Row>, symbol: string, legType: string, token: int)
    requires token > 0
    ensures
      var k := Key(symbol, legType, token);
      ReadAlike(Net(SquareOffIntents, a, rows, k), Net(SquareOffPlan, a, rows, k), CleanUnder(a, rows, k))
  {
    hide Key, RowTotals, CleanIn, CleanUnder, ReadAlike, Plus;
    var k := Key(symbol, legType, token);
    if rows == [] {
      NothingReadAlike(a, k);
    } else {
      var front, last := rows[..|rows| - 1], rows[|rows| - 1];
      NetReaders(a, front, symbol, legType, token);
      RowReaders(a, last, symbol, legType, token);
      CleanSnoc(a, rows, k);
      PlusReadAlike(Net(SquareOffIntents, a, front, k), Net(SquareOffPlan, a, front, k), CleanUnder(a, front, k),
                    RowTotals(SquareOffIntents, a, last, k), RowTotals(SquareOffPlan, a, last, k), CleanIn(a, last, k));
    }
  }

  lemma NothingReadAlike(a: Account, key: string)
    ensures ReadAlike(ZERO, ZERO, CleanUnder(a, [], key))
  {
  }

  lemma PlusReadAlike(x: Totals, y: Totals, same: bool, x': Totals, y': Totals, same': bool)
    requires ReadAlike(x, y, same) && ReadAlike(x', y', same')
    ensures ReadAlike(Plus(x, x'), Plus(y, y'), same && same')
  {
  }

  /**
   Under every key with a positive token, the square-off nets a table as its plan does if and only if
   every row of that key has a clean side.
   */
  lemma NettingsAgree(a: Account, rows: seq<Row>, symbol: string, legType: string, token: int)
    requires token > 0
    ensures var k := Key(symbol, legType, token);
      Net(SquareOffIntents, a, rows, k) == Net(SquareOffPlan, a, rows, k) <==> CleanUnder(a, rows, k)
  {
    hide Key, Net, CleanUnder;
    NetReaders(a, rows, symbol, legType, token);
  }

  /** A lower-case side with a stray blank is a sale for the square-off and a purchase for its plan. */
  lemma UntrimmedSideDisagrees()
    ensures
      var r := Row("i", "i", "T", "sell ", 65, 0.0, "FILLED", 65, 0, 100.0, "BUILD", "NIFTY", "CE", 7);
      var a, k := Account("T", "NIFTY"), Key("NIFTY", "CE", 7);
      Net(SquareOffIntents, a, [r], k).net == -65 && Net(SquareOffPlan, a, [r], k).net == 65
  {
    hide Key;
    var r := Row("i", "i", "T", "sell ", 65, 0.0, "FILLED", 65, 0, 100.0, "BUILD", "NIFTY", "CE", 7);
    var a, k := Account("T", "NIFTY"), Key("NIFTY", "CE", 7);
    assert TrimSpace("sell ") == "sell" by { assert "sell "[..4] == "sell"; }
    assert ToUpper("sell") == "SELL";
    assert |ToUpper("sell ")| == 5;
    assert [r][..0] == [];
    assert Net(SquareOffIntents, a, [r], k) == Plus(ZERO, RowTotals(SquareOffIntents, a, r, k));
    assert Net(SquareOffPlan, a, [r], k) == Plus(ZERO, RowTotals(SquareOffPlan, a, r, k));
  }

  // ---------------------------------------------------------------------------------------
  // The accumulating loops
  // ---------------------------------------------------------------------------------------

  datatype Position = Position(symbol: string, legType: string, token: int, totals: Totals)

  ghost predicate TotalsMatch(v: Reader, a: Account, rows: seq<Row>, p: map<string, Position>)
  {
    forall k :: k in p ==> p[k].totals == Net(v, a, rows, k) && Key(p[k].symbol, p[k].legType, p[k].token) == k
  }

  ghost predicate Opened(v: Reader, a: Account, rows: seq<Row>, p: Position)
  {
    exists i :: 0 <= i < |rows| && Opens(v, a, rows[i], p)
  }

  /** A table of positions that accounts for these rows under every key. */
  ghost predicate Accounts(v: Reader, a: Account, rows: seq<Row>, p: map<string, Position>)
  {
    && TotalsMatch(v, a, rows, p)
    && (forall k :: k in p ==> Opened(v, a, rows, p[k]))
    && forall i :: 0 <= i < |rows| && Included(v, a, rows[i]) ==> KeyOf(a, rows[i]) in p
  }

  /** The row whose fields the position carries. */
  predicate Opens(v: Reader, a: Account, r: Row, p: Position)
  {
    Included(v, a, r) && p.symbol == SymbolOf(a, r) && p.legType == r.legType && p.token == r.token
  }

  lemma {:induction false} NoContribution(v: Reader, a: Account, rows: seq<Row>, key: string)
    requires forall i :: 0 <= i < |rows| ==> !Contributes(v, a, rows[i], key)
    ensures Net(v, a, rows, key) == ZERO
  {
    if rows != [] {
      NoContribution(v, a, rows[..|rows| - 1], key);
      assert !Contributes(v, a, rows[|rows| - 1], key);
    }
  }

  /** The position table after one more included row. */
  function Post(v: Reader, a: Account, p: map<string, Position>, r: Row): map<string, Position>
    requires Included(v, a, r)
  {
    var key := KeyOf(a, r);
    var pos := if key in p then p[key] else Position(SymbolOf(a, r), r.legType, r.token, ZERO);
    p[key := pos.(totals := Plus(pos.totals, RowTotals(v, a, r, key)))]
  }

  lemma PostAccounts(v: Reader, a: Account, rows: seq<Row>, p: map<string, Position>, r: Row)
    requires Accounts(v, a, rows, p) && Included(v, a, r)
    ensures Accounts(v, a, rows + [r], Post(v, a, p, r))
  {
    hide Net, TotalsMatch, Opened, RowTotals, KeyOf;
    var q := Post(v, a, p, r);
    PostTotals(v, a, rows, p, r);
    forall k | k in q ensures Opened(v, a, rows + [r], q[k]) {
      PostOpened(v, a, rows, p, r, k);
    }
  }

  lemma PostTotals(v: Reader, a: Account, rows: seq<Row>, p: map<string, Position>, r: Row)
    requires Accounts(v, a, rows, p) && Included(v, a, r)
    ensures TotalsMatch(v, a, rows + [r], Post(v, a, p, r))
  {
    hide Key, Net, Included, SymbolOf, Signed, Opened, Contributes;
    var key, q := KeyOf(a, r), Post(v, a, p, r);
    if key !in p {
      UnseenKey(v, a, rows, p, key);
    }
    forall k | k in q
      ensures q[k].totals == Net(v, a, rows + [r], k) && Key(q[k].symbol, q[k].legType, q[k].token) == k
    {
      NetSnoc(v, a, rows, r, k);
      OtherKey(v, a, r, k);
    }
  }

  lemma OtherKey(v: Reader, a: Account, r: Row, k: string)
    ensures KeyOf(a, r) != k ==> RowTotals(v, a, r, k) == ZERO
  {
    hide KeyOf;
  }

  lemma OpenedSnoc(v: Reader, a: Account, rows: seq<Row>, r: Row, p: Position)
    requires Opened(v, a, rows, p) || Opens(v, a, r, p)
    ensures Opened(v, a, rows + [r], p)
  {
    hide Opens;
    var rs := rows + [r];
    if Opened(v, a, rows, p) {
      var i :| 0 <= i < |rows| && Opens(v, a, rows[i], p);
      assert rs[i] == rows[i];
    } else {
      assert rs[|rows|] == r;
    }
  }

  lemma PostOpened(v: Reader, a: Account, rows: seq<Row>, p: map<string, Position>, r: Row, k: string)
    requires Accounts(v, a, rows, p) && Included(v, a, r) && k in Post(v, a, p, r)
    ensures Opened(v, a, rows + [r], Post(v, a, p, r)[k])
  {
    hide Net, TotalsMatch, RowTotals, KeyOf, Included;
    var q := Post(v, a, p, r)[k];
    if k in p {
      assert Opened(v, a, rows, p[k]);
      SameOpening(v, a, rows, p[k], q);
    }
    OpenedSnoc(v, a, rows, r, q);
  }

  lemma SameOpening(v: Reader, a: Account, rows: seq<Row>, p: Position, q: Position)
    requires Opened(v, a, rows, p) && q == p.(totals := q.totals)
    ensures Opened(v, a, rows, q)
  {
    var i :| 0 <= i < |rows| && Opens(v, a, rows[i], p);
    assert Opens(v, a, rows[i], q);
  }

  lemma UnseenKey(v: Reader, a: Account, rows: seq<Row>, p: map<string, Position>, key: string)
    requires Accounts(v, a, rows, p) && key !in p
    ensures Net(v, a, rows, key) == ZERO
  {
    hide Net, KeyOf, Included;
    NoContribution(v, a, rows, key);
  }

  lemma SkipAccounts(v: Reader, a: Account, rows: seq<Row>, p: map<string, Position>, r: Row)
    requires Accounts(v, a, rows, p) && !Included(v, a, r)
    ensures Accounts(v, a, rows + [r], p)
  {
    hide Key, Net, Included, Opens, Opened;
    forall k | k in p ensures p[k].totals == Net(v, a, rows + [r], k) {
      NetSnoc(v, a, rows, r, k);
    }
    forall k | k in p ensures Opened(v, a, rows + [r], p[k]) {
      OpenedSnoc(v, a, rows, r, p[k]);
    }
  }

  /** The position table of a list of rows. */
  function Positions(v: Reader, a: Account, rows: seq<Row>): map<string, Position>
  {
    if rows == [] then map[] else
    var p, r := Positions(v, a, rows[..|rows| - 1]), rows[|rows| - 1];
    if Included(v, a, r) then Post(v, a, p, r) else p
  }

  lemma {:induction false} PositionsAccount(v: Reader, a: Account, rows: seq<Row>)
    ensures Accounts(v, a, rows, Positions(v, a, rows))
  {
    hide Accounts, Post, Included;
    if rows == [] {
      NothingToAccount(v, a);
    } else {
      var front, r := rows[..|rows| - 1], rows[|rows| - 1];
      PositionsAccount(v, a, front);
      assert rows == front + [r];
      if Included(v, a, r) {
        PostAccounts(v, a, front, Positions(v, a, front), r);
      } else {
        SkipAccounts(v, a, front, Positions(v, a, front), r);
      }
    }
  }

  /** The row loop of the square-off and of its plan (the latter keeps rows without a token). */
  method Accumulate(v: Reader, a: Account, rows: seq<Row>) returns (p: map<string, Position>)
    ensures p == Positions(v, a, rows) && Accounts(v, a, rows, p)
  {
    hide Accounts, Post, Included;
    p := map[];
    assert rows[..0] == [];
    for i := 0 to |rows|
      invariant p == Positions(v, a, rows[..i])
    {
      assert rows[..i + 1][..i] == rows[..i];
      if Included(v, a, rows[i]) {
        p := Post(v, a, p, rows[i]);
      }
    }
    assert rows[..|rows|] == rows;
    PositionsAccount(v, a, rows);
  }

  lemma NothingToAccount(v: Reader, a: Account)
    ensures Accounts(v, a, [], map[])
  {
  }
}
