/** A trade with eleven open positions of one kind: its square-off closes the trade and leaves one of them open. */
module ElevenLegs {
  import opened Netting
  import opened OrderTable
  import opened ShortIds
  import opened SquareOff
  import opened Text

  const TRADE := Account("T", "NIFTY")
  const LEGS := 11

  /** One lot of 65 bought under token `i + 1`. */
  function LegRow(i: nat): Row
  {
    var id := OrderUid("BUI_T", i);
    Row(id, id, "T", "BUY", 65, 100.0, "FILLED", 65, 0, 100.0, "BUILD", "NIFTY", "CE", i + 1)
  }

  function LegKey(i: nat): string
  {
    Key("NIFTY", "CE", i + 1)
  }

  function Rows(): (rows: seq<Row>)
    ensures |rows| == LEGS && forall i :: 0 <= i < LEGS ==> rows[i] == LegRow(i)
  {
    seq(LEGS, i requires 0 <= i < LEGS => LegRow(i))
  }

  function Keys(): (keys: seq<string>)
    ensures |keys| == LEGS && forall i :: 0 <= i < LEGS ==> keys[i] == LegKey(i)
  {
    seq(LEGS, i requires 0 <= i < LEGS => LegKey(i))
  }

  ghost function Held(): map<string, Position>
  {
    Positions(SquareOffIntents, TRADE, Rows())
  }

  lemma KeysDiffer(i: nat, j: nat)
    requires LegKey(i) == LegKey(j)
    ensures i == j
  {
    hide Key;
    KeyToken("NIFTY", "CE", i + 1, "NIFTY", "CE", j + 1);
  }

  lemma LegRowReads(i: nat, j: nat)
    ensures KeyOf(TRADE, LegRow(i)) == LegKey(i) && Included(SquareOffIntents, TRADE, LegRow(i))
    ensures SymbolOf(TRADE, LegRow(i)) == "NIFTY"
    ensures RowTotals(SquareOffIntents, TRADE, LegRow(i), LegKey(j)).net == if i == j then 65 else 0
  {
    hide Key, OrderUid;
    assert "BUY" != "SELL" by { assert |"BUY"| != |"SELL"|; }
    CanonicalSide(SquareOffIntents, "BUY");
    if LegKey(i) == LegKey(j) {
      KeysDiffer(i, j);
    }
  }

  lemma {:induction false} NetUpTo(n: nat, j: nat)
    requires n <= LEGS
    ensures Net(SquareOffIntents, TRADE, Rows()[..n], LegKey(j)).net == if j < n then 65 else 0
  {
    if n == 0 {
      assert Rows()[..0] == [];
    } else {
      NetUpTo(n - 1, j);
      hide Net, LegRow, LegKey, RowTotals;
      assert Rows()[..n] == Rows()[..n - 1] + [LegRow(n - 1)];
      NetSnoc(SquareOffIntents, TRADE, Rows()[..n - 1], LegRow(n - 1), LegKey(j));
      LegRowReads(n - 1, j);
    }
  }

  lemma HeldAt(i: nat)
    requires i < LEGS
    ensures LegKey(i) in Held() && Held()[LegKey(i)].totals.net == 65 && Held()[LegKey(i)].legType == "CE"
  {
    hide Net, Positions, LegRow, LegKey, KeyOf, Included, RowTotals, Key, Opened;
    var rows := Rows();
    PositionsAccount(SquareOffIntents, TRADE, rows);
    NetUpTo(LEGS, i);
    assert rows[..LEGS] == rows;
    LegRowReads(i, i);
    assert KeyOf(TRADE, rows[i]) in Held();
    HeldIsCall(LegKey(i));
  }

  lemma HeldIsCall(k: string)
    requires k in Held()
    ensures Held()[k].legType == "CE" && exists i :: 0 <= i < LEGS && LegKey(i) == k
  {
    var rows := Rows();
    PositionsAccount(SquareOffIntents, TRADE, rows);
    hide Net, Positions, Key;
    assert Opened(SquareOffIntents, TRADE, rows, Held()[k]);
    var i :| 0 <= i < |rows| && Opens(SquareOffIntents, TRADE, rows[i], Held()[k]);
    LegRowReads(i, i);
    assert LegKey(i) == k;
  }

  lemma AllOpen()
    ensures OpenKeys(Held(), Keys())
  {
    hide LegKey, Held;
    forall i, j | 0 <= i < j < LEGS ensures Keys()[i] != Keys()[j] {
      if LegKey(i) == LegKey(j) {
        KeysDiffer(i, j);
      }
    }
    forall k | k in Keys() ensures k in Held() && Held()[k].totals.net != 0 {
      var i :| 0 <= i < LEGS && Keys()[i] == k;
      HeldAt(i);
    }
    forall k | k in Held() ensures k in Keys() {
      HeldIsCall(k);
      var i :| 0 <= i < LEGS && LegKey(i) == k;
      assert Keys()[i] == k;
    }
  }

  /** The closing orders of a square-off that visits the positions by token. */
  ghost function Orders(stamp: string): (ts: seq<Intent>)
    ensures |ts| == LEGS
    ensures forall i :: 0 <= i < LEGS ==>
      LegKey(i) in Held() && ts[i] == CloseIntent(TRADE, Held()[LegKey(i)], stamp, i)
  {
    assert forall i :: 0 <= i < LEGS ==> LegKey(i) in Held() by {
      hide LegKey, Held;
      forall i | 0 <= i < LEGS ensures LegKey(i) in Held() {
        HeldAt(i);
      }
    }
    seq(LEGS, i requires 0 <= i < LEGS => CloseIntent(TRADE, Held()[LegKey(i)], stamp, i))
  }

  lemma OrdersClose(stamp: string)
    ensures Closing(TRADE, Held(), Keys(), Orders(stamp), stamp)
  {
    hide LegKey, Held, CloseIntent, OpenKeys;
    AllOpen();
  }

  const FILL := Answer("FILLED", 65, 0, 100.0)

  function Fills(): (replies: seq<Reply>)
    ensures |replies| == LEGS && forall i :: 0 <= i < LEGS ==> replies[i] == FILL
  {
    seq(LEGS, i requires 0 <= i < LEGS => FILL)
  }

  lemma OrderIds(stamp: string, i: nat)
    requires i < LEGS
    ensures Orders(stamp)[i].legType == "CE" && Orders(stamp)[i].quantity == 65
    ensures Orders(stamp)[i].intentId == ShortUid("NIFTY", LegCode("CE"), stamp, i)
  {
    hide LegKey, Held, ShortUid, LegCode, ExpectedPrice;
    HeldAt(i);
  }

  lemma OnePrefixOfTen()
    ensures Kept("NIFTY", 1) == Kept("NIFTY", 10)
  {
    assert TrimSpace("NIFTY") == "NIFTY" && ToUpper("NIFTY") == "NIFTY";
    assert SymbolCode("NIFTY") == "NIF";
    assert Decimal(10) == Decimal(1) + [Digit(0)];
    assert Decimal(1) == "1" && Decimal(10)[..1] == "1";
  }

  lemma IdStartsWithN(stamp: string, n: nat)
    requires |stamp| == 12
    ensures var id := ShortUid("NIFTY", LegCode("CE"), stamp, n); |id| > 0 && id[0] == 'N'
  {
    assert TrimSpace("NIFTY") == "NIFTY" && ToUpper("NIFTY") == "NIFTY";
    assert SymbolCode("NIFTY") == "NIF";
    ShortUidForm("NIFTY", LegCode("CE"), stamp, n);
    hide SymbolCode, ShortUid, Kept, LegCode;
  }

  lemma LegRowId(i: nat)
    ensures |LegRow(i).intentId| > 0 && LegRow(i).intentId[0] == 'B'
  {
    hide Decimal;
    assert "BUI_T"[0] == 'B';
  }

  lemma OrdersAreNovel(stamp: string)
    requires |stamp| == 12
    ensures NovelIds(Rows(), Orders(stamp))
  {
    hide LegRow, LegKey, Held, CloseIntent, ShortUid;
    forall i, k | 0 <= i < LEGS && 0 <= k < LEGS ensures Rows()[i].intentId != Orders(stamp)[k].intentId {
      LegRowId(i);
      OrderIds(stamp, k);
      IdStartsWithN(stamp, k);
    }
  }

  lemma SharedId(stamp: string)
    requires |stamp| == 12
    ensures Orders(stamp)[1].intentId == Orders(stamp)[10].intentId && !FirstOfId(Orders(stamp), 10)
  {
    hide LegKey, Held, CloseIntent, ShortUid, Kept, LegCode;
    OrderIds(stamp, 1);
    OrderIds(stamp, 10);
    OnePrefixOfTen();
    ShortUidsEqual("NIFTY", LegCode("CE"), LegCode("CE"), stamp, 1, 10);
  }

  lemma RowsAreOwn()
    ensures OwnSymbol(TRADE, Rows())
  {
    hide LegRow, Included, SymbolOf;
    forall i | 0 <= i < LEGS ensures SymbolOf(TRADE, Rows()[i]) == "NIFTY" {
      LegRowReads(i, i);
    }
  }

  lemma FillsAreExact(stamp: string)
    ensures ExactFills(Orders(stamp), Fills()) && AllFilled(Fills())
  {
    hide LegKey, Held, CloseIntent;
    forall i | 0 <= i < LEGS ensures Orders(stamp)[i].quantity == 65 {
      OrderIds(stamp, i);
    }
  }

  /**
   The square-off of the eleven positions gives its orders 1 and 10 the same identifier.  When all
   eleven are reported filled in full the trade is closed, yet the position of order 10 is still open.
   */
  lemma EleventhPositionStaysOpen(stamp: string)
    requires |stamp| == 12
    ensures
      var rows, ts := Rows(), Orders(stamp);
      var after := MarkAll(InsertAll(rows, ts), ts, Fills());
      && SquaredOff(TRADE, rows, after, Held(), Keys(), stamp, Outcome(Wrappers.None, ts, Fills()))
      && StatusAfter(Outcome(Wrappers.None, ts, Fills())) == "CLOSED" && ExactFills(ts, Fills())
      && ts[1].intentId == ts[10].intentId
      && Net(SquareOffIntents, TRADE, after, LegKey(10)).net == 65 && !Flat(TRADE, after)
  {
    hide Rows, Net, InsertAll, MarkAll, Accounts, Closing, NovelIds, OwnSymbol, LegKey, FirstOfId, AllFilled;
    hide ExactFills;
    hide Held, CloseIntent;
    PositionsAccount(SquareOffIntents, TRADE, Rows());
    HeldIsNetted();
    OrdersClose(stamp);
    OrdersAreNovel(stamp);
    SharedId(stamp);
    HeldAt(10);
    RowsAreOwn();
    FillsAreExact(stamp);
    CollidedStaysOpen(TRADE, Rows(), Held(), Keys(), Orders(stamp), stamp, Fills(), 10);
  }

  lemma HeldIsNetted()
    ensures Held() == Positions(SquareOffIntents, TRADE, Rows())
  {
  }
}
