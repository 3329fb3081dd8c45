/**
 A second square-off of a trade that a first one left open.  The code refuses it only while the trade
 is PENDING_FILL, and nets only what has been reported filled.
 */
module SecondSquareOff {
  import opened Netting
  import opened OrderTable
  import opened ShortIds
  import opened SquareOff
  import opened Text

  /** A square-off of these rows that created these orders and received these answers. */
  ghost predicate Called(a: Account, rows: seq<Row>, p: map<string, Position>, keys: seq<string>, ts: seq<Intent>,
                         stamp: string, replies: seq<Reply>)
  {
    && Accounts(SquareOffIntents, a, rows, p) && OwnSymbol(a, rows) && Closing(a, p, keys, ts, stamp)
    && |replies| <= |ts|
  }

  /** What is left of position `i` once the answers have been recorded. */
  function Left(p: map<string, Position>, keys: seq<string>, replies: seq<Reply>, i: nat): int
  {
    if i >= |keys| || keys[i] !in p then 0 else
    p[keys[i]].totals.net + Offset(p[keys[i]].totals.net, FilledBy(replies, i))
  }

  lemma ClosingKeys(a: Account, p: map<string, Position>, keys: seq<string>, ts: seq<Intent>, stamp: string, i: nat)
    requires Closing(a, p, keys, ts, stamp) && i < |ts|
    ensures |keys| == |ts| && keys[i] in p && p[keys[i]].totals.net != 0 && keys[i] in keys
    ensures ts[i].side == CloseSide(p[keys[i]].totals.net) && ts[i].quantity == AbsInt(p[keys[i]].totals.net)
  {
    hide ShortUid, ExpectedPrice, LegCode;
    assert keys[i] in keys;
  }

  // ---------------------------------------------------------------------------------------
  // What the second call orders
  // ---------------------------------------------------------------------------------------

  /** A second call orders exactly what is left of the positions of the first. */
  lemma SecondCallOrders(a: Account, rows: seq<Row>, p: map<string, Position>, keys: seq<string>, ts: seq<Intent>,
                         stamp: string, replies: seq<Reply>, p2: map<string, Position>, keys2: seq<string>,
                         ts2: seq<Intent>, stamp2: string, i: nat)
    requires Called(a, rows, p, keys, ts, stamp, replies) && i < |ts|
    requires Accounts(SquareOffIntents, a, rows + ClosingRows(ts, replies), p2) && Closing(a, p2, keys2, ts2, stamp2)
    ensures |keys| == |ts| && |keys2| == |ts2| && (keys[i] in keys2 <==> Left(p, keys, replies, i) != 0)
    ensures forall j :: 0 <= j < |ts2| && keys2[j] == keys[i] ==>
      ts2[j].side == CloseSide(Left(p, keys, replies, i)) && ts2[j].quantity == AbsInt(Left(p, keys, replies, i))
  {
    hide Net, OwnSymbol, Opened, KeyOf, Included, Key, ShortUid, ExpectedPrice, LegCode, FilledBy, Offset, ClosingRows;
    var rows1 := rows + ClosingRows(ts, replies);
    ClosingKeys(a, p, keys, ts, stamp, i);
    NetAfter(a, rows, p, keys, ts, stamp, replies, keys[i]);
    if keys[i] !in p2 {
      UnseenKey(SquareOffIntents, a, rows1, p2, keys[i]);
    }
    forall j | 0 <= j < |ts2| && keys2[j] == keys[i]
      ensures ts2[j].side == CloseSide(Left(p, keys, replies, i)) &&
        ts2[j].quantity == AbsInt(Left(p, keys, replies, i))
    {
      ClosingKeys(a, p2, keys2, ts2, stamp2, j);
    }
  }

  /** The second call repeats order `i` of the first: same position, same side, same quantity. */
  ghost predicate Repeats(keys: seq<string>, ts: seq<Intent>, keys2: seq<string>, ts2: seq<Intent>, i: nat)
  {
    && i < |keys| && i < |ts|
    && exists j :: 0 <= j < |keys2| && j < |ts2| && keys2[j] == keys[i]
         && ts2[j].side == ts[i].side && ts2[j].quantity == ts[i].quantity
  }

  lemma SameOrder(net: int, left: int)
    requires net != 0
    ensures CloseSide(left) == CloseSide(net) && AbsInt(left) == AbsInt(net) <==> left == net
  {
    assert "BUY" != "SELL" by { assert |"BUY"| != |"SELL"|; }
  }

  /** An order of the first call is repeated in full if and only if no fill has been reported for it. */
  lemma RepeatedExactly(a: Account, rows: seq<Row>, p: map<string, Position>, keys: seq<string>, ts: seq<Intent>,
                        stamp: string, replies: seq<Reply>, p2: map<string, Position>, keys2: seq<string>,
                        ts2: seq<Intent>, stamp2: string, i: nat)
    requires Called(a, rows, p, keys, ts, stamp, replies) && i < |ts|
    requires Accounts(SquareOffIntents, a, rows + ClosingRows(ts, replies), p2) && Closing(a, p2, keys2, ts2, stamp2)
    ensures Repeats(keys, ts, keys2, ts2, i) <==> FilledBy(replies, i) <= 0
  {
    hide Called, Accounts, FilledBy, CloseSide, AbsInt, Closing, Left, ClosingRows;
    FirstOrder(a, rows, p, keys, ts, stamp, replies, i);
    SecondCallOrders(a, rows, p, keys, ts, stamp, replies, p2, keys2, ts2, stamp2, i);
    var left := Left(p, keys, replies, i);
    SameOrder(p[keys[i]].totals.net, left);
    if FilledBy(replies, i) <= 0 {
      var j :| 0 <= j < |keys2| && keys2[j] == keys[i];
    }
  }

  lemma FirstOrder(a: Account, rows: seq<Row>, p: map<string, Position>, keys: seq<string>, ts: seq<Intent>,
                   stamp: string, replies: seq<Reply>, i: nat)
    requires Called(a, rows, p, keys, ts, stamp, replies) && i < |ts|
    ensures |keys| == |ts| && keys[i] in p && p[keys[i]].totals.net != 0
    ensures ts[i].side == CloseSide(p[keys[i]].totals.net) && ts[i].quantity == AbsInt(p[keys[i]].totals.net)
    ensures Left(p, keys, replies, i) == p[keys[i]].totals.net <==> FilledBy(replies, i) <= 0
  {
    hide Accounts, FilledBy, CloseSide, AbsInt;
    ClosingKeys(a, p, keys, ts, stamp, i);
  }

  // ---------------------------------------------------------------------------------------
  // Reports that come late
  // ---------------------------------------------------------------------------------------

  ghost predicate AllAnswered(replies: seq<Reply>)
  {
    forall i :: 0 <= i < |replies| ==> replies[i].Answer?
  }

  /** Marking orders with distinct identifiers changes exactly their rows, each by its own report. */
  lemma {:induction false} MarkedRow(base: seq<Row>, ts: seq<Intent>, late: seq<Reply>, x: nat)
    requires DistinctIntents(ts) && |late| <= |ts| && AllAnswered(late) && x < |base|
    ensures var after := MarkAll(base, ts, late);
      && |after| == |base| && after[x].intentId == base[x].intentId
      && ((forall i :: 0 <= i < |late| ==> ts[i].intentId != base[x].intentId) ==> after[x] == base[x])
      && forall i :: 0 <= i < |late| && ts[i].intentId == base[x].intentId ==> after[x] == Executed(base[x], late[i])
  {
    if late != [] {
      var n := |late| - 1;
      var front := late[..n];
      assert forall i :: 0 <= i < n ==> front[i] == late[i];
      MarkedRow(base, ts, front, x);
      hide MarkAll;
      assert MarkAll(base, ts, late) == Mark(MarkAll(base, ts, front), ts[n].intentId, late[n]) by {
        MarkAllSnoc(base, ts, late);
      }
    }
  }

  lemma MarkAllSnoc(base: seq<Row>, ts: seq<Intent>, late: seq<Reply>)
    requires 0 < |late| <= |ts| && late[|late| - 1].Answer?
    ensures var n := |late| - 1; MarkAll(base, ts, late) == Mark(MarkAll(base, ts, late[..n]), ts[n].intentId, late[n])
  {
  }

  lemma ClosingRowId(ts: seq<Intent>, replies: seq<Reply>, i: nat)
    requires |replies| <= |ts| && i < |ts|
    ensures ClosingRows(ts, replies)[i].intentId == ts[i].intentId
    ensures forall r: Reply :: r.Answer? ==> Executed(ClosingRows(ts, replies)[i], r) == Executed(NewRow(ts[i]), r)
  {
  }

  /** Later reports on closing orders overwrite what was recorded for them, and nothing else. */
  lemma LateReports(rows: seq<Row>, ts: seq<Intent>, replies: seq<Reply>, others: seq<Row>, late: seq<Reply>)
    requires FreshIds(rows, ts) && |replies| <= |ts| && |late| == |ts| && AllAnswered(late) && NovelIds(others, ts)
    ensures MarkAll(rows + ClosingRows(ts, replies) + others, ts, late) == rows + ClosingRows(ts, late) + others
  {
    hide MarkAll, NewRow, ClosingRows;
    var base := rows + ClosingRows(ts, replies) + others;
    var after, expected := MarkAll(base, ts, late), rows + ClosingRows(ts, late) + others;
    MarkAllLength(base, ts, late);
    forall x | 0 <= x < |base| ensures after[x] == expected[x] {
      MarkedRow(base, ts, late, x);
      if |rows| <= x < |rows| + |ts| {
        var i := x - |rows|;
        assert base[x] == ClosingRows(ts, replies)[i] && expected[x] == ClosingRows(ts, late)[i];
        ClosingRowId(ts, replies, i);
        AnsweredRow(ts, late, i);
      } else if x >= |rows| + |ts| {
        assert base[x] == others[x - |rows| - |ts|] && expected[x] == others[x - |rows| - |ts|];
      }
    }
  }

  lemma AnsweredRow(ts: seq<Intent>, late: seq<Reply>, i: nat)
    requires |late| == |ts| && i < |ts| && AllAnswered(late)
    ensures ClosingRows(ts, late)[i] == Executed(NewRow(ts[i]), late[i])
  {
  }

  lemma MarkAllLength(base: seq<Row>, ts: seq<Intent>, late: seq<Reply>)
    requires |late| <= |ts|
    ensures |MarkAll(base, ts, late)| == |base|
  {
  }

  // ---------------------------------------------------------------------------------------
  // Two calls and one position
  // ---------------------------------------------------------------------------------------

  lemma ClosingIsOwn(a: Account, rows: seq<Row>, p: map<string, Position>, keys: seq<string>, ts: seq<Intent>,
                     stamp: string, replies: seq<Reply>)
    requires OwnSymbol(a, rows) && Closing(a, p, keys, ts, stamp) && |replies| <= |ts|
    ensures OwnSymbol(a, rows + ClosingRows(ts, replies))
  {
    hide OpenKeys, ShortUid, LegCode, ExpectedPrice, Included;
    var after := rows + ClosingRows(ts, replies);
    forall x | |rows| <= x < |after| ensures SymbolOf(a, after[x]) == a.symbol {
      assert after[x] == ClosingRows(ts, replies)[x - |rows|];
    }
  }

  /** A call whose orders are all filled exactly flattens every position, as far as the table knows. */
  lemma ExactCallFlattens(a: Account, rows: seq<Row>, p: map<string, Position>, keys: seq<string>, ts: seq<Intent>,
                          stamp: string, replies: seq<Reply>, k: string)
    requires Called(a, rows, p, keys, ts, stamp, replies)
    requires |replies| == |ts| && AllFilled(replies) && ExactFills(ts, replies)
    ensures Net(SquareOffIntents, a, rows + ClosingRows(ts, replies), k).net == 0
  {
    hide Net, Accounts, OwnSymbol, ClosingRows, CloseIntent, OpenKeys;
    NetAfter(a, rows, p, keys, ts, stamp, replies, k);
    if k in keys {
      var i :| 0 <= i < |keys| && keys[i] == k;
      ClosingKeys(a, p, keys, ts, stamp, i);
      assert FilledReply(replies[i]);
      OffsetCloses(p[k].totals.net, replies[i].filledQty);
    }
  }

  /** What the last report on closing order `i` counts for. */
  function Counted(replies: seq<Reply>, i: nat): nat
  {
    if FilledBy(replies, i) > 0 then FilledBy(replies, i) else 0
  }

  lemma OffsetCounts(net: int, f: int, g: int)
    requires net != 0
    ensures Offset(net, f) == Offset(net, g) <==> (if f > 0 then f else 0) == (if g > 0 then g else 0)
  {
  }

  /** How far late reports on the first orders move a position that the second call had flattened. */
  lemma MovedBy(a: Account, rows: seq<Row>, p: map<string, Position>, keys: seq<string>, ts: seq<Intent>,
                stamp: string, replies: seq<Reply>, late: seq<Reply>, closing: seq<Row>, k: string)
    requires Called(a, rows, p, keys, ts, stamp, replies) && |late| == |ts|
    requires Net(SquareOffIntents, a, rows + ClosingRows(ts, replies) + closing, k).net == 0
    ensures k !in keys ==> Net(SquareOffIntents, a, rows + ClosingRows(ts, late) + closing, k).net == 0
    ensures |keys| == |ts| && forall i :: 0 <= i < |keys| && keys[i] == k ==>
      (Net(SquareOffIntents, a, rows + ClosingRows(ts, late) + closing, k).net == 0 <==>
        Counted(late, i) == Counted(replies, i))
  {
    hide Net, Accounts, OwnSymbol, ClosingRows, CloseIntent, FilledBy, Offset;
    NetAfter(a, rows, p, keys, ts, stamp, replies, k);
    NetAfter(a, rows, p, keys, ts, stamp, late, k);
    NetConcat(SquareOffIntents, a, rows + ClosingRows(ts, replies), closing, k);
    NetConcat(SquareOffIntents, a, rows + ClosingRows(ts, late), closing, k);
    forall i | 0 <= i < |keys| && keys[i] == k
      ensures Net(SquareOffIntents, a, rows + ClosingRows(ts, late) + closing, k).net == 0 <==>
        Counted(late, i) == Counted(replies, i)
    {
      ClosingKeys(a, p, keys, ts, stamp, i);
      OffsetCounts(p[k].totals.net, FilledBy(late, i), FilledBy(replies, i));
    }
  }

  /**
   Two calls with new identifiers, the orders of the second all filled exactly: once the last reports
   on the orders of the first are in, every position is closed exactly once if and only if each of
   those reports counts for what the first call had recorded.
   */
  lemma TwoCallsCloseOnce(a: Account, rows: seq<Row>, p: map<string, Position>, keys: seq<string>, ts: seq<Intent>,
                          stamp: string, replies: seq<Reply>, p2: map<string, Position>, keys2: seq<string>,
                          ts2: seq<Intent>, stamp2: string, replies2: seq<Reply>, late: seq<Reply>)
    requires Called(a, rows, p, keys, ts, stamp, replies) && FreshIds(rows, ts)
    requires var rows1 := MarkAll(InsertAll(rows, ts), ts, replies);
      Accounts(SquareOffIntents, a, rows1, p2) && Closing(a, p2, keys2, ts2, stamp2) && FreshIds(rows1, ts2)
    requires |replies2| == |ts2| && AllFilled(replies2) && ExactFills(ts2, replies2)
    requires |late| == |ts| && AllAnswered(late)
    ensures
      var rows1 := MarkAll(InsertAll(rows, ts), ts, replies);
      var rows2 := MarkAll(InsertAll(rows1, ts2), ts2, replies2);
      Flat(a, MarkAll(rows2, ts, late)) <==> forall i :: 0 <= i < |ts| ==> Counted(late, i) == Counted(replies, i)
  {
    hide InsertAll, MarkAll, Net, Accounts, OwnSymbol, CloseIntent, OpenKeys, AllFilled, ExactFills, FilledBy;
    hide ClosingRows;
    var closing := ClosingRows(ts2, replies2);
    TwoCallTable(rows, ts, replies, ts2, replies2, late);
    var rows1 := rows + ClosingRows(ts, replies);
    SquareOffRows(rows, ts, replies);
    ClosingIsOwn(a, rows, p, keys, ts, stamp, replies);
    forall k
      ensures k !in keys ==> Net(SquareOffIntents, a, rows + ClosingRows(ts, late) + closing, k).net == 0
      ensures |keys| == |ts| && forall i :: 0 <= i < |keys| && keys[i] == k ==>
        (Net(SquareOffIntents, a, rows + ClosingRows(ts, late) + closing, k).net == 0 <==>
          Counted(late, i) == Counted(replies, i))
    {
      ExactCallFlattens(a, rows1, p2, keys2, ts2, stamp2, replies2, k);
      MovedBy(a, rows, p, keys, ts, stamp, replies, late, closing, k);
    }
    FlatWhenUnmoved(a, rows + ClosingRows(ts, late) + closing, keys, late, replies);
  }

  lemma FlatWhenUnmoved(a: Account, table: seq<Row>, keys: seq<string>, late: seq<Reply>, replies: seq<Reply>)
    requires forall k :: k !in keys ==> Net(SquareOffIntents, a, table, k).net == 0
    requires forall i :: 0 <= i < |keys| ==>
      (Net(SquareOffIntents, a, table, keys[i]).net == 0 <==> Counted(late, i) == Counted(replies, i))
    ensures Flat(a, table) <==> forall i :: 0 <= i < |keys| ==> Counted(late, i) == Counted(replies, i)
  {
    hide Net, Counted;
    if forall i :: 0 <= i < |keys| ==> Counted(late, i) == Counted(replies, i) {
      forall k ensures Net(SquareOffIntents, a, table, k).net == 0 {
        if k in keys {
          var i :| 0 <= i < |keys| && keys[i] == k;
        }
      }
    }
  }

  lemma TwoCallTable(rows: seq<Row>, ts: seq<Intent>, replies: seq<Reply>, ts2: seq<Intent>, replies2: seq<Reply>,
                     late: seq<Reply>)
    requires FreshIds(rows, ts) && |replies| <= |ts| && |replies2| <= |ts2| && |late| == |ts| && AllAnswered(late)
    requires FreshIds(MarkAll(InsertAll(rows, ts), ts, replies), ts2)
    ensures
      var rows1 := MarkAll(InsertAll(rows, ts), ts, replies);
      MarkAll(MarkAll(InsertAll(rows1, ts2), ts2, replies2), ts, late)
        == rows + ClosingRows(ts, late) + ClosingRows(ts2, replies2)
  {
    hide MarkAll, InsertAll, ClosingRows;
    SquareOffRows(rows, ts, replies);
    var rows1 := rows + ClosingRows(ts, replies);
    SquareOffRows(rows1, ts2, replies2);
    forall j, i | 0 <= j < |ts2| && 0 <= i < |ts| ensures ClosingRows(ts2, replies2)[j].intentId != ts[i].intentId {
      ClosingRowId(ts2, replies2, j);
      ClosingRowId(ts, replies, i);
      assert rows1[|rows| + i] == ClosingRows(ts, replies)[i];
    }
    LateReports(rows, ts, replies, ClosingRows(ts2, replies2), late);
  }

  // ---------------------------------------------------------------------------------------
  // Two calls in the same second
  // ---------------------------------------------------------------------------------------

  /** Orders of two calls with one time stamp share an identifier exactly when their legs and surviving digits agree. */
  lemma SameSecondIds(a: Account, p: map<string, Position>, keys: seq<string>, ts: seq<Intent>, stamp: string,
                      p2: map<string, Position>, keys2: seq<string>, ts2: seq<Intent>, i: nat, j: nat)
    requires Closing(a, p, keys, ts, stamp) && Closing(a, p2, keys2, ts2, stamp) && |stamp| == 12
    requires i < |ts| && j < |ts2|
    ensures ts[i].intentId == ts2[j].intentId <==>
      && LegCode(ts[i].legType) == LegCode(ts2[j].legType)
      && (i == j || (i > 0 && j > 0 && Kept(a.symbol, i) == Kept(a.symbol, j)))
  {
    ClosingId(a, p, keys, ts, stamp, i);
    ClosingId(a, p2, keys2, ts2, stamp, j);
    hide Closing, ShortUid, Kept, LegCode;
    var leg, leg2 := LegCode(ts[i].legType), LegCode(ts2[j].legType);
    LegCodeIsUpper(ts[i].legType);
    LegCodeIsUpper(ts2[j].legType);
    if i < j {
      ShortUidsEqual(a.symbol, leg, leg2, stamp, i, j);
    } else if j < i {
      ShortUidsEqual(a.symbol, leg2, leg, stamp, j, i);
    } else {
      SameSuffix(a.symbol, leg, leg2, stamp, i);
    }
  }

  lemma SameSuffix(symbol: string, leg1: string, leg2: string, stamp: string, n: nat)
    requires |stamp| == 12 && |leg1| == 3 && |leg2| == 3
    ensures ShortUid(symbol, leg1, stamp, n) == ShortUid(symbol, leg2, stamp, n) <==> ToUpper(leg1) == ToUpper(leg2)
  {
    ShortUidForm(symbol, leg1, stamp, n);
    ShortUidForm(symbol, leg2, stamp, n);
    hide SymbolCode, ShortUid, Kept;
    var front := SymbolCode(symbol) + stamp;
    var tail := if n > 0 then "_" + Kept(symbol, n) else "";
    SplitBase(front + ToUpper(leg1), front + ToUpper(leg2), tail, tail);
    assert (front + ToUpper(leg1))[|front|..] == ToUpper(leg1) && (front + ToUpper(leg2))[|front|..] == ToUpper(leg2);
  }

  lemma {:induction false} InsertKnown(rows: seq<Row>, ts: seq<Intent>)
    requires forall i :: 0 <= i < |ts| ==> HasId(rows, ts[i].intentId)
    ensures InsertAll(rows, ts) == rows
  {
    if ts != [] {
      InsertKnown(rows, ts[..|ts| - 1]);
    }
  }

  /**
   A second call in the same second that creates the same orders submits each of them again but adds
   no row: the table is as if only the second call had been made, so it can show a flat trade while
   every order has been sent twice.
   */
  lemma SameSecondHidesOrders(rows: seq<Row>, ts: seq<Intent>, replies: seq<Reply>, replies2: seq<Reply>)
    requires FreshIds(rows, ts) && |replies| <= |ts| && |replies2| == |ts| && AllAnswered(replies2)
    ensures
      var rows1 := MarkAll(InsertAll(rows, ts), ts, replies);
      MarkAll(InsertAll(rows1, ts), ts, replies2) == MarkAll(InsertAll(rows, ts), ts, replies2)
  {
    hide MarkAll, InsertAll, ClosingRows;
    SquareOffRows(rows, ts, replies);
    SquareOffRows(rows, ts, replies2);
    var rows1 := rows + ClosingRows(ts, replies);
    forall i | 0 <= i < |ts| ensures HasId(rows1, ts[i].intentId) {
      ClosingRowId(ts, replies, i);
      assert rows1[|rows| + i] == ClosingRows(ts, replies)[i];
    }
    InsertKnown(rows1, ts);
    LateReports(rows, ts, replies, [], replies2);
    assert rows1 + [] == rows1 && rows + ClosingRows(ts, replies2) + [] == rows + ClosingRows(ts, replies2);
  }
}
