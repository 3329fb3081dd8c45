/**
 Square-off: closing intents from the netted fills of a trade, their execution, and the trade's
 status; and the read-only square-off plan computed from the same rows.
 */
module SquareOff {
  import opened Netting
  import opened OrderTable
  import opened Sequences
  import opened ShortIds
  import opened Text
  import opened Wrappers

  // ---------------------------------------------------------------------------------------
  // Closing orders
  // ---------------------------------------------------------------------------------------

  function CloseSide(net: int): string
  {
    if net < 0 then "BUY" else "SELL"
  }

  /** The price of a closing order: the average, or the smallest step if that is not positive. */
  function ExpectedPrice(t: Totals): (p: real)
    ensures AveragePrice(t) > 0.0 ==> p == AveragePrice(t)
    ensures AveragePrice(t) <= 0.0 ==> p == 0.05
  {
    if t.traded > 0 && AveragePrice(t) > 0.0 then AveragePrice(t) else 0.05
  }

  /** The closing order of a position, the `count`-th one created. */
  function CloseIntent(a: Account, p: Position, stamp: string, count: nat): Intent
  {
    var price := ExpectedPrice(p.totals);
    var leg := LegCode(p.legType);
    Intent(ShortUid(a.symbol, leg, stamp, count), ShortUid(a.symbol, leg, stamp, count + 100), a.tradeUid, p.token,
           a.symbol, CloseSide(p.totals.net), AbsInt(p.totals.net), p.legType, "SQF", price, price)
  }

  /** One leg of the square-off plan. */
  datatype PlanLeg = PlanLeg(symbol: string, legType: string, token: int, net: int, avgPrice: real, side: string,
                             quantity: int)

  function LegOf(p: Position): PlanLeg
  {
    PlanLeg(p.symbol, p.legType, p.token, p.totals.net, AveragePrice(p.totals), CloseSide(p.totals.net),
      AbsInt(p.totals.net))
  }

  /** `keys` lists, once each and in whatever order a map is ranged over, the positions that are not flat. */
  ghost predicate OpenKeys(p: map<string, Position>, keys: seq<string>)
  {
    NoDuplicates(keys) && forall k :: k in keys <==> k in p && p[k].totals.net != 0
  }

  ghost predicate Closing(a: Account, p: map<string, Position>, keys: seq<string>, created: seq<Intent>, stamp: string)
  {
    && OpenKeys(p, keys) && |created| == |keys|
    && forall i :: 0 <= i < |keys| ==> keys[i] in p && created[i] == CloseIntent(a, p[keys[i]], stamp, i)
  }

  lemma PriceIsAverage(t: Totals)
    ensures ExpectedPrice(t) == if t.traded > 0 && t.value > 0.0 then t.value / t.traded as real else 0.05
  {
    if t.traded > 0 {
      var price := t.value / t.traded as real;
      assert price * t.traded as real == t.value;
    }
  }

  lemma IntentSays(a: Account, p: Position, stamp: string, n: nat)
    requires p.totals.net != 0
    ensures
      var t := CloseIntent(a, p, stamp, n);
      && t.tradeUid == a.tradeUid && t.symbol == a.symbol && t.phase == "SQF"
      && t.token == p.token && t.legType == p.legType && t.limitPrice == t.expectedPrice == ExpectedPrice(p.totals)
      && (if p.totals.net < 0 then t.side == "BUY" && t.quantity == -p.totals.net
          else t.side == "SELL" && t.quantity == p.totals.net)
  {
    hide ShortUid, LegCode, ExpectedPrice;
  }

  /**
   A closing order is for the position its key names: the opposite of its net quantity over the table,
   at its volume-weighted price, or at 0.05 where that is not positive.
   */
  lemma ClosingOrderSays(a: Account, rows: seq<Row>, p: map<string, Position>, keys: seq<string>, ts: seq<Intent>,
                         stamp: string, i: nat)
    requires Accounts(SquareOffIntents, a, rows, p) && Closing(a, p, keys, ts, stamp) && i < |ts|
    ensures
      var n, t := Net(SquareOffIntents, a, rows, keys[i]), ts[i];
      && t.tradeUid == a.tradeUid && t.symbol == a.symbol && t.phase == "SQF"
      && (exists symbol :: keys[i] == Key(symbol, t.legType, t.token)) && t.token > 0
      && (if n.net < 0 then t.side == "BUY" && t.quantity == -n.net else t.side == "SELL" && t.quantity == n.net > 0)
      && t.limitPrice == t.expectedPrice
      && t.limitPrice == if n.traded > 0 && n.value > 0.0 then n.value / n.traded as real else 0.05
  {
    hide Key, Net, Included, CloseIntent, ExpectedPrice, Opened;
    assert keys[i] in keys;
    var x := p[keys[i]];
    PositionIsFiled(a, rows, p, keys[i]);
    IntentSays(a, x, stamp, i);
    PriceIsAverage(x.totals);
  }

  lemma PositionIsFiled(a: Account, rows: seq<Row>, p: map<string, Position>, k: string)
    requires Accounts(SquareOffIntents, a, rows, p) && k in p
    ensures k == Key(p[k].symbol, p[k].legType, p[k].token) && p[k].token > 0
    ensures p[k].totals == Net(SquareOffIntents, a, rows, k)
  {
    hide Key, Net;
  }

  /**
   On rows with clean sides, the plan's legs with a token and the closing intents correspond:
   same positions, same side and quantity, and the same price wherever the plan's is positive.
   */
  lemma PlanMatchesIntents(a: Account, rows: seq<Row>, p: map<string, Position>, q: map<string, Position>, k: string)
    requires Accounts(SquareOffIntents, a, rows, p) && Accounts(SquareOffPlan, a, rows, q)
    requires forall i :: 0 <= i < |rows| ==> CleanSide(rows[i].side)
    ensures k in p <==> k in q && q[k].token > 0
    ensures k in p && k in q ==> p[k].totals == q[k].totals
    ensures k in p && k in q ==> forall stamp, n ::
      var t, leg := CloseIntent(a, p[k], stamp, n), LegOf(q[k]);
      && t.side == leg.side && t.quantity == leg.quantity && t.token == leg.token
      && (leg.avgPrice > 0.0 ==> t.limitPrice == leg.avgPrice)
  {
    hide Key, Net, Included, ShortUid;
    if k in p {
      SqfKeyInPlan(a, rows, p, q, k);
    }
    if k in q && q[k].token > 0 {
      PlanKeyInSqf(a, rows, p, q, k);
      NettingsAgree(a, rows, q[k].symbol, q[k].legType, q[k].token);
      KeyToken(p[k].symbol, p[k].legType, p[k].token, q[k].symbol, q[k].legType, q[k].token);
    }
  }

  lemma SqfKeyInPlan(a: Account, rows: seq<Row>, p: map<string, Position>, q: map<string, Position>, k: string)
    requires Accounts(SquareOffIntents, a, rows, p) && Accounts(SquareOffPlan, a, rows, q) && k in p
    ensures k in q && q[k].token > 0
  {
    hide Key, Net, Filled;
    assert Opened(SquareOffIntents, a, rows, p[k]);
    var i :| 0 <= i < |rows| && Opens(SquareOffIntents, a, rows[i], p[k]);
    assert KeyOf(a, rows[i]) == k;
    assert Included(SquareOffPlan, a, rows[i]);
    KeyToken(p[k].symbol, p[k].legType, p[k].token, q[k].symbol, q[k].legType, q[k].token);
  }

  lemma PlanKeyInSqf(a: Account, rows: seq<Row>, p: map<string, Position>, q: map<string, Position>, k: string)
    requires Accounts(SquareOffIntents, a, rows, p) && Accounts(SquareOffPlan, a, rows, q) && k in q && q[k].token > 0
    ensures k in p
  {
    hide Key, Net, Filled;
    assert Opened(SquareOffPlan, a, rows, q[k]);
    var i :| 0 <= i < |rows| && Opens(SquareOffPlan, a, rows[i], q[k]);
    assert KeyOf(a, rows[i]) == k;
    assert Included(SquareOffIntents, a, rows[i]);
  }

  // ---------------------------------------------------------------------------------------
  // Effect on the order table
  // ---------------------------------------------------------------------------------------

  function InsertAll(rows: seq<Row>, ts: seq<Intent>): seq<Row>
  {
    if ts == [] then rows else Insert(InsertAll(rows, ts[..|ts| - 1]), ts[|ts| - 1])
  }

  /** The table after the first answers have been recorded; an error records nothing. */
  function MarkAll(rows: seq<Row>, ts: seq<Intent>, replies: seq<Reply>): seq<Row>
    requires |replies| <= |ts|
  {
    if replies == [] then rows else
    var n := |replies| - 1;
    var before := MarkAll(rows, ts, replies[..n]);
    if replies[n].Answer? then Mark(before, ts[n].intentId, replies[n]) else before
  }

  predicate FilledReply(r: Reply)
  {
    r.Answer? && IsFilledStatus(r.status)
  }

  predicate AllFilled(replies: seq<Reply>)
  {
    forall i :: 0 <= i < |replies| ==> FilledReply(replies[i])
  }

  /** Identifiers of the closing orders are new to the table. */
  ghost predicate NovelIds(rows: seq<Row>, ts: seq<Intent>)
  {
    forall i, k :: 0 <= i < |rows| && 0 <= k < |ts| ==> rows[i].intentId != ts[k].intentId
  }

  ghost predicate DistinctIntents(ts: seq<Intent>)
  {
    forall i, k :: 0 <= i < k < |ts| ==> ts[i].intentId != ts[k].intentId
  }

  ghost predicate FreshIds(rows: seq<Row>, ts: seq<Intent>)
  {
    NovelIds(rows, ts) && DistinctIntents(ts)
  }

  function NewRows(ts: seq<Intent>): (rs: seq<Row>)
    ensures |rs| == |ts| && forall i :: 0 <= i < |ts| ==> rs[i] == NewRow(ts[i])
  {
    seq(|ts|, i requires 0 <= i < |ts| => NewRow(ts[i]))
  }

  /** The rows of the closing orders once the first `|replies|` of them have been answered. */
  function ClosingRows(ts: seq<Intent>, replies: seq<Reply>): (rs: seq<Row>)
    requires |replies| <= |ts|
    ensures |rs| == |ts|
    ensures forall i :: 0 <= i < |ts| ==>
      rs[i] == if i < |replies| && replies[i].Answer? then Executed(NewRow(ts[i]), replies[i]) else NewRow(ts[i])
  {
    seq(|ts|, i requires 0 <= i < |ts| =>
      if i < |replies| && replies[i].Answer? then Executed(NewRow(ts[i]), replies[i]) else NewRow(ts[i]))
  }

  lemma {:induction false} InsertAllFresh(rows: seq<Row>, ts: seq<Intent>)
    requires FreshIds(rows, ts)
    ensures InsertAll(rows, ts) == rows + NewRows(ts)
  {
    hide NewRow;
    if ts == [] {
      assert rows + NewRows(ts) == rows;
    } else {
      var front, last := ts[..|ts| - 1], ts[|ts| - 1];
      assert forall i :: 0 <= i < |front| ==> front[i] == ts[i];
      InsertAllFresh(rows, front);
      var before := rows + NewRows(front);
      assert !HasId(before, last.intentId) by {
        forall i | 0 <= i < |before| ensures before[i].intentId != last.intentId {
          if i >= |rows| {
            NewRowId(front[i - |rows|]);
            assert before[i] == NewRow(front[i - |rows|]);
          }
        }
      }
      assert NewRows(ts) == NewRows(front) + [NewRow(last)];
      AppendAssoc(rows, NewRows(front), [NewRow(last)]);
    }
  }

  lemma NewRowId(t: Intent)
    ensures NewRow(t).intentId == t.intentId
  {
  }

  lemma {:induction false} MarkAllFresh(rows: seq<Row>, ts: seq<Intent>, replies: seq<Reply>)
    requires FreshIds(rows, ts) && |replies| <= |ts|
    ensures MarkAll(rows + NewRows(ts), ts, replies) == rows + ClosingRows(ts, replies)
  {
    if replies == [] {
      assert ClosingRows(ts, replies) == NewRows(ts);
    } else {
      var n := |replies| - 1;
      var front := replies[..n];
      MarkAllFresh(rows, ts, front);
      hide MarkAll;
      MarkOneFresh(rows, ts, replies);
    }
  }

  lemma MarkOneFresh(rows: seq<Row>, ts: seq<Intent>, replies: seq<Reply>)
    requires FreshIds(rows, ts) && 0 < |replies| <= |ts|
    ensures
      var n := |replies| - 1;
      var before := rows + ClosingRows(ts, replies[..n]);
      rows + ClosingRows(ts, replies) == if replies[n].Answer? then Mark(before, ts[n].intentId, replies[n]) else before
  {
    hide NewRow;
    var n := |replies| - 1;
    var before, after := ClosingRows(ts, replies[..n]), ClosingRows(ts, replies);
    forall i | 0 <= i < |ts| ensures before[i].intentId == ts[i].intentId {
      NewRowId(ts[i]);
    }
    assert forall i :: 0 <= i < |ts| && i != n ==> after[i] == before[i];
    if replies[n].Answer? {
      var m := Mark(rows + before, ts[n].intentId, replies[n]);
      forall i | 0 <= i < |m| ensures m[i] == (rows + after)[i] {
        if i >= |rows| {
          assert (rows + before)[i] == before[i - |rows|] && (rows + after)[i] == after[i - |rows|];
        }
      }
    } else {
      assert after == before;
    }
  }

  /** With fresh identifiers a square-off leaves the old rows alone and adds one row per closing order. */
  lemma SquareOffRows(rows: seq<Row>, ts: seq<Intent>, replies: seq<Reply>)
    requires FreshIds(rows, ts) && |replies| <= |ts|
    ensures MarkAll(InsertAll(rows, ts), ts, replies) == rows + ClosingRows(ts, replies)
  {
    hide InsertAll, MarkAll;
    InsertAllFresh(rows, ts);
    MarkAllFresh(rows, ts, replies);
  }

  // ---------------------------------------------------------------------------------------
  // Closed means flat
  // ---------------------------------------------------------------------------------------

  /** The rows that count carry the symbol of their trade. */
  ghost predicate OwnSymbol(a: Account, rows: seq<Row>)
  {
    forall i :: 0 <= i < |rows| && Included(SquareOffIntents, a, rows[i]) ==> SymbolOf(a, rows[i]) == a.symbol
  }

  /** What a filled closing order adds to its position. */
  function Offset(net: int, filled: int): int
  {
    if filled <= 0 then 0 else if net < 0 then filled else -filled
  }

  lemma OffsetCloses(net: int, filled: int)
    requires net != 0
    ensures net + Offset(net, filled) == 0 <==> filled == AbsInt(net)
  {
  }

  /** The quantity that the answer to closing order `i` counts for: none unless it was reported filled. */
  function FilledBy(replies: seq<Reply>, i: nat): int
  {
    if i < |replies| && FilledReply(replies[i]) then replies[i].filledQty else 0
  }

  lemma ClosingRowTotals(a: Account, p: Position, stamp: string, replies: seq<Reply>, i: nat, key: string, k: string)
    requires p.symbol == a.symbol && p.token > 0 && key == Key(p.symbol, p.legType, p.token)
    ensures
      var row := NewRow(CloseIntent(a, p, stamp, i));
      var after := if i < |replies| && replies[i].Answer? then Executed(row, replies[i]) else row;
      RowTotals(SquareOffIntents, a, after, k).net == if k == key then Offset(p.totals.net, FilledBy(replies, i)) else 0
  {
    hide Key, ShortUid, IsSell, ExpectedPrice;
    var row := NewRow(CloseIntent(a, p, stamp, i));
    var after := if i < |replies| && replies[i].Answer? then Executed(row, replies[i]) else row;
    assert SymbolOf(a, after) == a.symbol;
    CanonicalSide(SquareOffIntents, after.side);
    assert after.side == "SELL" <==> p.totals.net >= 0 by {
      assert "BUY" != "SELL" by { assert |"BUY"| != |"SELL"|; }
    }
    StoredIsFilled(if i < |replies| && replies[i].Answer? then replies[i].status else "");
    assert !IsFilledStatus("CREATED") by { assert "CREATED"[0] == 'C'; }
  }

  lemma StoredIsFilled(status: string)
    ensures IsFilledStatus(StoredStatus(status)) <==> IsFilledStatus(status)
    ensures !IsFilledStatus("")
  {
    assert |"SUBMITTED"| == 9;
  }

  /** `net` is the offset of the one among the first `n` closing orders filed under `k`, if any. */
  ghost predicate OffsetBy(p: map<string, Position>, keys: seq<string>, replies: seq<Reply>, n: nat, k: string,
                           net: int)
    requires n <= |keys| && forall i :: 0 <= i < |keys| ==> keys[i] in p
  {
    && ((forall i :: 0 <= i < n ==> keys[i] != k) ==> net == 0)
    && forall i :: 0 <= i < n && keys[i] == k ==> net == Offset(p[keys[i]].totals.net, FilledBy(replies, i))
  }

  lemma OffsetStep(p: map<string, Position>, keys: seq<string>, replies: seq<Reply>, m: nat, k: string, net: int)
    requires m < |keys| && NoDuplicates(keys) && forall i :: 0 <= i < |keys| ==> keys[i] in p
    requires OffsetBy(p, keys, replies, m, k, net)
    ensures
      var more := if k == keys[m] then Offset(p[keys[m]].totals.net, FilledBy(replies, m)) else 0;
      OffsetBy(p, keys, replies, m + 1, k, net + more)
  {
    hide Offset, FilledBy;
  }

  lemma NothingOffset(a: Account, p: map<string, Position>, keys: seq<string>, replies: seq<Reply>, k: string)
    requires forall i :: 0 <= i < |keys| ==> keys[i] in p
    ensures OffsetBy(p, keys, replies, 0, k, Net(SquareOffIntents, a, [], k).net)
  {
  }

  lemma OpenKeysDistinct(p: map<string, Position>, keys: seq<string>)
    requires OpenKeys(p, keys)
    ensures NoDuplicates(keys)
  {
  }

  /** Net effect of the first `n` closing rows under a key. */
  lemma {:induction false} ClosingNet(a: Account, p: map<string, Position>, keys: seq<string>, ts: seq<Intent>,
                                      stamp: string, replies: seq<Reply>, n: nat, k: string)
    requires Closing(a, p, keys, ts, stamp) && |replies| <= |ts| && n <= |ts|
    requires forall i :: 0 <= i < |keys| ==> OwnPosition(a, p, keys[i])
    ensures OffsetBy(p, keys, replies, n, k, Net(SquareOffIntents, a, ClosingRows(ts, replies)[..n], k).net)
  {
    hide CloseIntent, NewRow, RowTotals, Key, OwnPosition, Offset, OffsetBy, FilledBy, Net, OpenKeys;
    var rows := ClosingRows(ts, replies);
    if n == 0 {
      assert rows[..0] == [];
      NothingOffset(a, p, keys, replies, k);
    } else {
      var m := n - 1;
      ClosingNet(a, p, keys, ts, stamp, replies, m, k);
      assert rows[..n] == rows[..m] + [rows[m]];
      NetSnoc(SquareOffIntents, a, rows[..m], rows[m], k);
      OwnPositionFields(a, p, keys[m]);
      OpenKeysDistinct(p, keys);
      OffsetStep(p, keys, replies, m, k, Net(SquareOffIntents, a, rows[..m], k).net);
      ClosingRowTotals(a, p[keys[m]], stamp, replies, m, keys[m], k);
    }
  }

  /** A position of this trade's symbol, filed under its own key. */
  ghost predicate OwnPosition(a: Account, p: map<string, Position>, k: string)
  {
    k in p && p[k].symbol == a.symbol && p[k].token > 0 && k == Key(p[k].symbol, p[k].legType, p[k].token)
  }

  lemma OwnPositionFields(a: Account, p: map<string, Position>, k: string)
    requires OwnPosition(a, p, k)
    ensures k in p && p[k].symbol == a.symbol && p[k].token > 0 && k == Key(p[k].symbol, p[k].legType, p[k].token)
  {
  }

  lemma PositionsAreOwn(a: Account, rows: seq<Row>, p: map<string, Position>, k: string)
    requires Accounts(SquareOffIntents, a, rows, p) && OwnSymbol(a, rows) && k in p
    ensures OwnPosition(a, p, k)
  {
    hide Key, Net;
    assert Opened(SquareOffIntents, a, rows, p[k]);
    var i :| 0 <= i < |rows| && Opens(SquareOffIntents, a, rows[i], p[k]);
  }

  /** Every key nets to zero. */
  ghost predicate Flat(a: Account, rows: seq<Row>)
  {
    forall k :: Net(SquareOffIntents, a, rows, k).net == 0
  }

  /** The fills reported for the closing orders are exactly what was asked for. */
  predicate ExactFills(ts: seq<Intent>, replies: seq<Reply>)
    requires |replies| == |ts|
  {
    forall i :: 0 <= i < |ts| ==> replies[i].Answer? && replies[i].filledQty == ts[i].quantity
  }

  /** Every position after a square-off, whatever was answered: only what was reported filled has been closed. */
  lemma NetAfter(a: Account, rows: seq<Row>, p: map<string, Position>, keys: seq<string>, ts: seq<Intent>,
                 stamp: string, replies: seq<Reply>, k: string)
    requires Accounts(SquareOffIntents, a, rows, p) && OwnSymbol(a, rows)
    requires Closing(a, p, keys, ts, stamp) && |replies| <= |ts|
    ensures k !in keys ==> Net(SquareOffIntents, a, rows + ClosingRows(ts, replies), k).net == 0
    ensures forall i :: 0 <= i < |keys| && keys[i] == k ==>
      Net(SquareOffIntents, a, rows + ClosingRows(ts, replies), k).net ==
        p[k].totals.net + Offset(p[k].totals.net, FilledBy(replies, i))
  {
    hide CloseIntent, NewRow, Key, OwnPosition, Offset, Net, Opened, KeyOf, Included, OwnSymbol, FilledBy;
    var c := ClosingRows(ts, replies);
    forall i | 0 <= i < |keys| ensures OwnPosition(a, p, keys[i]) {
      PositionsAreOwn(a, rows, p, keys[i]);
    }
    ClosingNet(a, p, keys, ts, stamp, replies, |ts|, k);
    assert c[..|ts|] == c;
    NetConcat(SquareOffIntents, a, rows, c, k);
    if k in p {
      assert p[k].totals == Net(SquareOffIntents, a, rows, k);
    } else {
      UnseenKey(SquareOffIntents, a, rows, p, k);
    }
  }

  /**
   After closing orders that were all reported filled, every position of the trade is flat if and
   only if every fill was reported for exactly the quantity asked.
   */
  lemma ClosedMeansFlat(a: Account, rows: seq<Row>, p: map<string, Position>, keys: seq<string>, ts: seq<Intent>,
                        stamp: string, replies: seq<Reply>)
    requires Accounts(SquareOffIntents, a, rows, p) && OwnSymbol(a, rows) && FreshIds(rows, ts)
    requires Closing(a, p, keys, ts, stamp) && |replies| == |ts| && AllFilled(replies)
    ensures Flat(a, MarkAll(InsertAll(rows, ts), ts, replies)) <==> ExactFills(ts, replies)
  {
    hide Accounts, OwnSymbol, Net, InsertAll, MarkAll, FreshIds, Closing, Flat;
    SquareOffRows(rows, ts, replies);
    var after := rows + ClosingRows(ts, replies);
    forall i | 0 <= i < |ts| ensures FlatAt(a, after, keys, ts, replies, i) {
      LegCloses(a, rows, p, keys, ts, stamp, replies, i);
    }
    forall k ensures k !in keys ==> Net(SquareOffIntents, a, after, k).net == 0 {
      NetAfter(a, rows, p, keys, ts, stamp, replies, k);
    }
    assert |keys| == |ts| by { ClosingLength(a, p, keys, ts, stamp); }
    FlatEverywhere(a, after, keys, ts, replies);
  }

  /** Closing order `i` flattens its key exactly when its fill is exact. */
  ghost predicate FlatAt(a: Account, rows: seq<Row>, keys: seq<string>, ts: seq<Intent>, replies: seq<Reply>, i: nat)
  {
    i < |keys| && i < |ts| && i < |replies| && replies[i].Answer?
    && (Net(SquareOffIntents, a, rows, keys[i]).net == 0 <==> replies[i].filledQty == ts[i].quantity)
  }

  lemma ClosingLength(a: Account, p: map<string, Position>, keys: seq<string>, ts: seq<Intent>, stamp: string)
    requires Closing(a, p, keys, ts, stamp)
    ensures |keys| == |ts|
  {
  }

  lemma LegCloses(a: Account, rows: seq<Row>, p: map<string, Position>, keys: seq<string>, ts: seq<Intent>,
                  stamp: string, replies: seq<Reply>, i: nat)
    requires Accounts(SquareOffIntents, a, rows, p) && OwnSymbol(a, rows)
    requires Closing(a, p, keys, ts, stamp) && |replies| == |ts| && AllFilled(replies) && i < |ts|
    ensures FlatAt(a, rows + ClosingRows(ts, replies), keys, ts, replies, i)
  {
    hide Accounts, OwnSymbol, Net, Key, ShortUid, Offset, ExpectedPrice, LegCode;
    assert FilledReply(replies[i]);
    NetAfter(a, rows, p, keys, ts, stamp, replies, keys[i]);
    assert keys[i] in keys;
    OffsetCloses(p[keys[i]].totals.net, replies[i].filledQty);
  }

  lemma FlatEverywhere(a: Account, rows: seq<Row>, keys: seq<string>, ts: seq<Intent>, replies: seq<Reply>)
    requires |keys| == |ts| == |replies| && forall i :: 0 <= i < |ts| ==> FlatAt(a, rows, keys, ts, replies, i)
    requires forall k :: k !in keys ==> Net(SquareOffIntents, a, rows, k).net == 0
    ensures Flat(a, rows) <==> ExactFills(ts, replies)
  {
    hide Net;
    if ExactFills(ts, replies) {
      forall k ensures Net(SquareOffIntents, a, rows, k).net == 0 {
        if k in keys {
          var i :| 0 <= i < |keys| && keys[i] == k;
          assert FlatAt(a, rows, keys, ts, replies, i);
        }
      }
    }
    if Flat(a, rows) {
      forall i | 0 <= i < |ts| ensures replies[i].Answer? && replies[i].filledQty == ts[i].quantity {
        assert FlatAt(a, rows, keys, ts, replies, i);
      }
    }
  }

  // ---------------------------------------------------------------------------------------
  // Identifiers that collide
  // ---------------------------------------------------------------------------------------

  /** Closing orders `i` and `k` get the same identifier: same kind of leg, and suffixes cut to the same digits. */
  predicate SharesId(a: Account, ts: seq<Intent>, i: int, k: int)
  {
    && 0 < i < k < |ts| && LegCode(ts[i].legType) == LegCode(ts[k].legType)
    && Kept(a.symbol, i) == Kept(a.symbol, k)
  }

  lemma ClosingId(a: Account, p: map<string, Position>, keys: seq<string>, ts: seq<Intent>, stamp: string, i: nat)
    requires Closing(a, p, keys, ts, stamp) && i < |ts|
    ensures ts[i].intentId == ShortUid(a.symbol, LegCode(ts[i].legType), stamp, i)
  {
    hide OpenKeys, ShortUid, ExpectedPrice, LegCode;
  }

  /** The identifiers of one square-off are distinct if and only if no two of its orders share theirs after the cut. */
  lemma ClosingIdsDistinctExactly(a: Account, p: map<string, Position>, keys: seq<string>, ts: seq<Intent>,
                                  stamp: string)
    requires Closing(a, p, keys, ts, stamp) && |stamp| == 12
    ensures DistinctIntents(ts) <==> forall i, k :: !SharesId(a, ts, i, k)
  {
    hide Closing, ShortUid, Kept, LegCode;
    forall i, k | 0 <= i < k < |ts| ensures ts[i].intentId == ts[k].intentId <==> SharesId(a, ts, i, k) {
      ClosingId(a, p, keys, ts, stamp, i);
      ClosingId(a, p, keys, ts, stamp, k);
      LegCodeIsUpper(ts[i].legType);
      LegCodeIsUpper(ts[k].legType);
      ShortUidsEqual(a.symbol, LegCode(ts[i].legType), LegCode(ts[k].legType), stamp, i, k);
    }
  }

  /**
   The order uids of one square-off, which carry the order's number plus one hundred, are equal exactly
   when the leg codes agree and the numbers are cut to the same digits.
   */
  lemma ClosingOrderUids(a: Account, p: map<string, Position>, keys: seq<string>, ts: seq<Intent>, stamp: string,
                         i: nat, k: nat)
    requires Closing(a, p, keys, ts, stamp) && |stamp| == 12 && i < k < |ts|
    ensures ts[i].orderUid == ts[k].orderUid <==>
      LegCode(ts[i].legType) == LegCode(ts[k].legType) && Kept(a.symbol, 100 + i) == Kept(a.symbol, 100 + k)
  {
    hide OpenKeys, ShortUid, ExpectedPrice, LegCode, Kept;
    LegCodeIsUpper(ts[i].legType);
    LegCodeIsUpper(ts[k].legType);
    ShortUidsEqual(a.symbol, LegCode(ts[i].legType), LegCode(ts[k].legType), stamp, i + 100, k + 100);
  }

  /** The identifiers of up to ten closing orders are always distinct. */
  lemma TenLegsAreDistinct(a: Account, p: map<string, Position>, keys: seq<string>, ts: seq<Intent>, stamp: string)
    requires Closing(a, p, keys, ts, stamp) && |ts| <= 10 && |stamp| == 12
    ensures DistinctIntents(ts)
  {
    ClosingIdsDistinctExactly(a, p, keys, ts, stamp);
    hide Closing, Kept, LegCode, DistinctIntents;
    forall i, k ensures !SharesId(a, ts, i, k) {
      if 0 < i < k < |ts| && Kept(a.symbol, i) == Kept(a.symbol, k) {
        SmallSuffixKept(a.symbol, i);
        SmallSuffixKept(a.symbol, k);
        DecimalInjective(i, k);
      }
    }
  }

  ghost predicate FirstOfId(ts: seq<Intent>, m: int)
  {
    0 <= m < |ts| && forall i :: 0 <= i < m ==> ts[i].intentId != ts[m].intentId
  }

  /** A row written for an intent, whatever has been reported for it since. */
  predicate WrittenFor(row: Row, t: Intent)
  {
    && row.intentId == t.intentId && row.tradeUid == t.tradeUid
    && row.symbol == t.symbol && row.legType == t.legType && row.token == t.token
  }

  ghost predicate FirstWrites(row: Row, ts: seq<Intent>)
  {
    exists m :: FirstOfId(ts, m) && WrittenFor(row, ts[m])
  }

  /** The table is the old one and rows of orders that were the first with their identifier. */
  ghost predicate OnlyFirsts(rows: seq<Row>, after: seq<Row>, ts: seq<Intent>)
  {
    rows <= after && forall j :: |rows| <= j < |after| ==> FirstWrites(after[j], ts)
  }

  lemma FirstWritesGrows(row: Row, front: seq<Intent>, t: Intent)
    requires FirstWrites(row, front)
    ensures FirstWrites(row, front + [t])
  {
    var ts := front + [t];
    var m :| FirstOfId(front, m) && WrittenFor(row, front[m]);
    assert forall i :: 0 <= i < |front| ==> ts[i] == front[i];
    assert FirstOfId(ts, m);
  }

  lemma {:induction false} InsertAllFirsts(rows: seq<Row>, ts: seq<Intent>)
    ensures OnlyFirsts(rows, InsertAll(rows, ts), ts)
    ensures forall i :: 0 <= i < |ts| ==> HasId(InsertAll(rows, ts), ts[i].intentId)
  {
    if ts != [] {
      var front, t := ts[..|ts| - 1], ts[|ts| - 1];
      assert ts == front + [t];
      InsertAllFirsts(rows, front);
      hide InsertAll, FirstWrites;
      InsertFirst(rows, InsertAll(rows, front), front, t);
      assert InsertAll(rows, ts) == Insert(InsertAll(rows, front), t) by { InsertAllSnoc(rows, front, t); }
    }
  }

  lemma InsertAllSnoc(rows: seq<Row>, front: seq<Intent>, t: Intent)
    ensures InsertAll(rows, front + [t]) == Insert(InsertAll(rows, front), t)
  {
    assert (front + [t])[..|front|] == front;
  }

  lemma InsertFirst(rows: seq<Row>, mid: seq<Row>, front: seq<Intent>, t: Intent)
    requires OnlyFirsts(rows, mid, front) && forall i :: 0 <= i < |front| ==> HasId(mid, front[i].intentId)
    ensures OnlyFirsts(rows, Insert(mid, t), front + [t])
    ensures forall i :: 0 <= i < |front + [t]| ==> HasId(Insert(mid, t), (front + [t])[i].intentId)
  {
    hide FirstWrites;
    var ts, after := front + [t], Insert(mid, t);
    forall j | |rows| <= j < |after| ensures FirstWrites(after[j], ts) {
      if j < |mid| {
        FirstWritesGrows(mid[j], front, t);
      } else {
        NewRowWrites(front, t);
      }
    }
    forall u | HasId(mid, u) ensures HasId(after, u) {
      var i :| 0 <= i < |mid| && mid[i].intentId == u;
      assert after[i].intentId == u;
    }
    assert HasId(after, t.intentId) by {
      assert !HasId(mid, t.intentId) ==> after[|mid|].intentId == t.intentId;
    }
  }

  lemma NewRowWrites(front: seq<Intent>, t: Intent)
    requires forall i :: 0 <= i < |front| ==> front[i].intentId != t.intentId
    ensures FirstWrites(NewRow(t), front + [t])
  {
    assert FirstOfId(front + [t], |front|);
    assert WrittenFor(NewRow(t), (front + [t])[|front|]);
  }

  lemma MarkFirsts(rows: seq<Row>, mid: seq<Row>, ts: seq<Intent>, n: nat, r: Reply)
    requires OnlyFirsts(rows, mid, ts) && NovelIds(rows, ts) && n < |ts| && r.Answer?
    ensures OnlyFirsts(rows, Mark(mid, ts[n].intentId, r), ts)
  {
    var after := Mark(mid, ts[n].intentId, r);
    assert forall j :: 0 <= j < |rows| ==> after[j] == rows[j];
    forall j | |rows| <= j < |after| ensures FirstWrites(after[j], ts) {
      assert FirstWrites(mid[j], ts);
      var m :| FirstOfId(ts, m) && WrittenFor(mid[j], ts[m]);
      assert WrittenFor(after[j], ts[m]);
    }
  }

  lemma {:induction false} MarkAllFirsts(rows: seq<Row>, mid: seq<Row>, ts: seq<Intent>, replies: seq<Reply>)
    requires OnlyFirsts(rows, mid, ts) && NovelIds(rows, ts) && |replies| <= |ts|
    ensures OnlyFirsts(rows, MarkAll(mid, ts, replies), ts)
  {
    hide OnlyFirsts, Mark, NovelIds;
    if replies != [] {
      var n := |replies| - 1;
      MarkAllFirsts(rows, mid, ts, replies[..n]);
      if replies[n].Answer? {
        MarkFirsts(rows, MarkAll(mid, ts, replies[..n]), ts, n, replies[n]);
      }
    }
  }

  lemma FirstKey(a: Account, p: map<string, Position>, keys: seq<string>, ts: seq<Intent>, stamp: string, row: Row,
                 k: nat)
    requires Closing(a, p, keys, ts, stamp) && k < |ts| && !FirstOfId(ts, k) && FirstWrites(row, ts)
    requires forall i :: 0 <= i < |keys| ==> OwnPosition(a, p, keys[i])
    ensures !Contributes(SquareOffIntents, a, row, keys[k])
  {
    hide Key, ShortUid, ExpectedPrice, LegCode, Included;
    var m :| FirstOfId(ts, m) && WrittenFor(row, ts[m]);
    assert m != k && OwnPosition(a, p, keys[m]);
    assert KeyOf(a, row) == keys[m];
  }

  /** An order that shares an earlier identifier gets no row: its position stays exactly as open as it was. */
  lemma CollidedStaysOpen(a: Account, rows: seq<Row>, p: map<string, Position>, keys: seq<string>, ts: seq<Intent>,
                          stamp: string, replies: seq<Reply>, k: nat)
    requires Accounts(SquareOffIntents, a, rows, p) && OwnSymbol(a, rows) && NovelIds(rows, ts)
    requires Closing(a, p, keys, ts, stamp) && |replies| <= |ts| && k < |ts| && !FirstOfId(ts, k)
    ensures k < |keys| && keys[k] in p && p[keys[k]].totals.net != 0
    ensures Net(SquareOffIntents, a, MarkAll(InsertAll(rows, ts), ts, replies), keys[k]).net == p[keys[k]].totals.net
  {
    hide Net, InsertAll, MarkAll, CloseIntent, FirstOfId, FirstWrites, OwnSymbol, NovelIds, Opened, Included;
    hide KeyOf, Key;
    InsertAllFirsts(rows, ts);
    MarkAllFirsts(rows, InsertAll(rows, ts), ts, replies);
    forall i | 0 <= i < |keys| ensures OwnPosition(a, p, keys[i]) {
      PositionsAreOwn(a, rows, p, keys[i]);
    }
    assert keys[k] in keys;
    hide OwnPosition;
    AfterKeeps(a, rows, MarkAll(InsertAll(rows, ts), ts, replies), p, keys, ts, stamp, k);
  }

  lemma AfterKeeps(a: Account, rows: seq<Row>, after: seq<Row>, p: map<string, Position>, keys: seq<string>,
                   ts: seq<Intent>, stamp: string, k: nat)
    requires OnlyFirsts(rows, after, ts) && Closing(a, p, keys, ts, stamp) && k < |ts| && !FirstOfId(ts, k)
    requires forall i :: 0 <= i < |keys| ==> OwnPosition(a, p, keys[i])
    ensures Net(SquareOffIntents, a, after, keys[k]) == Net(SquareOffIntents, a, rows, keys[k])
  {
    hide Net, CloseIntent, FirstOfId, FirstWrites, OwnPosition, Contributes, OpenKeys;
    var added := after[|rows|..];
    assert after == rows + added;
    forall j | 0 <= j < |added| ensures !Contributes(SquareOffIntents, a, added[j], keys[k]) {
      assert added[j] == after[|rows| + j];
      FirstKey(a, p, keys, ts, stamp, added[j], k);
    }
    NoContribution(SquareOffIntents, a, added, keys[k]);
    NetConcat(SquareOffIntents, a, rows, added, keys[k]);
    PlusZero(Net(SquareOffIntents, a, rows, keys[k]));
  }

  /**
   After closing orders with new identifiers that were all reported filled, every position of the
   trade is flat if and only if the identifiers are distinct and every fill is exactly what was asked.
   */
  lemma ClosedFlatExactly(a: Account, rows: seq<Row>, p: map<string, Position>, keys: seq<string>, ts: seq<Intent>,
                          stamp: string, replies: seq<Reply>)
    requires Accounts(SquareOffIntents, a, rows, p) && OwnSymbol(a, rows) && NovelIds(rows, ts)
    requires Closing(a, p, keys, ts, stamp) && |replies| == |ts| && AllFilled(replies)
    ensures Flat(a, MarkAll(InsertAll(rows, ts), ts, replies)) <==> DistinctIntents(ts) && ExactFills(ts, replies)
  {
    hide Accounts, OwnSymbol, Net, InsertAll, MarkAll, NovelIds, Closing, ExactFills;
    if DistinctIntents(ts) {
      hide DistinctIntents;
      ClosedMeansFlat(a, rows, p, keys, ts, stamp, replies);
    } else {
      var i, k :| 0 <= i < k < |ts| && ts[i].intentId == ts[k].intentId;
      assert !FirstOfId(ts, k);
      CollidedStaysOpen(a, rows, p, keys, ts, stamp, replies, k);
    }
  }

  lemma HeadIsMember<T>(s: seq<T>)
    ensures |s| > 0 ==> s[0] in s
  {
  }

  /** A flat table gives a further square-off nothing to close. */
  lemma FlatHasNothingToClose(a: Account, rows: seq<Row>, p: map<string, Position>, keys: seq<string>)
    requires Flat(a, rows) && Accounts(SquareOffIntents, a, rows, p) && OpenKeys(p, keys)
    ensures keys == []
  {
    hide Net, Key, Opened;
    HeadIsMember(keys);
    assert forall k :: k in p ==> p[k].totals == Net(SquareOffIntents, a, rows, k);
  }

  // ---------------------------------------------------------------------------------------
  // The operation
  // ---------------------------------------------------------------------------------------

  datatype StoredTrade = StoredTrade(tradeUid: string, symbol: string, brokerName: string, status: string)

  datatype SquareOffError =
    | TradeNotFound
    | TradePendingFill
    | NoNetPosition
    | NoExecutor
    | ExecutionFailed(legType: string)

  class TradeBook {
    var trades: map<string, StoredTrade>

    constructor ()
      ensures trades == map[]
    {
      trades := map[];
    }

    method UpdateTrade(t: StoredTrade)
      modifies this
      ensures trades == old(trades)[t.tradeUid := t]
    {
      trades := trades[t.tradeUid := t];
    }
  }

  /** `createSQFIntentsFromFilledNetPosition`: net the rows, then create and record the closing orders. */
  method CreateIntents(store: OrderStore, a: Account, stamp: string)
      returns (created: seq<Intent>, ghost p: map<string, Position>, ghost keys: seq<string>)
    modifies store
    ensures Accounts(SquareOffIntents, a, old(store.rows), p)
    ensures Closing(a, p, keys, created, stamp)
    ensures store.rows == InsertAll(old(store.rows), created)
  {
    var positions := Accumulate(SquareOffIntents, a, store.rows);
    p := positions;
    created, keys := RecordIntents(store, a, positions, stamp);
  }

  /** The progress of the loop over the position map. */
  ghost predicate ClosingSoFar(a: Account, p: map<string, Position>, todo: set<string>, keys: seq<string>,
                               created: seq<Intent>, stamp: string)
  {
    && todo <= p.Keys && NoDuplicates(keys) && |created| == |keys|
    && (forall k :: k in keys <==> k in p && k !in todo && p[k].totals.net != 0)
    && forall i :: 0 <= i < |keys| ==> keys[i] in p && created[i] == CloseIntent(a, p[keys[i]], stamp, i)
  }

  lemma ClosingSkips(a: Account, p: map<string, Position>, todo: set<string>, keys: seq<string>,
                     created: seq<Intent>, stamp: string, k: string)
    requires ClosingSoFar(a, p, todo, keys, created, stamp) && k in todo && p[k].totals.net == 0
    ensures ClosingSoFar(a, p, todo - {k}, keys, created, stamp)
  {
    hide CloseIntent;
  }

  lemma ClosingAdds(a: Account, p: map<string, Position>, todo: set<string>, keys: seq<string>, created: seq<Intent>,
                    stamp: string, k: string)
    requires ClosingSoFar(a, p, todo, keys, created, stamp) && k in todo && p[k].totals.net != 0
    ensures ClosingSoFar(a, p, todo - {k}, keys + [k], created + [CloseIntent(a, p[k], stamp, |created|)], stamp)
  {
    hide CloseIntent;
  }

  lemma ClosingDone(a: Account, p: map<string, Position>, keys: seq<string>, created: seq<Intent>, stamp: string)
    requires ClosingSoFar(a, p, {}, keys, created, stamp)
    ensures Closing(a, p, keys, created, stamp)
  {
    hide CloseIntent;
  }

  method RecordIntents(store: OrderStore, a: Account, p: map<string, Position>, stamp: string)
      returns (created: seq<Intent>, ghost keys: seq<string>)
    modifies store
    ensures Closing(a, p, keys, created, stamp)
    ensures store.rows == InsertAll(old(store.rows), created)
  {
    hide CloseIntent, Insert, Closing;
    created, keys := [], [];
    var todo := p.Keys;
    while todo != {}
      invariant ClosingSoFar(a, p, todo, keys, created, stamp)
      invariant store.rows == InsertAll(old(store.rows), created)
      decreases |todo|
    {
      var k :| k in todo;
      if p[k].totals.net != 0 {
        var t := CloseIntent(a, p[k], stamp, |created|);
        store.AppendIntent(a.tradeUid, t);
        ClosingAdds(a, p, todo, keys, created, stamp, k);
        assert (created + [t])[..|created|] == created;
        created, keys := created + [t], keys + [k];
      } else {
        ClosingSkips(a, p, todo, keys, created, stamp, k);
      }
      todo := todo - {k};
    }
    ClosingDone(a, p, keys, created, stamp);
  }

  /** The execution loop: stops at the first error, otherwise records every answer. */
  method ExecuteIntents(store: OrderStore, b: Broker, ts: seq<Intent>)
      returns (replies: seq<Reply>, failed: Option<Intent>)
    modifies store
    ensures |replies| <= |ts| && forall i :: 0 <= i < |replies| ==> replies[i] == b(i, ts[i])
    ensures failed.None? ==> |replies| == |ts| && forall i :: 0 <= i < |replies| ==> replies[i].Answer?
    ensures failed.Some? ==> |replies| > 0 && replies[|replies| - 1].BrokerError? && failed.value == ts[|replies| - 1]
    ensures failed.Some? ==> forall i :: 0 <= i < |replies| - 1 ==> replies[i].Answer?
    ensures store.rows == MarkAll(old(store.rows), ts, replies)
  {
    hide Mark;
    replies, failed := [], None;
    for i := 0 to |ts|
      invariant |replies| == i && forall j :: 0 <= j < i ==> replies[j].Answer? && replies[j] == b(j, ts[j])
      invariant store.rows == MarkAll(old(store.rows), ts, replies)
    {
      var r := b(i, ts[i]);
      assert (replies + [r])[..i] == replies;
      if r.BrokerError? {
        return replies + [r], Some(ts[i]);
      }
      store.MarkOrderExecution(ts[i].intentId, r);
      replies := replies + [r];
    }
  }

  /** Everything a square-off did: the positions it found, the orders it created and the answers it got. */
  datatype Outcome = Outcome(error: Option<SquareOffError>, created: seq<Intent>, replies: seq<Reply>)

  /** The order table after a square-off: closing orders for all open positions, with the answers received. */
  ghost predicate SquaredOff(a: Account, rows0: seq<Row>, rows: seq<Row>, p: map<string, Position>,
                             keys: seq<string>, stamp: string, o: Outcome)
  {
    && Accounts(SquareOffIntents, a, rows0, p) && Closing(a, p, keys, o.created, stamp)
    && |o.replies| <= |o.created| && rows == MarkAll(InsertAll(rows0, o.created), o.created, o.replies)
  }

  /** The trade is closed exactly when every closing order was answered as filled. */
  function StatusAfter(o: Outcome): string
  {
    if o.error.None? && |o.replies| == |o.created| && AllFilled(o.replies) then "CLOSED" else "SQUARING_OFF"
  }

  /** A trade is closed exactly when every closing order was sent and answered as filled. */
  lemma ClosedWhen(o: Outcome)
    ensures StatusAfter(o) == "CLOSED" <==>
      && o.error.None? && |o.replies| == |o.created|
      && forall i :: 0 <= i < |o.replies| ==> o.replies[i].Answer? && o.replies[i].status in ["FILLED", "SUCCESS"]
    ensures StatusAfter(o) != "CLOSED" ==> StatusAfter(o) == "SQUARING_OFF"
  {
    assert |"CLOSED"| != |"SQUARING_OFF"|;
  }

  /** The orders went to this broker, one by one, until all were answered or one failed. */
  ghost predicate SentTo(b: Broker, o: Outcome)
  {
    && |o.replies| <= |o.created| && (forall i :: 0 <= i < |o.replies| ==> o.replies[i] == b(i, o.created[i]))
    && (o.error.None? ==> |o.replies| == |o.created|)
    && (forall i :: 0 <= i < |o.replies| ==> (o.replies[i].Answer? <==> o.error.None? || i < |o.replies| - 1))
    && (o.error.Some? ==> |o.replies| > 0 && o.error == Some(ExecutionFailed(o.created[|o.replies| - 1].legType)))
  }

  /** Nothing was sent. */
  predicate Withheld(o: Outcome, error: Option<SquareOffError>)
  {
    o.replies == [] && o.error == error
  }

  /** What became of the closing orders, by the live switch, the broker's name and whether it can be reached. */
  ghost predicate Gated(b: Broker, o: Outcome, brokerName: string, liveEnabled: bool, executorAvailable: bool)
  {
    if !liveEnabled && brokerName !in {"SIM", "sim"} then Withheld(o, None)
    else if !executorAvailable then Withheld(o, Some(NoExecutor))
    else SentTo(b, o)
  }

  /** Execution of the closing orders and the status that follows from it. */
  method CloseOut(book: TradeBook, store: OrderStore, b: Broker, tr: StoredTrade, created: seq<Intent>,
                  liveEnabled: bool, executorAvailable: bool)
      returns (o: Outcome)
    requires created != []
    modifies book, store
    ensures o.created == created && |o.replies| <= |created|
    ensures Gated(b, o, tr.brokerName, liveEnabled, executorAvailable)
    ensures store.rows == MarkAll(old(store.rows), created, o.replies)
    ensures book.trades == old(book.trades)[tr.tradeUid := tr.(status := StatusAfter(o))]
  {
    hide MarkAll;
    NothingMarked(store.rows, created);
    book.UpdateTrade(tr.(status := "SQUARING_OFF"));
    if !liveEnabled && tr.brokerName != "SIM" && tr.brokerName != "sim" {
      return Outcome(None, created, []);
    }
    if !executorAvailable {
      return Outcome(Some(NoExecutor), created, []);
    }
    var replies, failed := ExecuteIntents(store, b, created);
    if failed.Some? {
      return Outcome(Some(ExecutionFailed(failed.value.legType)), created, replies);
    }
    if AllFilled(replies) {
      book.UpdateTrade(tr.(status := "CLOSED"));
    }
    o := Outcome(None, created, replies);
  }

  /** `SquareOff`. */
  method Execute(book: TradeBook, store: OrderStore, b: Broker, tradeUid: string, stamp: string, liveEnabled: bool,
                 executorAvailable: bool)
      returns (o: Outcome, ghost p: map<string, Position>, ghost keys: seq<string>)
    requires tradeUid in book.trades ==> book.trades[tradeUid].tradeUid == tradeUid
    modifies book, store
    ensures tradeUid !in old(book.trades) ==>
      o.error == Some(TradeNotFound) && store.rows == old(store.rows) && book.trades == old(book.trades)
    ensures tradeUid in old(book.trades) && old(book.trades)[tradeUid].status == "PENDING_FILL" ==>
      o.error == Some(TradePendingFill) && store.rows == old(store.rows) && book.trades == old(book.trades)
    ensures tradeUid in old(book.trades) && old(book.trades)[tradeUid].status != "PENDING_FILL" ==>
      var t := old(book.trades)[tradeUid];
      && SquaredOff(Account(tradeUid, t.symbol), old(store.rows), store.rows, p, keys, stamp, o)
      && (o.created == [] ==> o.error == Some(NoNetPosition) && book.trades == old(book.trades))
      && (o.created != [] ==> book.trades == old(book.trades)[tradeUid := t.(status := StatusAfter(o))])
      && (o.created != [] ==> Gated(b, o, t.brokerName, liveEnabled, executorAvailable))
  {
    p, keys := map[], [];
    if tradeUid !in book.trades {
      return Outcome(Some(TradeNotFound), [], []), p, keys;
    }
    var tr := book.trades[tradeUid];
    if tr.status == "PENDING_FILL" {
      return Outcome(Some(TradePendingFill), [], []), p, keys;
    }
    hide Accounts, Closing, InsertAll, MarkAll, StatusAfter, Gated;
    var created;
    created, p, keys := CreateIntents(store, Account(tradeUid, tr.symbol), stamp);
    NothingMarked(store.rows, created);
    if |created| == 0 {
      return Outcome(Some(NoNetPosition), [], []), p, keys;
    }
    o := CloseOut(book, store, b, tr, created, liveEnabled, executorAvailable);
  }

  /**
   Whenever a square-off closes a trade whose rows carry its symbol, with identifiers new to the
   table, all positions are flat if and only if the identifiers are distinct and the fills were
   reported in full; a further square-off, at any time, then finds nothing to close.
   */
  lemma ClosedTradeIsFlat(a: Account, rows0: seq<Row>, rows: seq<Row>, p: map<string, Position>, keys: seq<string>,
                          stamp: string, o: Outcome)
    requires SquaredOff(a, rows0, rows, p, keys, stamp, o) && StatusAfter(o) == "CLOSED"
    requires OwnSymbol(a, rows0) && NovelIds(rows0, o.created)
    ensures |o.replies| == |o.created|
    ensures Flat(a, rows) <==> DistinctIntents(o.created) && ExactFills(o.created, o.replies)
    ensures Flat(a, rows) ==> forall p', keys', created', stamp' ::
      Accounts(SquareOffIntents, a, rows, p') && Closing(a, p', keys', created', stamp') ==> created' == []
  {
    hide Accounts, InsertAll, MarkAll, OwnSymbol, NovelIds, DistinctIntents, Flat, OpenKeys, CloseIntent, ExactFills;
    assert "CLOSED" != "SQUARING_OFF" by { assert |"CLOSED"| != |"SQUARING_OFF"|; }
    ClosedFlatExactly(a, rows0, p, keys, o.created, stamp, o.replies);
    if Flat(a, rows) {
      forall p', keys', created', stamp' | Accounts(SquareOffIntents, a, rows, p') &&
        Closing(a, p', keys', created', stamp')
        ensures created' == []
      {
        FlatHasNothingToClose(a, rows, p', keys');
      }
    }
  }

  lemma NothingMarked(rows: seq<Row>, ts: seq<Intent>)
    ensures MarkAll(rows, ts, []) == rows
  {
  }
}
