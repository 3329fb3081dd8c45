/**
 The net positions of the execution summary: its own fold over the rows of a trade, with a running
 average price, compared with the netting of the square-off plan.
 */
module ExecutionSummary {
  import opened Netting
  import opened OrderTable
  import opened Rounding
  import opened Text

  datatype NetPosition = NetPosition(symbol: string, legType: string, token: int, net: int, avgPrice: real)

  /** What one fill does to a net quantity and its running average price. */
  function NextAverage(net: int, avg: real, signed: int, price: real): real
  {
    var weight := AbsInt(net) + AbsInt(signed);
    if weight > 0 then (Times(avg, AbsInt(net) as real) + Times(price, AbsInt(signed) as real)) / weight as real
    else avg
  }

  function SummarySigned(r: Row): int
  {
    if ToUpper(r.side) == "SELL" then -r.filledQty else r.filledQty
  }

  /** One row of the loop: only a fill of the trade changes a position. */
  function PostRow(a: Account, p: map<string, NetPosition>, r: Row): map<string, NetPosition>
  {
    if r.tradeUid == a.tradeUid && r.filledQty > 0 && IsFilledStatus(r.status) then
      var key := KeyOf(a, r);
      var pos := if key in p then p[key] else NetPosition(SymbolOf(a, r), r.legType, r.token, 0, 0.0);
      p[key := pos.(net := pos.net + SummarySigned(r),
                    avgPrice := NextAverage(pos.net, pos.avgPrice, SummarySigned(r), r.avgFillPrice))]
    else p
  }

  function Summary(a: Account, rows: seq<Row>): map<string, NetPosition>
  {
    if rows == [] then map[] else PostRow(a, Summary(a, rows[..|rows| - 1]), rows[|rows| - 1])
  }

  /** The position loop of `ExecutionSummary`. */
  method Summarize(a: Account, rows: seq<Row>) returns (p: map<string, NetPosition>)
    ensures p == Summary(a, rows)
  {
    hide KeyOf, NextAverage;
    p := map[];
    assert rows[..0] == [];
    for i := 0 to |rows|
      invariant p == Summary(a, rows[..i])
    {
      assert rows[..i + 1][..i] == rows[..i];
      var r := rows[i];
      if r.tradeUid == a.tradeUid {
        if r.filledQty > 0 && (r.status == "FILLED" || r.status == "SUCCESS") {
          var key := KeyOf(a, r);
          var pos := NetPosition(SymbolOf(a, r), r.legType, r.token, 0, 0.0);
          if key in p {
            pos := p[key];
          }
          var signed := r.filledQty;
          if ToUpper(r.side) == "SELL" {
            signed := -signed;
          }
          pos := pos.(avgPrice := NextAverage(pos.net, pos.avgPrice, signed, r.avgFillPrice));
          p := p[key := pos.(net := pos.net + signed)];
        }
      }
    }
    assert rows[..|rows|] == rows;
  }

  // ---------------------------------------------------------------------------------------
  // Agreement with the plan
  // ---------------------------------------------------------------------------------------

  /** Every position of the summary is listed under its own symbol, leg type and token. */
  lemma {:induction false} SummaryIsFiled(a: Account, rows: seq<Row>, k: string)
    requires k in Summary(a, rows)
    ensures var p := Summary(a, rows)[k]; k == Key(p.symbol, p.legType, p.token)
  {
    hide Key, NextAverage, SummarySigned;
    if k in Summary(a, rows[..|rows| - 1]) {
      SummaryIsFiled(a, rows[..|rows| - 1], k);
    }
  }

  /** The net quantity the summary shows under a key; zero if it shows none. */
  function SummaryNet(a: Account, rows: seq<Row>, key: string): int
  {
    var p := Summary(a, rows);
    if key in p then p[key].net else 0
  }

  function SummaryAverage(a: Account, rows: seq<Row>, key: string): real
  {
    var p := Summary(a, rows);
    if key in p then p[key].avgPrice else 0.0
  }

  lemma SummarySnoc(a: Account, rows: seq<Row>, r: Row, key: string)
    ensures
      var net, avg := SummaryNet(a, rows, key), SummaryAverage(a, rows, key);
      if Contributes(SquareOffPlan, a, r, key) then
        && SummaryNet(a, rows + [r], key) == net + Signed(SquareOffPlan, r)
        && SummaryAverage(a, rows + [r], key) == NextAverage(net, avg, Signed(SquareOffPlan, r), r.avgFillPrice)
      else SummaryNet(a, rows + [r], key) == net && SummaryAverage(a, rows + [r], key) == avg
  {
    hide KeyOf, NextAverage;
    assert (rows + [r])[..|rows|] == rows;
  }

  /** Under every key of every table, the summary and the square-off plan show the same net quantity. */
  lemma {:induction false} SummaryMatchesPlan(a: Account, rows: seq<Row>, key: string)
    ensures SummaryNet(a, rows, key) == Net(SquareOffPlan, a, rows, key).net
  {
    if rows != [] {
      var front, r := rows[..|rows| - 1], rows[|rows| - 1];
      assert rows == front + [r];
      SummaryMatchesPlan(a, front, key);
      hide Summary, SummaryNet, SummaryAverage, Net, Contributes;
      SummarySnoc(a, front, r, key);
      NetSnoc(SquareOffPlan, a, front, r, key);
    }
  }

  /** Both list the same keys. */
  lemma {:induction false} SameKeys(a: Account, rows: seq<Row>)
    ensures Summary(a, rows).Keys == Positions(SquareOffPlan, a, rows).Keys
  {
    hide KeyOf;
    if rows != [] {
      SameKeys(a, rows[..|rows| - 1]);
    }
  }

  // ---------------------------------------------------------------------------------------
  // The two average prices
  // ---------------------------------------------------------------------------------------

  ghost predicate AverageAgrees(a: Account, rows: seq<Row>, key: string)
  {
    SummaryAverage(a, rows, key) == AveragePrice(Net(SquareOffPlan, a, rows, key))
  }

  /** All fills under the key are purchases, or all are sales. */
  ghost predicate AllOnSide(a: Account, rows: seq<Row>, key: string, bought: bool)
  {
    forall i :: 0 <= i < |rows| && Contributes(SquareOffPlan, a, rows[i], key) ==>
      (Signed(SquareOffPlan, rows[i]) > 0 <==> bought)
  }

  /** Nothing under the key has been offset. */
  ghost predicate OneSided(a: Account, rows: seq<Row>, key: string)
  {
    AllOnSide(a, rows, key, true) || AllOnSide(a, rows, key, false)
  }

  /**
   The net quantity reaches the traded one exactly when all fills are purchases, and its negative
   when all are sales.
   */
  predicate Sided(t: Totals, bought: bool, sold: bool)
  {
    && -t.traded <= t.net <= t.traded && (t.traded == 0 ==> t.value == 0.0)
    && (t.net == t.traded <==> bought) && (t.net == -t.traded <==> sold)
  }

  predicate OnSide(a: Account, r: Row, key: string, bought: bool)
  {
    Contributes(SquareOffPlan, a, r, key) ==> (Signed(SquareOffPlan, r) > 0 <==> bought)
  }

  lemma RowSided(a: Account, r: Row, key: string)
    ensures Sided(RowTotals(SquareOffPlan, a, r, key), OnSide(a, r, key, true), OnSide(a, r, key, false))
  {
    hide KeyOf, IsSell;
  }

  lemma PlusSided(x: Totals, b: bool, s: bool, y: Totals, b': bool, s': bool)
    requires Sided(x, b, s) && Sided(y, b', s')
    ensures Sided(Plus(x, y), b && b', s && s')
  {
  }

  lemma SideSnoc(a: Account, rows: seq<Row>, key: string, bought: bool)
    requires rows != []
    ensures AllOnSide(a, rows, key, bought)
      <==> AllOnSide(a, rows[..|rows| - 1], key, bought) && OnSide(a, rows[|rows| - 1], key, bought)
  {
    hide Contributes, Signed;
    var front := rows[..|rows| - 1];
    assert forall i :: 0 <= i < |front| ==> front[i] == rows[i];
  }

  lemma NothingSided(a: Account, key: string)
    ensures Sided(ZERO, AllOnSide(a, [], key, true), AllOnSide(a, [], key, false))
  {
  }

  lemma {:induction false} NetSided(a: Account, rows: seq<Row>, key: string)
    ensures Sided(Net(SquareOffPlan, a, rows, key), AllOnSide(a, rows, key, true), AllOnSide(a, rows, key, false))
  {
    hide RowTotals, Sided, AllOnSide, OnSide, Plus;
    if rows == [] {
      NothingSided(a, key);
    } else {
      var front, r := rows[..|rows| - 1], rows[|rows| - 1];
      NetSided(a, front, key);
      RowSided(a, r, key);
      SideSnoc(a, rows, key, true);
      SideSnoc(a, rows, key, false);
      PlusSided(Net(SquareOffPlan, a, front, key), AllOnSide(a, front, key, true), AllOnSide(a, front, key, false),
                RowTotals(SquareOffPlan, a, r, key), OnSide(a, r, key, true), OnSide(a, r, key, false));
    }
  }

  /**
   Mixing a price into an average with two weights gives the same result exactly when the weights or
   the prices agree.
   */
  lemma MixedAlike(avg: real, n: real, t: real, p: real, q: real)
    requires q > 0.0 && 0.0 <= n <= t
    ensures (Times(avg, n) + Times(p, q)) / (n + q) == (Times(avg, t) + Times(p, q)) / (t + q) <==> n == t || p == avg
  {
    var x, y := (Times(avg, n) + Times(p, q)) / (n + q), (Times(avg, t) + Times(p, q)) / (t + q);
    TimesQuotient(Times(avg, n) + Times(p, q), n + q);
    TimesQuotient(Times(avg, t) + Times(p, q), t + q);
    hide Times;
    MixedBalance(avg, n, t, p, q, x, y);
  }

  lemma TimesZero(u: real, v: real)
    ensures Times(u, v) == 0.0 <==> u == 0.0 || v == 0.0
  {
  }

  lemma MixedBalance(avg: real, n: real, t: real, p: real, q: real, x: real, y: real)
    requires q > 0.0 && 0.0 <= n <= t
    requires Times(x, n + q) == Times(avg, n) + Times(p, q)
    requires Times(y, t + q) == Times(avg, t) + Times(p, q)
    ensures x == y <==> n == t || p == avg
  {
    hide Times;
    TimesAdd(n, q, avg);
    TimesAdd(t, q, avg);
    TimesAdd(x, avg, n + q);
    TimesAdd(y, avg, t + q);
    TimesAdd(p, avg, q);
    Centred(x - avg, y - avg, n, t, p - avg, q);
  }

  lemma Centred(u: real, v: real, n: real, t: real, w: real, q: real)
    requires q > 0.0 && 0.0 <= n <= t && Times(u, n + q) == Times(w, q) && Times(v, t + q) == Times(w, q)
    ensures u == v <==> n == t || w == 0.0
  {
    hide Times;
    TimesZero(w, q);
    TimesZero(u, n + q);
    TimesZero(v, t + q);
    TimesZero(u, t - n);
    TimesZero(u - v, n + q);
    TimesAdd(t + q, n + q, u);
    TimesAdd(u, v, n + q);
    assert (t + q) - (n + q) == t - n;
  }

  /**
   Where the two averages agree, they still agree after one more fill exactly if nothing was offset
   or the price is the average.
   */
  lemma StepAgrees(a: Account, rows: seq<Row>, r: Row, key: string)
    requires AverageAgrees(a, rows, key) && Contributes(SquareOffPlan, a, r, key)
    ensures AverageAgrees(a, rows + [r], key)
      <==> OneSided(a, rows, key) || r.avgFillPrice == AveragePrice(Net(SquareOffPlan, a, rows, key))
  {
    hide Net, Summary, SummaryNet, SummaryAverage, AllOnSide, KeyOf, IsSell, IsFilledStatus, NextAverage, AveragePrice;
    var t := Net(SquareOffPlan, a, rows, key);
    SummarySnoc(a, rows, r, key);
    SummaryMatchesPlan(a, rows, key);
    NetSnoc(SquareOffPlan, a, rows, r, key);
    NetSided(a, rows, key);
    StepAverage(t, RowTotals(SquareOffPlan, a, r, key), Signed(SquareOffPlan, r), r.avgFillPrice, r.filledQty);
  }

  lemma StepAverage(t: Totals, more: Totals, signed: int, price: real, q: int)
    requires -t.traded <= t.net <= t.traded && (t.traded == 0 ==> t.value == 0.0)
    requires q > 0 && (signed == q || signed == -q) && more == Totals(signed, price * q as real, q)
    ensures NextAverage(t.net, AveragePrice(t), signed, price) == AveragePrice(Plus(t, more))
      <==> AbsInt(t.net) == t.traded || price == AveragePrice(t)
  {
    var avg, n := AveragePrice(t), AbsInt(t.net);
    AverageValue(t);
    assert more.value == Times(price, q as real);
    hide Times;
    MixedAlike(avg, n as real, t.traded as real, price, q as real);
    assert (n + q) as real == n as real + q as real;
    assert (t.traded + q) as real == t.traded as real + q as real;
  }

  lemma AverageValue(t: Totals)
    requires t.traded >= 0 && (t.traded == 0 ==> t.value == 0.0)
    ensures t.value == Times(AveragePrice(t), t.traded as real)
  {
    if t.traded > 0 {
      TimesQuotient(t.value, t.traded as real);
    }
  }

  /** The averages agree from the first row to the last. */
  ghost predicate AgreeThroughout(a: Account, rows: seq<Row>, key: string)
  {
    forall n :: 0 <= n <= |rows| ==> AverageAgrees(a, rows[..n], key)
  }

  /** Row `n` does not pull the averages apart: no fill, nothing offset before it, or a fill at the average. */
  ghost predicate Harmless(a: Account, rows: seq<Row>, key: string, n: nat)
    requires n < |rows|
  {
    Contributes(SquareOffPlan, a, rows[n], key) ==>
      OneSided(a, rows[..n], key) || rows[n].avgFillPrice == AveragePrice(Net(SquareOffPlan, a, rows[..n], key))
  }

  lemma RowAgrees(a: Account, rows: seq<Row>, key: string, n: nat)
    requires n < |rows| && AverageAgrees(a, rows[..n], key)
    ensures AverageAgrees(a, rows[..n + 1], key) <==> Harmless(a, rows, key, n)
  {
    assert rows[..n + 1] == rows[..n] + [rows[n]];
    hide Net, Summary, SummaryNet, SummaryAverage, OneSided, AveragePrice;
    if Contributes(SquareOffPlan, a, rows[n], key) {
      StepAgrees(a, rows[..n], rows[n], key);
    } else {
      SummarySnoc(a, rows[..n], rows[n], key);
      NetSnoc(SquareOffPlan, a, rows[..n], rows[n], key);
      PlusZero(Net(SquareOffPlan, a, rows[..n], key));
    }
  }

  lemma NothingAgrees(a: Account, key: string)
    ensures AverageAgrees(a, [], key)
  {
  }

  lemma {:induction false} AgreesUpTo(a: Account, rows: seq<Row>, key: string, n: nat)
    requires n <= |rows| && forall i :: 0 <= i < n ==> Harmless(a, rows, key, i)
    ensures AverageAgrees(a, rows[..n], key)
  {
    hide AverageAgrees, Harmless;
    if n == 0 {
      assert rows[..0] == [];
      NothingAgrees(a, key);
    } else {
      AgreesUpTo(a, rows, key, n - 1);
      RowAgrees(a, rows, key, n - 1);
    }
  }

  /**
   The running average of the summary equals the volume-weighted price of the plan at every point of a
   table if and only if every fill comes while nothing has been offset or at the average so far.
   */
  lemma AveragesAgreeThroughout(a: Account, rows: seq<Row>, key: string)
    ensures AgreeThroughout(a, rows, key) <==> forall n :: 0 <= n < |rows| ==> Harmless(a, rows, key, n)
  {
    hide AverageAgrees, Harmless;
    if AgreeThroughout(a, rows, key) {
      forall n | 0 <= n < |rows| ensures Harmless(a, rows, key, n) {
        RowAgrees(a, rows, key, n);
      }
    }
    if forall n :: 0 <= n < |rows| ==> Harmless(a, rows, key, n) {
      forall n | 0 <= n <= |rows| ensures AverageAgrees(a, rows[..n], key) {
        AgreesUpTo(a, rows, key, n);
      }
    }
  }

  /** The same rows at other prices. */
  ghost predicate Repriced(rows: seq<Row>, other: seq<Row>)
  {
    |rows| == |other| && forall i :: 0 <= i < |rows| ==> other[i] == rows[i].(avgFillPrice := other[i].avgFillPrice)
  }

  ghost predicate AgreeAtAnyPrices(a: Account, rows: seq<Row>, key: string)
  {
    forall other :: Repriced(rows, other) ==> AverageAgrees(a, other, key)
  }

  lemma RepricedSide(a: Account, rows: seq<Row>, other: seq<Row>, key: string)
    requires Repriced(rows, other)
    ensures OneSided(a, rows, key) <==> OneSided(a, other, key)
  {
    hide KeyOf, IsSell, IsFilledStatus;
    forall i | 0 <= i < |rows|
      ensures Contributes(SquareOffPlan, a, rows[i], key) == Contributes(SquareOffPlan, a, other[i], key)
      ensures Signed(SquareOffPlan, rows[i]) == Signed(SquareOffPlan, other[i])
    {
      RepricedKey(a, rows[i], other[i]);
    }
  }

  lemma RepricedKey(a: Account, r: Row, s: Row)
    requires s == r.(avgFillPrice := s.avgFillPrice)
    ensures KeyOf(a, r) == KeyOf(a, s)
  {
  }

  lemma OneSidedAgrees(a: Account, rows: seq<Row>, key: string)
    requires OneSided(a, rows, key)
    ensures AverageAgrees(a, rows, key)
  {
    hide AverageAgrees, Contributes, Signed;
    forall n | 0 <= n < |rows| ensures Harmless(a, rows, key, n) {
      assert forall i :: 0 <= i < n ==> rows[..n][i] == rows[i];
    }
    hide Harmless, OneSided;
    AgreesUpTo(a, rows, key, |rows|);
    assert rows[..|rows|] == rows;
  }

  function Free(rows: seq<Row>): (other: seq<Row>)
    ensures |other| == |rows| && forall i :: 0 <= i < |rows| ==> other[i] == rows[i].(avgFillPrice := 0.0)
  {
    seq(|rows|, i requires 0 <= i < |rows| => rows[i].(avgFillPrice := 0.0))
  }

  /** At price zero both averages are zero. */
  lemma {:induction false} FreeAverages(a: Account, rows: seq<Row>, key: string)
    requires forall i :: 0 <= i < |rows| ==> rows[i].avgFillPrice == 0.0
    ensures Net(SquareOffPlan, a, rows, key).value == 0.0 && SummaryAverage(a, rows, key) == 0.0
  {
    if rows != [] {
      var front, r := rows[..|rows| - 1], rows[|rows| - 1];
      assert rows == front + [r];
      FreeAverages(a, front, key);
      hide Summary, SummaryNet, SummaryAverage, Net;
      SummarySnoc(a, front, r, key);
      NetSnoc(SquareOffPlan, a, front, r, key);
      hide Contributes, Signed;
      FreeStep(SummaryNet(a, front, key), Signed(SquareOffPlan, r), r.filledQty);
    }
  }

  lemma FreeStep(net: int, signed: int, q: int)
    ensures NextAverage(net, 0.0, signed, 0.0) == 0.0 && 0.0 * q as real == 0.0
  {
    TimesUnit(AbsInt(net) as real);
    TimesUnit(AbsInt(signed) as real);
  }

  /**
   For a table that ends with a fill under the key: the averages agree whatever the prices if and only
   if all fills before the last one were on one side.
   */
  lemma AveragesAgreeAtAnyPrices(a: Account, rows: seq<Row>, r: Row, key: string)
    requires Contributes(SquareOffPlan, a, r, key)
    ensures AgreeAtAnyPrices(a, rows + [r], key) <==> OneSided(a, rows, key)
  {
    hide AverageAgrees, OneSided, Contributes;
    if OneSided(a, rows, key) {
      forall other | Repriced(rows + [r], other) ensures AverageAgrees(a, other, key) {
        LastFillAgrees(a, rows, r, other, key);
      }
    }
    if AgreeAtAnyPrices(a, rows + [r], key) {
      var front, last := Free(rows), r.(avgFillPrice := 1.0);
      assert AverageAgrees(a, front + [last], key);
      RepricedSide(a, rows, front, key);
      FreeThenDear(a, front, r, key);
    }
  }

  lemma LastFillAgrees(a: Account, rows: seq<Row>, r: Row, other: seq<Row>, key: string)
    requires OneSided(a, rows, key) && Contributes(SquareOffPlan, a, r, key) && Repriced(rows + [r], other)
    ensures AverageAgrees(a, other, key)
  {
    hide AverageAgrees, OneSided;
    var front, last := other[..|rows|], other[|rows|];
    assert other == front + [last];
    RepricedSide(a, rows, front, key);
    OneSidedAgrees(a, front, key);
    RepricedKey(a, r, last);
    hide KeyOf;
    StepAgrees(a, front, last, key);
  }

  lemma FreeThenDear(a: Account, front: seq<Row>, r: Row, key: string)
    requires forall i :: 0 <= i < |front| ==> front[i].avgFillPrice == 0.0
    requires Contributes(SquareOffPlan, a, r, key)
    ensures AverageAgrees(a, front + [r.(avgFillPrice := 1.0)], key) <==> OneSided(a, front, key)
  {
    var last := r.(avgFillPrice := 1.0);
    FreeAverages(a, front, key);
    RepricedKey(a, r, last);
    hide OneSided, KeyOf, Summary, SummaryAverage, Net;
    assert AveragePrice(Net(SquareOffPlan, a, front, key)) == 0.0;
    StepAgrees(a, front, last, key);
  }

  const SAMPLE := Account("T", "NIFTY")

  function SampleFill(side: string, price: real): Row
  {
    Row("i", "i", "T", side, 1, price, "FILLED", 1, 0, price, "BUILD", "NIFTY", "CE", 7)
  }

  /** What one more sample fill does to both readings. */
  lemma AddSample(rows: seq<Row>, side: string, price: real)
    requires side == "BUY" || side == "SELL"
    ensures
      var key, more := Key("NIFTY", "CE", 7), rows + [SampleFill(side, price)];
      var signed := if side == "SELL" then -1 else 1;
      && SummaryNet(SAMPLE, more, key) == SummaryNet(SAMPLE, rows, key) + signed
      && SummaryAverage(SAMPLE, more, key)
        == NextAverage(SummaryNet(SAMPLE, rows, key), SummaryAverage(SAMPLE, rows, key), signed, price)
      && Net(SquareOffPlan, SAMPLE, more, key) == Plus(Net(SquareOffPlan, SAMPLE, rows, key), Totals(signed, price, 1))
  {
    var key := Key("NIFTY", "CE", 7);
    hide Key, Net, Summary, SummaryNet, SummaryAverage, NextAverage;
    CanonicalSide(SquareOffPlan, side);
    SummarySnoc(SAMPLE, rows, SampleFill(side, price), key);
    NetSnoc(SquareOffPlan, SAMPLE, rows, SampleFill(side, price), key);
  }

  /** One lot bought at 100, sold at 200 and bought at 300: the summary shows 300, the plan 200. */
  lemma OffsetAverageDisagrees()
    ensures
      var rows := [SampleFill("BUY", 100.0), SampleFill("SELL", 200.0), SampleFill("BUY", 300.0)];
      var key := Key("NIFTY", "CE", 7);
      SummaryAverage(SAMPLE, rows, key) == 300.0 && AveragePrice(Net(SquareOffPlan, SAMPLE, rows, key)) == 200.0
  {
    hide Key, Net, Summary, SummaryNet, SummaryAverage, SampleFill, NextAverage;
    var x, y, z := SampleFill("BUY", 100.0), SampleFill("SELL", 200.0), SampleFill("BUY", 300.0);
    assert "BUY" != "SELL" by { assert |"BUY"| != |"SELL"|; }
    NothingHeld(Key("NIFTY", "CE", 7));
    AddSample([], "BUY", 100.0);
    AddSample([x], "SELL", 200.0);
    AddSample([x, y], "BUY", 300.0);
    SampleMixes();
    assert [] + [x] == [x] && [x] + [y] == [x, y] && [x, y] + [z] == [x, y, z];
  }

  lemma NothingHeld(key: string)
    ensures SummaryNet(SAMPLE, [], key) == 0 && SummaryAverage(SAMPLE, [], key) == 0.0
    ensures Net(SquareOffPlan, SAMPLE, [], key) == ZERO
  {
  }

  lemma SampleMixes()
    ensures NextAverage(0, 0.0, 1, 100.0) == 100.0 && NextAverage(1, 100.0, -1, 200.0) == 150.0
    ensures NextAverage(0, 150.0, 1, 300.0) == 300.0
  {
  }
}
