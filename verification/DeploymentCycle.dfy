/**
 A whole trade: the chunker's plan, its build through a broker, and the square-off of what the order
 table then shows.
 */
module DeploymentCycle {
  import opened BuildExecutor
  import opened BuildProperties
  import opened ChunkerProperties
  import opened Deployment
  import opened Lifecycle
  import opened Netting
  import opened OrderChunker
  import opened OrderTable
  import opened Sequences
  import ShortIds
  import SquareOff

  /** Every fill of the build was reported for exactly the quantity of its order. */
  ghost predicate FillsAreExact(log: seq<Submission>)
  {
    forall i :: 0 <= i < |log| && WasFilled(log[i]) ==> log[i].reply.filledQty == log[i].order.quantity
  }

  /** The position under which the fills of a line are netted. */
  function LineKey(a: Account, line: Line): string
  {
    Key(if line.symbol == "" then a.symbol else line.symbol, line.optionType, line.token)
  }

  function Under(a: Account, key: string, sold: bool): Line -> bool
  {
    (line: Line) => LineKey(a, line) == key && IsSell(SquareOffIntents, line.action) == sold
  }

  /** What the legs of a position buy, less what they sell. */
  function NetDemand(a: Account, legs: seq<LegData>, key: string): int
  {
    Demand(legs, Under(a, key, false)) - Demand(legs, Under(a, key, true))
  }

  function NetQuantity(a: Account, orders: seq<ExecOrder>, key: string): int
  {
    Quantity(orders, Under(a, key, false)) - Quantity(orders, Under(a, key, true))
  }

  lemma NetQuantitySnoc(a: Account, orders: seq<ExecOrder>, o: ExecOrder, key: string)
    ensures NetQuantity(a, orders + [o], key) == NetQuantity(a, orders, key) + NetQuantity(a, [o], key)
  {
    hide Quantity;
    QuantityConcat(orders, [o], Under(a, key, false));
    QuantityConcat(orders, [o], Under(a, key, true));
  }

  lemma NetQuantityOne(a: Account, o: ExecOrder, key: string)
    ensures NetQuantity(a, [o], key) ==
      if LineKey(a, LineOf(o)) != key then 0 else if IsSell(SquareOffIntents, o.action) then -o.quantity else o.quantity
  {
    hide Quantity, LineKey, IsSell;
    OneOrder(o, Under(a, key, false));
    OneOrder(o, Under(a, key, true));
  }

  // ---------------------------------------------------------------------------------------
  // The rows of a successful build
  // ---------------------------------------------------------------------------------------

  /** A row that shows an order of the trade filled for its whole quantity. */
  predicate ShowsFill(a: Account, row: Row, o: ExecOrder)
  {
    && row.tradeUid == a.tradeUid && IsFilledStatus(row.status) && row.filledQty == o.quantity > 0
    && row.side == o.action && row.symbol == o.symbol && row.legType == o.optionType && row.token == o.token > 0
  }

  lemma FillNets(a: Account, row: Row, o: ExecOrder, key: string)
    requires ShowsFill(a, row, o)
    ensures RowTotals(SquareOffIntents, a, row, key).net == NetQuantity(a, [o], key)
  {
    hide Key, IsSell, Quantity, IsFilledStatus, NetQuantity;
    NetQuantityOne(a, o, key);
  }

  lemma {:induction false} FillsNet(a: Account, rows: seq<Row>, orders: seq<ExecOrder>, key: string)
    requires |rows| == |orders| && forall i :: 0 <= i < |rows| ==> ShowsFill(a, rows[i], orders[i])
    ensures Net(SquareOffIntents, a, rows, key).net == NetQuantity(a, orders, key)
  {
    if rows != [] {
      var n := |rows| - 1;
      FillsNet(a, rows[..n], orders[..n], key);
      hide ShowsFill, RowTotals, NetQuantity;
      assert orders == orders[..n] + [orders[n]];
      FillNets(a, rows[n], orders[n], key);
      NetQuantitySnoc(a, orders[..n], orders[n], key);
    }
  }

  lemma SettledRow(log: seq<Submission>, t: Trade, a: Account, row: Row, k: nat, m: nat)
    requires k < |log| && RowFor(row, log, k, t) && SettledAt(log, log[k].order, m)
    requires FillsAreExact(log) && log[k].order.quantity > 0 && log[k].order.token > 0 && a.tradeUid == t.tradeUid
    ensures ShowsFill(a, row, log[k].order)
  {
    StandingAt(log, m);
    hide StandingOf;
  }

  /** The orders that the new rows of a successful build show as filled, row by row. */
  lemma {:induction false} OrdersOfRows(b: Broker, t: Trade, chunks: seq<seq<ExecOrder>>, a: Account, rows: seq<Row>)
      returns (orders: seq<ExecOrder>)
    requires PlanDistinct(chunks) && Build(b, t, chunks).failure.None? && FillsAreExact(Build(b, t, chunks).log)
    requires a.tradeUid == t.tradeUid && PositiveTokens(chunks)
    requires forall i :: 0 <= i < |rows| ==> FromLog(rows[i], Build(b, t, chunks).log, t)
    ensures |orders| == |rows|
    ensures forall i :: 0 <= i < |rows| ==>
      ShowsFill(a, rows[i], orders[i]) && rows[i].intentId == orders[i].uid && InLog(Build(b, t, chunks).log, orders[i])
  {
    orders := [];
    if rows != [] {
      var n := |rows| - 1;
      hide Build, PlanDistinct, PositiveTokens, FillsAreExact, FromLog, ShowsFill, InLog;
      var front := OrdersOfRows(b, t, chunks, a, rows[..n]);
      var o := OrderOfRow(b, t, chunks, a, rows[n]);
      orders := front + [o];
    }
  }

  ghost predicate InLog(log: seq<Submission>, o: ExecOrder)
  {
    exists k :: 0 <= k < |log| && log[k].order == o
  }

  ghost predicate PositiveTokens(chunks: seq<seq<ExecOrder>>)
  {
    forall c, o :: 0 <= c < |chunks| && o in chunks[c] ==> o.token > 0
  }

  lemma OrderOfRow(b: Broker, t: Trade, chunks: seq<seq<ExecOrder>>, a: Account, row: Row) returns (o: ExecOrder)
    requires PlanDistinct(chunks) && Build(b, t, chunks).failure.None? && FillsAreExact(Build(b, t, chunks).log)
    requires a.tradeUid == t.tradeUid && PositiveTokens(chunks) && FromLog(row, Build(b, t, chunks).log, t)
    ensures ShowsFill(a, row, o) && row.intentId == o.uid && InLog(Build(b, t, chunks).log, o)
  {
    hide Build, PlanDistinct, FillsAreExact, ShowsFill, SettledAt, StandingOf;
    var log := Build(b, t, chunks).log;
    var k :| 0 <= k < |log| && RowFor(row, log, k, t);
    o := log[k].order;
    var c := PlannedIn(b, t, chunks, k);
    var m := SettledOrder(b, t, chunks, k);
    SettledRow(log, t, a, row, k, m);
  }

  lemma PlannedIn(b: Broker, t: Trade, chunks: seq<seq<ExecOrder>>, k: nat) returns (c: nat)
    requires PlanDistinct(chunks) && k < |Build(b, t, chunks).log|
    ensures c < |chunks| && Build(b, t, chunks).log[k].order in chunks[c]
  {
    hide Build, PlanDistinct, RetriesOnly, OpenIsLast, Barrier, Genuine;
    BuildIsOk(b, t, chunks);
    c := Build(b, t, chunks).log[k].chunk;
  }

  /** The new rows show the planned orders, each once. */
  lemma RowsShowPlan(rows0: seq<Row>, b: Broker, t: Trade, chunks: seq<seq<ExecOrder>>, rows: seq<Row>,
                     orders: seq<ExecOrder>)
    requires PlanDistinct(chunks) && DistinctOrders(Flatten(chunks)) && Build(b, t, chunks).failure.None?
    requires SameOrders(Build(b, t, chunks).log) && RowsMatch(rows0, rows, Build(b, t, chunks).log, t)
    requires |orders| == |rows| - |rows0|
    requires forall i :: 0 <= i < |orders| ==>
      rows[|rows0| + i].intentId == orders[i].uid && InLog(Build(b, t, chunks).log, orders[i])
    ensures multiset(orders) == multiset(Flatten(chunks))
  {
    hide Build, PlanDistinct, Flatten, FromLog, DistinctOrders;
    var log := Build(b, t, chunks).log;
    forall x | x in orders ensures x in Flatten(chunks) {
      var k :| 0 <= k < |log| && log[k].order == x;
      var c := PlannedIn(b, t, chunks, k);
      FlattenMember(chunks, c, x);
    }
    forall x | x in Flatten(chunks) ensures x in orders {
      var k := PlannedIsLogged(b, t, chunks, x);
      RowShowsOrder(rows0, rows, log, t, orders, k);
    }
    DistinctUidsNoDuplicates(Flatten(chunks));
    SameElements(orders, Flatten(chunks));
  }

  lemma PlannedIsLogged(b: Broker, t: Trade, chunks: seq<seq<ExecOrder>>, x: ExecOrder) returns (k: nat)
    requires PlanDistinct(chunks) && Build(b, t, chunks).failure.None? && x in Flatten(chunks)
    ensures k < |Build(b, t, chunks).log| && Build(b, t, chunks).log[k].order == x
  {
    hide Build, PlanDistinct, Flatten;
    var c := FlattenOrigin(chunks, x);
    BuiltMeansFilledExactlyOnce(b, t, chunks, c, x);
    k :| SettledAt(Build(b, t, chunks).log, x, k);
  }

  lemma RowShowsOrder(rows0: seq<Row>, rows: seq<Row>, log: seq<Submission>, t: Trade, orders: seq<ExecOrder>, k: nat)
    requires SameOrders(log) && RowsMatch(rows0, rows, log, t) && |orders| == |rows| - |rows0| && k < |log|
    requires forall i :: 0 <= i < |orders| ==> rows[|rows0| + i].intentId == orders[i].uid && InLog(log, orders[i])
    ensures log[k].order in orders
  {
    hide FromLog;
    assert HasNewRow(rows0, rows, log[k].order.uid);
    var i :| |rows0| <= i < |rows| && rows[i].intentId == log[k].order.uid;
    var o := orders[i - |rows0|];
    assert rows[|rows0| + (i - |rows0|)].intentId == o.uid && InLog(log, o);
    var j :| 0 <= j < |log| && log[j].order == o;
  }

  lemma OtherTrades(a: Account, rows: seq<Row>, key: string)
    requires forall i :: 0 <= i < |rows| ==> rows[i].tradeUid != a.tradeUid
    ensures Net(SquareOffIntents, a, rows, key) == ZERO
  {
    hide Net;
    NoContribution(SquareOffIntents, a, rows, key);
  }

  /** After a successful build with exact fills, every position nets to the planned orders under its key. */
  lemma BuildNets(rows0: seq<Row>, b: Broker, t: Trade, chunks: seq<seq<ExecOrder>>, a: Account, key: string)
    requires DistinctOrders(Flatten(chunks)) && PositiveTokens(chunks) && FreshPlan(rows0, chunks, t)
    requires Build(b, t, chunks).failure.None? && FillsAreExact(Build(b, t, chunks).log) && a.tradeUid == t.tradeUid
    ensures Net(SquareOffIntents, a, Replay(rows0, Build(b, t, chunks).log), key).net ==
      NetQuantity(a, Flatten(chunks), key)
  {
    hide Build, Replay, Net, PlanDistinct, PositiveTokens, FillsAreExact, Flatten, FromLog, ShowsFill, InLog;
    hide SameOrders;
    hide Quantity, DistinctOrders, FreshPlan, RowsMatch;
    DistinctAcrossChunks(chunks);
    BuildMatches(rows0, b, t, chunks);
    var log := Build(b, t, chunks).log;
    var rows := Replay(rows0, log);
    var added := AddedRows(rows0, rows, log, t);
    var orders := OrdersOfRows(b, t, chunks, a, added);
    RowsShowPlan(rows0, b, t, chunks, rows, orders);
    QuantityPermutation(orders, Flatten(chunks), Under(a, key, false));
    QuantityPermutation(orders, Flatten(chunks), Under(a, key, true));
    FillsNet(a, added, orders, key);
    OtherTrades(a, rows0, key);
    NetConcat(SquareOffIntents, a, rows0, added, key);
  }

  lemma BuildMatches(rows0: seq<Row>, b: Broker, t: Trade, chunks: seq<seq<ExecOrder>>)
    requires PlanDistinct(chunks) && FreshPlan(rows0, chunks, t)
    ensures var log := Build(b, t, chunks).log; SameOrders(log) && RowsMatch(rows0, Replay(rows0, log), log, t)
    ensures forall i :: 0 <= i < |rows0| ==> rows0[i].tradeUid != t.tradeUid
  {
    BuildLogIsFresh(rows0, b, t, chunks);
    hide Build, Replay, PlanDistinct, SameOrders, RowsMatch, Genuine;
    ReplayMatches(rows0, Build(b, t, chunks).log, t);
  }

  lemma AddedRows(rows0: seq<Row>, rows: seq<Row>, log: seq<Submission>, t: Trade) returns (added: seq<Row>)
    requires RowsMatch(rows0, rows, log, t)
    ensures rows == rows0 + added && forall i :: 0 <= i < |added| ==> FromLog(added[i], log, t)
  {
    hide FromLog;
    added := rows[|rows0|..];
  }

  lemma PlanTokensPositive(j: Job, legs: seq<LegData>)
    requires j.per >= 1 && LegsOk(legs)
    ensures PositiveTokens(Plan(j, legs))
  {
    hide Plan, Flatten;
    PlanOrders(j, legs);
    var plan := Plan(j, legs);
    forall c, o: ExecOrder | 0 <= c < |plan| && o in plan[c] ensures o.token > 0 {
      FlattenMember(plan, c, o);
      var i :| 0 <= i < |Flatten(plan)| && Flatten(plan)[i] == o;
      TokenOfOrder(legs, j.per, o);
    }
  }

  lemma TokenOfOrder(legs: seq<LegData>, per: int, o: ExecOrder)
    requires LegsOk(legs) && OrderOf(legs, per, o)
    ensures o.token > 0
  {
  }

  /**
   After a successful build of a chunked plan whose fills were reported exactly, for any broker, the
   square-off nets every position to exactly what the legs of the deployment buy less what they sell.
   */
  lemma DeploymentNets(rows0: seq<Row>, b: Broker, t: Trade, j: Job, legs: seq<LegData>, a: Account, key: string)
    requires j.per >= 1 && LegsOk(legs) && FreshPlan(rows0, Plan(j, legs), t) && a.tradeUid == t.tradeUid
    requires var r := Build(b, t, Plan(j, legs)); r.failure.None? && FillsAreExact(r.log)
    ensures Net(SquareOffIntents, a, Replay(rows0, Build(b, t, Plan(j, legs)).log), key).net == NetDemand(a, legs, key)
  {
    hide Plan, Build, Replay, Net, FreshPlan, FillsAreExact, Flatten, Quantity, Demand, DistinctOrders, PositiveTokens;
    PlanUidsDistinct(j, legs);
    PlanTokensPositive(j, legs);
    BuildNets(rows0, b, t, Plan(j, legs), a, key);
    PlanConserves(j, legs, Under(a, key, false));
    PlanConserves(j, legs, Under(a, key, true));
  }

  // ---------------------------------------------------------------------------------------
  // Squaring off what was deployed
  // ---------------------------------------------------------------------------------------

  /** A table that shows exactly the demand of these legs for an account. */
  ghost predicate ShowsDemand(a: Account, rows: seq<Row>, legs: seq<LegData>)
  {
    forall k :: Net(SquareOffIntents, a, rows, k).net == NetDemand(a, legs, k)
  }

  /** A square-off of such a table creates one order for every key with demand, and it undoes that demand. */
  lemma SquareOffUndoesDemand(a: Account, rows: seq<Row>, legs: seq<LegData>, p: map<string, Position>,
                              keys: seq<string>, created: seq<Intent>, stamp: string)
    requires ShowsDemand(a, rows, legs) && Accounts(SquareOffIntents, a, rows, p)
    requires SquareOff.Closing(a, p, keys, created, stamp)
    ensures |created| == |keys| && forall k :: k in keys <==> NetDemand(a, legs, k) != 0
    ensures forall i :: 0 <= i < |keys| ==>
      var demand := NetDemand(a, legs, keys[i]);
      if demand < 0 then created[i].side == "BUY" && created[i].quantity == -demand
      else created[i].side == "SELL" && created[i].quantity == demand
  {
    hide Net, NetDemand, Opened, KeyOf, Included, Key, SquareOff.ExpectedPrice;
    forall k ensures k in keys <==> NetDemand(a, legs, k) != 0 {
      assert Net(SquareOffIntents, a, rows, k).net == NetDemand(a, legs, k);
      if k !in p {
        UnseenKey(SquareOffIntents, a, rows, p, k);
      }
    }
    assert forall i :: 0 <= i < |keys| ==> keys[i] in keys;
  }

  predicate AllSold(legs: seq<LegData>)
  {
    forall i :: 0 <= i < |legs| ==> legs[i].action == "SELL"
  }

  function UnderKey(a: Account, key: string): Line -> bool
  {
    (line: Line) => LineKey(a, line) == key
  }

  /** When every leg sells, as in a short straddle, the net demand under a key is minus all its demand. */
  lemma {:induction false} SoldDemand(a: Account, legs: seq<LegData>, key: string)
    requires AllSold(legs)
    ensures NetDemand(a, legs, key) == -Demand(legs, UnderKey(a, key))
  {
    if legs != [] {
      assert forall i :: 0 <= i < |legs[1..]| ==> legs[1..][i] == legs[i + 1];
      SoldDemand(a, legs[1..], key);
      CanonicalSide(SquareOffIntents, "SELL");
    }
  }

  lemma {:induction false} DemandNeedsLeg(a: Account, legs: seq<LegData>, key: string)
    requires NetDemand(a, legs, key) != 0
    ensures exists l :: 0 <= l < |legs| && LineKey(a, LegLine(legs[l])) == key
  {
    hide LineKey, IsSell;
    if legs != [] && LineKey(a, LegLine(legs[0])) != key {
      DemandNeedsLeg(a, legs[1..], key);
      var l :| 0 <= l < |legs[1..]| && LineKey(a, LegLine(legs[1..][l])) == key;
      assert legs[l + 1] == legs[1..][l];
    }
  }

  lemma {:induction false} NoMoreThan<T>(xs: seq<T>, ys: seq<T>)
    requires NoDuplicates(xs) && forall x :: x in xs ==> x in ys
    ensures |xs| <= |ys|
  {
    if xs != [] {
      assert xs[0] in ys && forall x :: x in xs[1..] ==> x in xs;
      var k :| 0 <= k < |ys| && ys[k] == xs[0];
      var rest := ys[..k] + ys[k + 1..];
      forall x | x in xs[1..] ensures x in rest {
        assert x in ys;
        var i :| 0 <= i < |ys| && ys[i] == x;
        assert i != k;
        assert if i < k then rest[i] == x else rest[i - 1] == x;
      }
      NoMoreThan(xs[1..], rest);
    }
  }

  function LegKeys(a: Account, legs: seq<LegData>): (keys: seq<string>)
    ensures |keys| == |legs| && forall l :: 0 <= l < |legs| ==> keys[l] == LineKey(a, LegLine(legs[l]))
  {
    seq(|legs|, l requires 0 <= l < |legs| => LineKey(a, LegLine(legs[l])))
  }

  lemma AtMostOneOrderPerLeg(a: Account, legs: seq<LegData>, keys: seq<string>)
    requires NoDuplicates(keys) && forall k :: k in keys ==> NetDemand(a, legs, k) != 0
    ensures |keys| <= |legs|
  {
    hide NetDemand, LineKey;
    forall k | k in keys ensures k in LegKeys(a, legs) {
      DemandNeedsLeg(a, legs, k);
      var l :| 0 <= l < |legs| && LineKey(a, LegLine(legs[l])) == k;
      assert LegKeys(a, legs)[l] == k;
    }
    NoMoreThan(keys, LegKeys(a, legs));
  }

  predicate LegsOfSymbol(legs: seq<LegData>, symbol: string)
  {
    forall l :: 0 <= l < |legs| ==> legs[l].symbol == symbol
  }

  lemma SymbolOfOrder(legs: seq<LegData>, per: int, o: ExecOrder, symbol: string)
    requires OrderOf(legs, per, o) && LegsOfSymbol(legs, symbol)
    ensures o.symbol == symbol
  {
  }

  lemma PlannedSymbol(b: Broker, t: Trade, j: Job, legs: seq<LegData>, k: nat, symbol: string)
    requires j.per >= 1 && LegsOk(legs) && LegsOfSymbol(legs, symbol) && k < |Build(b, t, Plan(j, legs)).log|
    ensures Build(b, t, Plan(j, legs)).log[k].order.symbol == symbol
  {
    hide Plan, Build, Flatten, PlanDistinct, OrderOf, LegsOfSymbol;
    ChunkerPlansAreDistinct(j, legs);
    var plan := Plan(j, legs);
    var o := Build(b, t, plan).log[k].order;
    var c := PlannedIn(b, t, plan, k);
    FlattenMember(plan, c, o);
    PlanOrders(j, legs);
    var i :| 0 <= i < |Flatten(plan)| && Flatten(plan)[i] == o;
    SymbolOfOrder(legs, j.per, o, symbol);
  }

  lemma DeploymentKeepsSymbol(rows0: seq<Row>, b: Broker, t: Trade, j: Job, legs: seq<LegData>, a: Account)
    requires j.per >= 1 && LegsOk(legs) && FreshPlan(rows0, Plan(j, legs), t) && a.tradeUid == t.tradeUid
    requires LegsOfSymbol(legs, a.symbol)
    ensures SquareOff.OwnSymbol(a, Replay(rows0, Build(b, t, Plan(j, legs)).log))
  {
    hide Plan, Build, Replay, FreshPlan, PlanDistinct, LegsOfSymbol, RowsMatch, SameOrders;
    ChunkerPlansAreDistinct(j, legs);
    var plan := Plan(j, legs);
    BuildMatches(rows0, b, t, plan);
    var log := Build(b, t, plan).log;
    var rows := Replay(rows0, log);
    var added := AddedRows(rows0, rows, log, t);
    forall i | 0 <= i < |rows| && Included(SquareOffIntents, a, rows[i]) ensures SymbolOf(a, rows[i]) == a.symbol {
      if i >= |rows0| {
        assert FromLog(added[i - |rows0|], log, t);
        var k :| 0 <= k < |log| && RowFor(rows[i], log, k, t);
        PlannedSymbol(b, t, j, legs, k, a.symbol);
      }
    }
  }

  /**
   A deployment of at most ten legs whose build succeeds with exact fills, squared off by orders that
   are all reported filled: the trade is closed, and it is flat if and only if the closing fills
   were exact too.
   */
  lemma CycleEndsFlat(rows0: seq<Row>, b: Broker, t: Trade, j: Job, legs: seq<LegData>, a: Account, rows: seq<Row>,
                      p: map<string, Position>, keys: seq<string>, stamp: string, o: SquareOff.Outcome)
    requires j.per >= 1 && LegsOk(legs) && FreshPlan(rows0, Plan(j, legs), t) && a.tradeUid == t.tradeUid
    requires var r := Build(b, t, Plan(j, legs)); r.failure.None? && FillsAreExact(r.log)
    requires LegsOfSymbol(legs, a.symbol) && |legs| <= 10 && |stamp| == 12
    requires var built := Replay(rows0, Build(b, t, Plan(j, legs)).log);
      SquareOff.SquaredOff(a, built, rows, p, keys, stamp, o) && SquareOff.NovelIds(built, o.created)
    requires SquareOff.StatusAfter(o) == "CLOSED"
    ensures |o.replies| == |o.created| && (SquareOff.Flat(a, rows) <==> SquareOff.ExactFills(o.created, o.replies))
  {
    hide Plan, Build, Replay, FreshPlan, FillsAreExact, LegsOfSymbol, NetDemand, Net, SquareOff.NovelIds;
    hide SquareOff.OwnSymbol;
    hide SquareOff.Flat, SquareOff.ExactFills, SquareOff.CloseIntent, SquareOff.DistinctIntents;
    hide SquareOff.StatusAfter, Accounts;
    hide SquareOff.InsertAll, SquareOff.MarkAll;
    var built := Replay(rows0, Build(b, t, Plan(j, legs)).log);
    DeploymentKeepsSymbol(rows0, b, t, j, legs, a);
    forall k ensures Net(SquareOffIntents, a, built, k).net == NetDemand(a, legs, k) {
      DeploymentNets(rows0, b, t, j, legs, a, k);
    }
    SquareOffUndoesDemand(a, built, legs, p, keys, o.created, stamp);
    AtMostOneOrderPerLeg(a, legs, keys);
    SquareOff.TenLegsAreDistinct(a, p, keys, o.created, stamp);
    SquareOff.ClosedTradeIsFlat(a, built, rows, p, keys, stamp, o);
  }

  // ---------------------------------------------------------------------------------------
  // The status refresh after a square-off
  // ---------------------------------------------------------------------------------------

  predicate IsStamp(stamp: string)
  {
    |stamp| == 12 && forall i :: 0 <= i < 12 ==> '0' <= stamp[i] <= '9'
  }

  /** A short identifier looks like one of a build exactly when its symbol's code does. */
  lemma ShortUidBuilds(symbol: string, leg: string, stamp: string, n: nat)
    requires IsStamp(stamp) && |leg| == 3
    ensures "BUI" < ShortIds.ShortUid(symbol, leg, stamp, n) <==> ShortIds.SymbolCode(symbol) == "BUI"
  {
    ShortIds.ShortUidForm(symbol, leg, stamp, n);
    hide ShortIds.SymbolCode, ShortIds.ShortUid, ShortIds.Kept, Text.ToUpper;
    var code := ShortIds.SymbolCode(symbol);
    var id := ShortIds.ShortUid(symbol, leg, stamp, n);
    assert id[..|code|] == code && id[|code|] == stamp[0];
    assert "BUI"[0] == 'B' && "BUI"[1] == 'U' && "BUI"[2] == 'I';
  }

  /** A closing order counts as part of the build exactly when the code of the trade's symbol is BUI. */
  lemma ClosingRowCounted(a: Account, p: map<string, Position>, keys: seq<string>, ts: seq<Intent>, stamp: string,
                          replies: seq<Reply>, i: nat)
    requires SquareOff.Closing(a, p, keys, ts, stamp) && IsStamp(stamp) && |replies| <= |ts| && i < |ts|
    ensures PartOfBuild(SquareOff.ClosingRows(ts, replies)[i], a.tradeUid) <==> ShortIds.SymbolCode(a.symbol) == "BUI"
  {
    hide SquareOff.OpenKeys, SquareOff.ExpectedPrice, ShortIds.ShortUid, ShortIds.SymbolCode;
    var leg := ShortIds.LegCode(p[keys[i]].legType);
    ShortUidBuilds(a.symbol, leg, stamp, i);
    ShortUidBuilds(a.symbol, leg, stamp, i + 100);
    assert |Text.ToUpper("SQF")| == 3;
    ShortUidNotEmpty(a.symbol, leg, stamp, i + 100);
  }

  lemma ShortUidNotEmpty(symbol: string, leg: string, stamp: string, n: nat)
    requires IsStamp(stamp) && |leg| == 3
    ensures ShortIds.ShortUid(symbol, leg, stamp, n) != ""
  {
    hide ShortIds.SymbolCode, ShortIds.ShortUid, ShortIds.Kept;
    ShortIds.ShortUidForm(symbol, leg, stamp, n);
  }

  /** For all other symbols, a square-off leaves the refreshed status of its trade alone. */
  lemma RefreshIgnoresSquareOff(a: Account, rows: seq<Row>, p: map<string, Position>, keys: seq<string>,
                                ts: seq<Intent>,
                                stamp: string, replies: seq<Reply>)
    requires SquareOff.Closing(a, p, keys, ts, stamp) && IsStamp(stamp) && |replies| <= |ts|
    requires ShortIds.SymbolCode(a.symbol) != "BUI"
    ensures Refresh(rows + SquareOff.ClosingRows(ts, replies), a.tradeUid) == Refresh(rows, a.tradeUid)
  {
    hide SquareOff.Closing, SquareOff.ClosingRows, Refresh, PartOfBuild, ShowsFull, ShowsOpen, ShowsUnknown;
    var closing := SquareOff.ClosingRows(ts, replies);
    RefreshReads(rows, a.tradeUid);
    RefreshReads(rows + closing, a.tradeUid);
    forall r | r in closing ensures !PartOfBuild(r, a.tradeUid) {
      var i :| 0 <= i < |closing| && closing[i] == r;
      ClosingRowCounted(a, p, keys, ts, stamp, replies, i);
    }
  }
}
