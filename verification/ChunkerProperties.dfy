/** What every plan of the chunker contains and how it is ordered. */
module ChunkerProperties {
  import opened OrderChunker
  import opened OrderTable
  import opened Rounding
  import opened Sequences
  import opened Text

  // ---------------------------------------------------------------------------------------
  // Interleaving is a permutation
  // ---------------------------------------------------------------------------------------

  function Tail<T>(xs: seq<T>, i: nat): seq<T>
  {
    if i <= |xs| then xs[i..] else []
  }

  function Tails<T>(lists: seq<seq<T>>, i: nat): seq<T>
  {
    if lists == [] then [] else Tail(lists[0], i) + Tails(lists[1..], i)
  }

  lemma {:induction false} RoundTakesHeads<T>(lists: seq<seq<T>>, i: nat)
    ensures multiset(RoundOf(lists, i)) + multiset(Tails(lists, i + 1)) == multiset(Tails(lists, i))
  {
    if lists != [] {
      RoundTakesHeads(lists[1..], i);
      var l := lists[0];
      if i < |l| {
        assert l[i..] == [l[i]] + l[i + 1..];
        assert Tail(l, i) == [l[i]] + Tail(l, i + 1);
      }
    }
  }

  lemma {:induction false} NoTails<T>(lists: seq<seq<T>>, n: nat)
    requires n >= MaxLength(lists)
    ensures Tails(lists, n) == []
  {
    if lists != [] {
      NoTails(lists[1..], n);
    }
  }

  lemma {:induction false} TailsAreAll<T>(lists: seq<seq<T>>)
    ensures Tails(lists, 0) == Flatten(lists)
  {
    if lists != [] {
      TailsAreAll(lists[1..]);
      assert lists[0][0..] == lists[0];
    }
  }

  lemma {:induction false} RoundsPermute<T>(lists: seq<seq<T>>, i: nat, n: nat)
    requires i <= n && n >= MaxLength(lists)
    ensures multiset(RoundsFrom(lists, i, n)) == multiset(Tails(lists, i))
    decreases n - i
  {
    hide RoundOf, Tails, MaxLength;
    if i == n {
      NoTails(lists, n);
    } else {
      RoundsPermute(lists, i + 1, n);
      RoundTakesHeads(lists, i);
    }
  }

  lemma InterleavePermutes<T>(lists: seq<seq<T>>)
    ensures multiset(Interleave(lists)) == multiset(Flatten(lists))
  {
    hide RoundsFrom, Tails, Flatten, MaxLength;
    RoundsPermute(lists, 0, MaxLength(lists));
    TailsAreAll(lists);
  }

  // ---------------------------------------------------------------------------------------
  // Wave-major and leg-major order have the same contents
  // ---------------------------------------------------------------------------------------

  lemma ColumnCons<T>(w: seq<seq<T>>, ws: seq<seq<seq<T>>>, c: nat)
    requires c < |w| && forall l :: 0 <= l < |ws| ==> c < |ws[l]|
    ensures forall l :: 0 <= l < |[w] + ws| ==> c < |([w] + ws)[l]|
    ensures Column([w] + ws, c) == [w[c]] + Column(ws, c)
  {
  }

  /** All orders of waves `c` and later, wave by wave. */
  ghost function ColumnsFrom<T>(ws: seq<seq<seq<T>>>, c: nat): multiset<T>
    requires c <= WAVES && forall l :: 0 <= l < |ws| ==> |ws[l]| == WAVES
    decreases WAVES - c
  {
    if c == WAVES then multiset{} else multiset(Flatten(Column(ws, c))) + ColumnsFrom(ws, c + 1)
  }

  lemma {:induction false} ColumnsCons<T>(w: seq<seq<T>>, ws: seq<seq<seq<T>>>, c: nat)
    requires c <= WAVES && |w| == WAVES && forall l :: 0 <= l < |ws| ==> |ws[l]| == WAVES
    ensures forall l :: 0 <= l < |[w] + ws| ==> |([w] + ws)[l]| == WAVES
    ensures ColumnsFrom([w] + ws, c) == multiset(Flatten(w[c..])) + ColumnsFrom(ws, c)
    decreases WAVES - c
  {
    hide Flatten, Column;
    assert forall l :: 0 <= l < |[w] + ws| ==> |([w] + ws)[l]| == WAVES;
    if c < WAVES {
      ColumnsCons(w, ws, c + 1);
      ColumnCons(w, ws, c);
      FlattenCons(w[c], Column(ws, c));
      assert w[c..] == [w[c]] + w[c + 1..];
      FlattenCons(w[c], w[c + 1..]);
    } else {
      assert w[c..] == [];
      FlattenNil<T>();
    }
  }

  lemma {:induction false} NoColumns<T>(c: nat)
    requires c <= WAVES
    ensures ColumnsFrom<T>([], c) == multiset{}
    decreases WAVES - c
  {
    if c < WAVES {
      NoColumns<T>(c + 1);
      assert Column<T>([], c) == [];
      FlattenNil<T>();
    }
  }

  lemma {:induction false} ColumnsTranspose<T>(ws: seq<seq<seq<T>>>)
    requires forall l :: 0 <= l < |ws| ==> |ws[l]| == WAVES
    ensures ColumnsFrom(ws, 0) == multiset(Flatten(Flatten(ws)))
  {
    hide ColumnsFrom, Flatten;
    if ws == [] {
      NoColumns<T>(0);
      FlattenNil<seq<T>>();
      FlattenNil<T>();
    } else {
      var w, rest := ws[0], ws[1..];
      assert ws == [w] + rest;
      ColumnsTranspose(rest);
      ColumnsCons(w, rest, 0);
      assert w[0..] == w;
      FlattenCons(w, rest);
      FlattenConcat(w, Flatten(rest));
    }
  }

  lemma {:induction false} MergedPermutes<T>(ws: seq<seq<seq<T>>>, c: nat)
    requires c <= WAVES && forall l :: 0 <= l < |ws| ==> |ws[l]| == WAVES
    ensures multiset(Flatten(MergedFrom(ws, c))) == ColumnsFrom(ws, c)
    decreases WAVES - c
  {
    hide Interleave, Flatten, Column;
    if c == WAVES {
      FlattenNil<T>();
    } else {
      MergedPermutes(ws, c + 1);
      InterleavePermutes(Column(ws, c));
      FlattenCons(Interleave(Column(ws, c)), MergedFrom(ws, c + 1));
    }
  }

  /** The plan is a rearrangement of the orders cut leg by leg. */
  lemma PlanPermutes(j: Job, legs: seq<LegData>)
    requires j.per >= 1 && LegsOk(legs)
    ensures multiset(Flatten(Plan(j, legs))) == multiset(Flatten(Flatten(AllWaves(j, legs, 0))))
  {
    hide AllWaves, MergedFrom, DropEmpty, Flatten, ColumnsFrom;
    var ws := AllWaves(j, legs, 0);
    DropEmptyFacts(MergedFrom(ws, 0));
    MergedPermutes(ws, 0);
    ColumnsTranspose(ws);
  }

  // ---------------------------------------------------------------------------------------
  // Identifiers
  // ---------------------------------------------------------------------------------------

  /** Orders numbered consecutively from `counter`. */
  ghost predicate CutFrom(j: Job, orders: seq<ExecOrder>, counter: nat)
  {
    Numbered(UidsOf(orders), j.prefix, j.timestamp + counter)
  }

  lemma CutConcat(j: Job, xs: seq<ExecOrder>, ys: seq<ExecOrder>, counter: nat)
    requires CutFrom(j, xs, counter) && CutFrom(j, ys, counter + |xs|)
    ensures CutFrom(j, xs + ys, counter)
  {
    hide Numbered;
    assert UidsOf(xs + ys) == UidsOf(xs) + UidsOf(ys);
    NumberedConcat(UidsOf(xs), UidsOf(ys), j.prefix, j.timestamp + counter);
  }

  lemma WaveCut(j: Job, leg: LegData, c: nat, counter: nat)
    requires j.per >= 1 && leg.totalLots >= 0
    ensures CutFrom(j, Wave(j, leg, c, counter), counter)
  {
    hide SliceLots, OrderUid;
  }

  lemma {:induction false} WavesCut(j: Job, leg: LegData, c: nat, counter: nat)
    requires j.per >= 1 && leg.totalLots >= 0 && c <= WAVES
    ensures CutFrom(j, Flatten(WavesFrom(j, leg, c, counter)), counter)
    decreases WAVES - c
  {
    hide Wave, WavesFrom, Flatten;
    if c == WAVES {
      WavesEnd(j, leg, counter);
      FlattenNil<ExecOrder>();
    } else {
      var wave := Wave(j, leg, c, counter);
      WavesStep(j, leg, c, counter);
      WaveCut(j, leg, c, counter);
      WavesCut(j, leg, c + 1, counter + |wave|);
      FlattenCons(wave, WavesFrom(j, leg, c + 1, counter + |wave|));
      CutConcat(j, wave, Flatten(WavesFrom(j, leg, c + 1, counter + |wave|)), counter);
    }
  }

  lemma {:induction false} AllCut(j: Job, legs: seq<LegData>, counter: nat)
    requires j.per >= 1 && LegsOk(legs)
    ensures CutFrom(j, Flatten(Flatten(AllWaves(j, legs, counter))), counter)
  {
    hide WavesFrom, Flatten, CutFrom;
    if legs == [] {
      FlattenNil<seq<ExecOrder>>();
      FlattenNil<ExecOrder>();
      NothingCut(j, counter);
    } else {
      var first := LegWaves(j, legs[0], counter);
      var c := counter + |Flatten(first)|;
      var rest := AllWaves(j, legs[1..], c);
      WavesCut(j, legs[0], 0, counter);
      AllCut(j, legs[1..], c);
      FlattenCons(first, rest);
      FlattenConcat(first, Flatten(rest));
      CutConcat(j, Flatten(first), Flatten(Flatten(rest)), counter);
    }
  }

  lemma NothingCut(j: Job, counter: nat)
    ensures CutFrom(j, [], counter)
  {
  }

  lemma DistinctPermutation(xs: seq<ExecOrder>, ys: seq<ExecOrder>)
    requires multiset(xs) == multiset(ys) && DistinctOrders(ys)
    ensures DistinctOrders(xs)
  {
    forall i, k | 0 <= i < k < |xs| ensures xs[i].uid != xs[k].uid {
      assert xs[i] in multiset(ys) && xs[k] in multiset(ys);
      var a :| 0 <= a < |ys| && ys[a] == xs[i];
      var b :| 0 <= b < |ys| && ys[b] == xs[k];
      assert xs[i] != xs[k] by {
        if xs[i] == xs[k] {
          TwiceInMultiset(xs, i, k);
          OnceInMultiset(ys, a);
        }
      }
    }
  }

  /** The identifiers of a plan are pairwise distinct. */
  lemma PlanUidsDistinct(j: Job, legs: seq<LegData>)
    requires j.per >= 1 && LegsOk(legs)
    ensures DistinctOrders(Flatten(Plan(j, legs)))
  {
    hide Plan, AllWaves, Flatten;
    PlanPermutes(j, legs);
    AllCut(j, legs, 0);
    var orders := Flatten(Flatten(AllWaves(j, legs, 0)));
    NumberedDistinct(UidsOf(orders), j.prefix, j.timestamp);
    assert DistinctOrders(orders);
    DistinctPermutation(Flatten(Plan(j, legs)), orders);
  }

  // ---------------------------------------------------------------------------------------
  // Quantities
  // ---------------------------------------------------------------------------------------

  /** What an order trades, apart from its number and size. */
  datatype Line = Line(token: int, symbol: string, optionType: string, action: string)

  function LineOf(o: ExecOrder): Line
  {
    Line(o.token, o.symbol, o.optionType, o.action)
  }

  function LegLine(leg: LegData): Line
  {
    Line(leg.token, leg.symbol, leg.optionType, leg.action)
  }

  /** Total quantity of the selected lines. */
  function Quantity(orders: seq<ExecOrder>, sel: Line -> bool): int
  {
    if orders == [] then 0 else
    (if sel(LineOf(orders[0])) then orders[0].quantity else 0) + Quantity(orders[1..], sel)
  }

  lemma {:induction false} QuantityConcat(xs: seq<ExecOrder>, ys: seq<ExecOrder>, sel: Line -> bool)
    ensures Quantity(xs + ys, sel) == Quantity(xs, sel) + Quantity(ys, sel)
  {
    if xs == [] {
      assert xs + ys == ys;
    } else {
      assert (xs + ys)[1..] == xs[1..] + ys;
      QuantityConcat(xs[1..], ys, sel);
    }
  }

  lemma {:induction false} QuantityRemove(xs: seq<ExecOrder>, k: nat, sel: Line -> bool)
    requires k < |xs|
    ensures Quantity(xs, sel)
         == (if sel(LineOf(xs[k])) then xs[k].quantity else 0) + Quantity(xs[..k] + xs[k + 1..], sel)
  {
    hide Quantity;
    QuantityConcat(xs[..k], xs[k + 1..], sel);
    QuantityConcat(xs[..k], [xs[k]] + xs[k + 1..], sel);
    QuantityConcat([xs[k]], xs[k + 1..], sel);
    OneOrder(xs[k], sel);
    assert xs == xs[..k] + ([xs[k]] + xs[k + 1..]);
  }

  lemma OneOrder(o: ExecOrder, sel: Line -> bool)
    ensures Quantity([o], sel) == if sel(LineOf(o)) then o.quantity else 0
  {
    assert [o][1..] == [];
  }

  lemma {:induction false} QuantityPermutation(xs: seq<ExecOrder>, ys: seq<ExecOrder>, sel: Line -> bool)
    requires multiset(xs) == multiset(ys)
    ensures Quantity(xs, sel) == Quantity(ys, sel)
  {
    if xs == [] {
      assert |multiset(ys)| == 0;
    } else {
      assert xs[0] in multiset(ys);
      var k :| 0 <= k < |ys| && ys[k] == xs[0];
      PermutationTail(xs, ys, k);
      QuantityPermutation(xs[1..], ys[..k] + ys[k + 1..], sel);
      QuantityRemove(ys, k, sel);
    }
  }

  function Sum(s: seq<int>): int
  {
    if s == [] then 0 else s[0] + Sum(s[1..])
  }

  lemma {:induction false} SliceLotsSum(lots: nat, per: int)
    requires per >= 1
    ensures Sum(SliceLots(lots, per)) == lots
  {
    if 0 < lots && lots >= per {
      SliceLotsSum(lots - per, per);
      assert SliceLots(lots, per)[1..] == SliceLots(lots - per, per);
    } else if 0 < lots {
      assert [lots as int][1..] == [];
    }
  }

  lemma {:induction false} MakeOrdersQuantity(j: Job, leg: LegData, lots: seq<int>, counter: nat, sel: Line -> bool)
    ensures Quantity(MakeOrders(j, leg, lots, counter), sel) == if sel(LegLine(leg)) then Sum(lots) * leg.lotSize else 0
  {
    hide OrderUid;
    if lots != [] {
      var rest := lots[1..];
      assert lots == [lots[0]] + rest;
      MakeOrdersCons(j, leg, lots[0], rest, counter);
      MakeOrdersQuantity(j, leg, rest, counter + 1, sel);
      hide MakeOrders;
      QuantityConcat([MakeOrder(j, leg, lots[0], counter)], MakeOrders(j, leg, rest, counter + 1), sel);
      OneOrder(MakeOrder(j, leg, lots[0], counter), sel);
      SumTimes(lots[0], Sum(rest), leg.lotSize);
    }
  }

  lemma SumTimes(a: int, b: int, k: int)
    ensures (a + b) * k == a * k + b * k
  {
  }

  lemma WaveQuantity(j: Job, leg: LegData, c: nat, counter: nat, sel: Line -> bool)
    requires j.per >= 1 && leg.totalLots >= 0
    ensures Quantity(Wave(j, leg, c, counter), sel)
         == if sel(LegLine(leg)) then WaveLots(leg.totalLots, c) * leg.lotSize else 0
  {
    hide MakeOrders, Quantity, WaveLots, SliceLots;
    SliceLotsSum(WaveLots(leg.totalLots, c), j.per);
    MakeOrdersQuantity(j, leg, SliceLots(WaveLots(leg.totalLots, c), j.per), counter, sel);
  }

  /** Lots of waves `c` and later. */
  function LotsFrom(total: nat, c: nat): nat
    requires c <= WAVES
    decreases WAVES - c
  {
    if c == WAVES then 0 else WaveLots(total, c) + LotsFrom(total, c + 1)
  }

  lemma {:induction false} LotsFromClosedForm(total: nat, c: nat)
    requires c <= WAVES
    ensures LotsFrom(total, c) == (WAVES - c) * (total / WAVES) + Max(0, total % WAVES - c)
    decreases WAVES - c
  {
    if c < WAVES {
      LotsFromClosedForm(total, c + 1);
      SumTimes(1, WAVES - c - 1, total / WAVES);
    }
  }

  lemma {:induction false} WavesQuantity(j: Job, leg: LegData, c: nat, counter: nat, sel: Line -> bool)
    requires j.per >= 1 && leg.totalLots >= 0 && c <= WAVES
    ensures Quantity(Flatten(WavesFrom(j, leg, c, counter)), sel)
         == if sel(LegLine(leg)) then LotsFrom(leg.totalLots, c) * leg.lotSize else 0
    decreases WAVES - c
  {
    hide Wave, WavesFrom, Flatten, Quantity, WaveLots;
    if c == WAVES {
      WavesEnd(j, leg, counter);
      FlattenNil<ExecOrder>();
      NoQuantity(sel);
    } else {
      var wave := Wave(j, leg, c, counter);
      var rest := WavesFrom(j, leg, c + 1, counter + |wave|);
      WavesStep(j, leg, c, counter);
      FlattenCons(wave, rest);
      QuantityConcat(wave, Flatten(rest), sel);
      WaveQuantity(j, leg, c, counter, sel);
      WavesQuantity(j, leg, c + 1, counter + |wave|, sel);
      SumTimes(WaveLots(leg.totalLots, c), LotsFrom(leg.totalLots, c + 1), leg.lotSize);
    }
  }

  lemma NoQuantity(sel: Line -> bool)
    ensures Quantity([], sel) == 0
  {
  }

  lemma LegQuantity(j: Job, leg: LegData, counter: nat, sel: Line -> bool)
    requires j.per >= 1 && leg.totalLots >= 0
    ensures Quantity(Flatten(LegWaves(j, leg, counter)), sel)
         == if sel(LegLine(leg)) then leg.totalLots * leg.lotSize else 0
  {
    hide WavesFrom, Flatten, Quantity;
    WavesQuantity(j, leg, 0, counter, sel);
    LotsFromClosedForm(leg.totalLots, 0);
  }

  /** The lots of a leg are spread evenly over the seven waves: earlier ones have as many as later ones or one more. */
  lemma WavesAreEven(total: nat, c: nat, d: nat)
    requires c <= d < 7
    ensures WaveLots(total, d) <= WaveLots(total, c) <= WaveLots(total, d) + 1
    ensures total >= 7 ==> WaveLots(total, d) >= 1
  {
  }

  /** What the legs of the selected lines ask for. */
  function Demand(legs: seq<LegData>, sel: Line -> bool): int
  {
    if legs == [] then 0 else
    (if sel(LegLine(legs[0])) then legs[0].totalLots * legs[0].lotSize else 0) + Demand(legs[1..], sel)
  }

  lemma {:induction false} AllQuantity(j: Job, legs: seq<LegData>, counter: nat, sel: Line -> bool)
    requires j.per >= 1 && LegsOk(legs)
    ensures Quantity(Flatten(Flatten(AllWaves(j, legs, counter))), sel) == Demand(legs, sel)
  {
    hide LegWaves, Flatten, Quantity;
    if legs == [] {
      FlattenNil<seq<ExecOrder>>();
      FlattenNil<ExecOrder>();
      NoQuantity(sel);
    } else {
      var first := LegWaves(j, legs[0], counter);
      var c := counter + |Flatten(first)|;
      var rest := AllWaves(j, legs[1..], c);
      LegQuantity(j, legs[0], counter, sel);
      AllQuantity(j, legs[1..], c, sel);
      FlattenCons(first, rest);
      FlattenConcat(first, Flatten(rest));
      QuantityConcat(Flatten(first), Flatten(Flatten(rest)), sel);
    }
  }

  /** The plan's quantity in any selection of lines is exactly what its legs ask for. */
  lemma PlanConserves(j: Job, legs: seq<LegData>, sel: Line -> bool)
    requires j.per >= 1 && LegsOk(legs)
    ensures Quantity(Flatten(Plan(j, legs)), sel) == Demand(legs, sel)
  {
    hide Plan, AllWaves, Flatten, Quantity, Demand;
    PlanPermutes(j, legs);
    QuantityPermutation(Flatten(Plan(j, legs)), Flatten(Flatten(AllWaves(j, legs, 0))), sel);
    AllQuantity(j, legs, 0, sel);
  }

  // ---------------------------------------------------------------------------------------
  // Order sizes
  // ---------------------------------------------------------------------------------------

  predicate SizedFor(leg: LegData, n: int, per: int, o: ExecOrder)
  {
    && 1 <= n <= per && o.quantity == n * leg.lotSize && LineOf(o) == LegLine(leg)
    && o.expectedPrice == leg.expectedPrice && o.exchangeSegment == leg.exchangeSegment
  }

  /** An order of one of the legs, of at most `per` lots. */
  ghost predicate OrderOf(legs: seq<LegData>, per: int, o: ExecOrder)
  {
    exists l, n :: 0 <= l < |legs| && SizedFor(legs[l], n, per, o)
  }

  ghost predicate OrdersOf(legs: seq<LegData>, per: int, orders: seq<ExecOrder>)
  {
    forall k :: 0 <= k < |orders| ==> OrderOf(legs, per, orders[k])
  }

  lemma OrdersOfConcat(legs: seq<LegData>, per: int, xs: seq<ExecOrder>, ys: seq<ExecOrder>)
    requires OrdersOf(legs, per, xs) && OrdersOf(legs, per, ys)
    ensures OrdersOf(legs, per, xs + ys)
  {
    hide OrderOf;
  }

  lemma WaveOrders(j: Job, legs: seq<LegData>, l: nat, c: nat, counter: nat)
    requires j.per >= 1 && LegsOk(legs) && l < |legs|
    ensures OrdersOf(legs, j.per, Wave(j, legs[l], c, counter))
  {
    hide OrderUid, WaveLots;
    var lots := SliceLots(WaveLots(legs[l].totalLots, c), j.per);
    var w := Wave(j, legs[l], c, counter);
    hide SliceLots;
    forall k | 0 <= k < |w| ensures OrderOf(legs, j.per, w[k]) {
      assert w[k] == MakeOrder(j, legs[l], lots[k], counter + k);
      assert SizedFor(legs[l], lots[k], j.per, w[k]);
    }
  }

  lemma {:induction false} WavesOrders(j: Job, legs: seq<LegData>, l: nat, c: nat, counter: nat)
    requires j.per >= 1 && LegsOk(legs) && l < |legs| && c <= WAVES
    ensures OrdersOf(legs, j.per, Flatten(WavesFrom(j, legs[l], c, counter)))
    decreases WAVES - c
  {
    hide Wave, WavesFrom, Flatten, OrderOf;
    if c == WAVES {
      WavesEnd(j, legs[l], counter);
      FlattenNil<ExecOrder>();
    } else {
      var wave := Wave(j, legs[l], c, counter);
      var rest := WavesFrom(j, legs[l], c + 1, counter + |wave|);
      WavesStep(j, legs[l], c, counter);
      WaveOrders(j, legs, l, c, counter);
      WavesOrders(j, legs, l, c + 1, counter + |wave|);
      FlattenCons(wave, rest);
      OrdersOfConcat(legs, j.per, wave, Flatten(rest));
    }
  }

  lemma {:induction false} AllOrders(j: Job, legs: seq<LegData>, k: nat, counter: nat)
    requires j.per >= 1 && LegsOk(legs) && k <= |legs|
    ensures OrdersOf(legs, j.per, Flatten(Flatten(AllWaves(j, legs[k..], counter))))
    decreases |legs| - k
  {
    hide WavesFrom, Flatten, OrdersOf;
    if k == |legs| {
      FlattenNil<seq<ExecOrder>>();
      FlattenNil<ExecOrder>();
      NoOrders(legs, j.per);
    } else {
      assert legs[k..][1..] == legs[k + 1..];
      var first := LegWaves(j, legs[k], counter);
      var c := counter + |Flatten(first)|;
      var rest := AllWaves(j, legs[k + 1..], c);
      WavesOrders(j, legs, k, 0, counter);
      AllOrders(j, legs, k + 1, c);
      FlattenCons(first, rest);
      FlattenConcat(first, Flatten(rest));
      OrdersOfConcat(legs, j.per, Flatten(first), Flatten(Flatten(rest)));
    }
  }

  lemma NoOrders(legs: seq<LegData>, per: int)
    ensures OrdersOf(legs, per, [])
  {
  }

  /** Every order of a plan belongs to a leg and has between one and `per` lots. */
  lemma PlanOrders(j: Job, legs: seq<LegData>)
    requires j.per >= 1 && LegsOk(legs)
    ensures OrdersOf(legs, j.per, Flatten(Plan(j, legs)))
  {
    hide Plan, AllWaves, Flatten, OrderOf;
    PlanPermutes(j, legs);
    AllOrders(j, legs, 0, 0);
    assert legs[0..] == legs;
    var xs, ys := Flatten(Plan(j, legs)), Flatten(Flatten(AllWaves(j, legs, 0)));
    forall k | 0 <= k < |xs| ensures OrderOf(legs, j.per, xs[k]) {
      assert xs[k] in multiset(ys);
    }
  }

  /** With one lot size, no order exceeds the broker's limit, except that a single lot is always allowed. */
  lemma PlanWithinLimit(prefix: string, timestamp: nat, legs: seq<LegData>, baseLots: int, maxOrderQty: int,
                        perCall: int)
    requires legs != [] && LegsOk(legs) && maxOrderQty > 0
    requires forall l :: 0 <= l < |legs| ==> legs[l].lotSize == legs[0].lotSize
    ensures
      var per := LotsPerOrder(legs[0].lotSize, baseLots, maxOrderQty, perCall);
      var flat := Flatten(Plan(Job(prefix, timestamp, per), legs));
      forall k :: 0 <= k < |flat| ==> 0 < flat[k].quantity <= Max(maxOrderQty, legs[0].lotSize)
  {
    hide LotsPerOrder, Plan, Flatten, OrderOf;
    var per := LotsPerOrder(legs[0].lotSize, baseLots, maxOrderQty, perCall);
    var j := Job(prefix, timestamp, per);
    PlanOrders(j, legs);
    var flat := Flatten(Plan(j, legs));
    forall k | 0 <= k < |flat| ensures 0 < flat[k].quantity <= Max(maxOrderQty, legs[0].lotSize) {
      OrderWithin(legs, per, flat[k], maxOrderQty);
    }
  }

  lemma OrderWithin(legs: seq<LegData>, per: int, o: ExecOrder, maxOrderQty: int)
    requires legs != [] && LegsOk(legs) && OrderOf(legs, per, o)
    requires forall l :: 0 <= l < |legs| ==> legs[l].lotSize == legs[0].lotSize
    requires per == 1 || per * legs[0].lotSize <= maxOrderQty
    ensures 0 < o.quantity <= Max(maxOrderQty, legs[0].lotSize)
  {
    var l, n :| 0 <= l < |legs| && SizedFor(legs[l], n, per, o);
    LotsWithin(n, per, legs[0].lotSize);
  }

  lemma LotsWithin(n: int, per: int, lot: int)
    requires 1 <= n <= per && lot > 0
    ensures 0 < n * lot <= per * lot
  {
  }

  // ---------------------------------------------------------------------------------------
  // Number of chunks
  // ---------------------------------------------------------------------------------------

  function MaxLots(legs: seq<LegData>): (m: int)
    ensures m >= 0 && forall l :: 0 <= l < |legs| ==> legs[l].totalLots <= m
  {
    if legs == [] then 0 else Max(legs[0].totalLots, MaxLots(legs[1..]))
  }

  lemma {:induction false} MaxLotsAttained(legs: seq<LegData>, c: nat)
    requires c < MaxLots(legs)
    ensures exists l :: 0 <= l < |legs| && c < legs[l].totalLots
  {
    if legs != [] && c >= legs[0].totalLots {
      MaxLotsAttained(legs[1..], c);
      var l :| 0 <= l < |legs[1..]| && c < legs[1..][l].totalLots;
      assert legs[l + 1] == legs[1..][l];
    }
  }

  ghost predicate IsWave(j: Job, leg: LegData, c: nat, w: seq<ExecOrder>)
    requires j.per >= 1 && leg.totalLots >= 0
  {
    exists counter :: w == Wave(j, leg, c, counter)
  }

  lemma {:induction false} WavesFromAt(j: Job, leg: LegData, c: nat, counter: nat, d: nat)
    requires j.per >= 1 && leg.totalLots >= 0 && c <= d < WAVES
    ensures IsWave(j, leg, d, WavesFrom(j, leg, c, counter)[d - c])
    decreases d - c
  {
    hide Wave, WavesFrom;
    WavesStep(j, leg, c, counter);
    if c < d {
      WavesFromAt(j, leg, c + 1, counter + |Wave(j, leg, c, counter)|, d);
    }
  }

  lemma {:induction false} AllWavesAt(j: Job, legs: seq<LegData>, counter: nat, l: nat, c: nat)
    requires j.per >= 1 && LegsOk(legs) && l < |legs| && c < WAVES
    ensures IsWave(j, legs[l], c, AllWaves(j, legs, counter)[l][c])
  {
    hide WavesFrom, IsWave;
    if l == 0 {
      WavesFromAt(j, legs[0], 0, counter, c);
    } else {
      AllWavesAt(j, legs[1..], counter + |Flatten(LegWaves(j, legs[0], counter))|, l - 1, c);
    }
  }

  lemma WaveEmptyIff(j: Job, leg: LegData, c: nat, w: seq<ExecOrder>)
    requires j.per >= 1 && leg.totalLots >= 0 && c < WAVES && IsWave(j, leg, c, w)
    ensures w == [] <==> c >= leg.totalLots
  {
    hide SliceLots;
    var counter :| w == Wave(j, leg, c, counter);
    var lots := WaveLots(leg.totalLots, c);
    assert |w| == |SliceLots(lots, j.per)|;
  }

  lemma {:induction false} FlattenEmptyIff<T>(lists: seq<seq<T>>)
    ensures Flatten(lists) == [] <==> forall l :: 0 <= l < |lists| ==> lists[l] == []
  {
    if lists != [] {
      FlattenEmptyIff(lists[1..]);
      assert forall l :: 0 < l < |lists| ==> lists[l] == lists[1..][l - 1];
      if l :| 0 <= l < |lists[1..]| && lists[1..][l] != [] {
        assert lists[l + 1] != [];
      }
    }
  }

  lemma {:induction false} MergedAt<T>(ws: seq<seq<seq<T>>>, c: nat, d: nat)
    requires c <= d < WAVES && forall l :: 0 <= l < |ws| ==> |ws[l]| == WAVES
    ensures |MergedFrom(ws, c)| == WAVES - c && MergedFrom(ws, c)[d - c] == Interleave(Column(ws, d))
    decreases WAVES - c
  {
    hide Interleave, Column;
    if c + 1 < WAVES {
      MergedAt(ws, c + 1, if c < d then d else c + 1);
    } else {
      assert MergedFrom(ws, c + 1) == [];
    }
  }

  /** There are as many chunks as the largest leg has lots, at most seven; chunk `c` merges wave `c` of every leg. */
  lemma PlanShape(j: Job, legs: seq<LegData>)
    requires j.per >= 1 && LegsOk(legs)
    ensures |Plan(j, legs)| == Min(7, MaxLots(legs))
    ensures forall c :: 0 <= c < |Plan(j, legs)| ==> Plan(j, legs)[c] == Interleave(Column(AllWaves(j, legs, 0), c))
  {
    hide AllWaves, Interleave, MergedFrom, DropEmpty, Column, MaxLots;
    var ws := AllWaves(j, legs, 0);
    var merged := MergedFrom(ws, 0);
    var m := Min(WAVES, MaxLots(legs));
    MergedAt(ws, 0, 0);
    forall c | 0 <= c < WAVES
      ensures merged[c] == Interleave(Column(ws, c)) && (merged[c] == [] <==> c >= m)
    {
      MergedAt(ws, 0, c);
      WaveMergedEmptyIff(j, legs, c);
    }
    DropEmptyPrefix(merged, m);
  }

  lemma WaveMergedEmptyIff(j: Job, legs: seq<LegData>, c: nat)
    requires j.per >= 1 && LegsOk(legs) && c < WAVES
    ensures Interleave(Column(AllWaves(j, legs, 0), c)) == [] <==> c >= MaxLots(legs)
  {
    hide AllWaves, Interleave, Flatten, IsWave, MaxLots;
    var ws := AllWaves(j, legs, 0);
    var lists := Column(ws, c);
    InterleavePermutes(lists);
    assert |multiset(Interleave(lists))| == |Interleave(lists)| && |multiset(Flatten(lists))| == |Flatten(lists)|;
    FlattenEmptyIff(lists);
    forall l | 0 <= l < |legs| ensures lists[l] == [] <==> c >= legs[l].totalLots {
      AllWavesAt(j, legs, 0, l, c);
      WaveEmptyIff(j, legs[l], c, lists[l]);
    }
    if c < MaxLots(legs) {
      MaxLotsAttained(legs, c);
    }
  }

  // ---------------------------------------------------------------------------------------
  // A chunk is an order-preserving, balanced merge
  // ---------------------------------------------------------------------------------------

  /** The elements of `s` that occur in `xs`, in their order in `s`. */
  function Restrict<T(==)>(s: seq<T>, xs: seq<T>): seq<T>
  {
    if s == [] then [] else (if s[0] in xs then [s[0]] else []) + Restrict(s[1..], xs)
  }

  lemma {:induction false} RestrictConcat<T>(s: seq<T>, t: seq<T>, xs: seq<T>)
    ensures Restrict(s + t, xs) == Restrict(s, xs) + Restrict(t, xs)
  {
    if s == [] {
      assert s + t == t;
    } else {
      assert (s + t)[1..] == s[1..] + t;
      RestrictConcat(s[1..], t, xs);
      AppendAssoc(if s[0] in xs then [s[0]] else [], Restrict(s[1..], xs), Restrict(t, xs));
    }
  }

  lemma {:induction false} RestrictNone<T>(s: seq<T>, xs: seq<T>)
    requires forall i :: 0 <= i < |s| ==> s[i] !in xs
    ensures Restrict(s, xs) == []
  {
    if s != [] {
      RestrictNone(s[1..], xs);
    }
  }

  lemma RestrictOne<T>(x: T, xs: seq<T>)
    requires x in xs
    ensures Restrict([x], xs) == [x]
  {
    assert [x][1..] == [];
  }

  lemma {:induction false} RoundOfConcat<T>(a: seq<seq<T>>, b: seq<seq<T>>, i: nat)
    ensures RoundOf(a + b, i) == RoundOf(a, i) + RoundOf(b, i)
  {
    if a == [] {
      assert a + b == b;
    } else {
      assert (a + b)[1..] == a[1..] + b;
      RoundOfConcat(a[1..], b, i);
      AppendAssoc(if i < |a[0]| then [a[0][i]] else [], RoundOf(a[1..], i), RoundOf(b, i));
    }
  }

  lemma {:induction false} RoundOfMembers<T>(lists: seq<seq<T>>, i: nat, k: nat)
    requires k < |RoundOf(lists, i)|
    ensures exists l :: 0 <= l < |lists| && i < |lists[l]| && lists[l][i] == RoundOf(lists, i)[k]
  {
    if lists != [] {
      var rest := lists[1..];
      if i < |lists[0]| && k == 0 {
        assert lists[0][i] == RoundOf(lists, i)[0];
      } else {
        var k' := if i < |lists[0]| then k - 1 else k;
        RoundOfMembers(rest, i, k');
        var l :| 0 <= l < |rest| && i < |rest[l]| && rest[l][i] == RoundOf(rest, i)[k'];
        assert lists[l + 1] == rest[l];
      }
    }
  }

  /** No element is in two lists, and none is twice in one. */
  ghost predicate Separate<T>(lists: seq<seq<T>>)
  {
    && (forall l :: 0 <= l < |lists| ==> NoDuplicates(lists[l]))
    && forall l, m, i :: 0 <= l < |lists| && 0 <= m < |lists| && l != m && 0 <= i < |lists[l]| ==>
      lists[l][i] !in lists[m]
  }

  /** A round contains exactly the `i`-th element of each list. */
  lemma RoundOfOwn<T>(lists: seq<seq<T>>, i: nat, l: nat)
    requires Separate(lists) && l < |lists|
    ensures Restrict(RoundOf(lists, i), lists[l]) == if i < |lists[l]| then [lists[l][i]] else []
  {
    hide RoundOf, Restrict;
    var a, x, b := lists[..l], lists[l], lists[l + 1..];
    assert lists == a + ([x] + b);
    RoundOfConcat(a, [x] + b, i);
    RoundOfConcat([x], b, i);
    OthersAbsent(lists, a, i, l);
    OthersAbsent(lists, b, i, l);
    RestrictConcat(RoundOf(a, i), RoundOf([x] + b, i), x);
    RestrictConcat(RoundOf([x], i), RoundOf(b, i), x);
    RoundOfSingle(x, i);
    if i < |x| {
      RestrictOne(x[i], x);
    } else {
      RestrictNone([], x);
    }
  }

  lemma RoundOfSingle<T>(x: seq<T>, i: nat)
    ensures RoundOf([x], i) == if i < |x| then [x[i]] else []
  {
    assert [x][1..] == [];
  }

  lemma OthersAbsent<T>(lists: seq<seq<T>>, some: seq<seq<T>>, i: nat, l: nat)
    requires Separate(lists) && l < |lists| && (some == lists[..l] || some == lists[l + 1..])
    ensures Restrict(RoundOf(some, i), lists[l]) == []
  {
    hide RoundOf, Restrict;
    var round := RoundOf(some, i);
    forall k | 0 <= k < |round| ensures round[k] !in lists[l] {
      RoundOfMembers(some, i, k);
      var m :| 0 <= m < |some| && i < |some[m]| && some[m][i] == round[k];
      if some == lists[..l] {
        assert some[m] == lists[m];
      } else {
        assert some[m] == lists[l + 1 + m];
      }
    }
    RestrictNone(round, lists[l]);
  }

  /** The rounds `i` to `n` of a list are its elements from `i` up to `n`. */
  lemma {:induction false} RoundsOwn<T>(lists: seq<seq<T>>, i: nat, n: nat, l: nat)
    requires Separate(lists) && l < |lists| && i <= n
    ensures Restrict(RoundsFrom(lists, i, n), lists[l]) == lists[l][Min(i, |lists[l]|)..Min(n, |lists[l]|)]
    decreases n - i
  {
    hide RoundOf, Separate;
    var x := lists[l];
    if i < n {
      RoundsOwn(lists, i + 1, n, l);
      RoundOfOwn(lists, i, l);
      hide Restrict;
      RestrictConcat(RoundOf(lists, i), RoundsFrom(lists, i + 1, n), x);
      if i < |x| {
        assert x[i..Min(n, |x|)] == [x[i]] + x[i + 1..Min(n, |x|)];
      }
    }
  }

  /** The elements of each list appear in the merge completely and in their order. */
  lemma InterleavePreservesOrder<T>(lists: seq<seq<T>>, l: nat)
    requires Separate(lists) && l < |lists|
    ensures Restrict(Interleave(lists), lists[l]) == lists[l]
  {
    hide RoundsFrom, Restrict, Separate;
    RoundsOwn(lists, 0, MaxLength(lists), l);
    assert lists[l][0..|lists[l]|] == lists[l];
  }

  /** Every prefix of the merge is some complete rounds and a beginning of the next one. */
  lemma {:induction false} PrefixIsRounds<T>(lists: seq<seq<T>>, i: nat, n: nat, k: nat) returns (r: nat, t: nat)
    requires i <= n && k <= |RoundsFrom(lists, i, n)|
    ensures i <= r <= n && t <= |RoundOf(lists, r)|
    ensures RoundsFrom(lists, i, n)[..k] == RoundsFrom(lists, i, r) + RoundOf(lists, r)[..t]
    decreases n - i
  {
    hide RoundOf;
    if i == n || k <= |RoundOf(lists, i)| {
      r, t := i, k;
      if i == n {
        assert k == 0;
      }
    } else {
      var round := RoundOf(lists, i);
      r, t := PrefixIsRounds(lists, i + 1, n, k - |round|);
      AppendAssoc(round, RoundsFrom(lists, i + 1, r), RoundOf(lists, r)[..t]);
      assert RoundsFrom(lists, i, n)[..k] == round + RoundsFrom(lists, i + 1, n)[..k - |round|];
    }
  }

  lemma RestrictPrefix<T>(s: seq<T>, t: nat, xs: seq<T>)
    requires t <= |s|
    ensures |Restrict(s[..t], xs)| <= |Restrict(s, xs)|
  {
    hide Restrict;
    assert s == s[..t] + s[t..];
    RestrictConcat(s[..t], s[t..], xs);
  }

  /** How many elements of list `l` a prefix of the merge contains. */
  function Progress<T(==)>(lists: seq<seq<T>>, k: nat, l: nat): nat
    requires k <= |Interleave(lists)| && l < |lists|
  {
    |Restrict(Interleave(lists)[..k], lists[l])|
  }

  lemma ProgressAt<T>(lists: seq<seq<T>>, k: nat, r: nat, t: nat, l: nat)
    requires Separate(lists) && l < |lists| && k <= |Interleave(lists)| && t <= |RoundOf(lists, r)|
    requires Interleave(lists)[..k] == RoundsFrom(lists, 0, r) + RoundOf(lists, r)[..t]
    ensures Min(r, |lists[l]|) <= Progress(lists, k, l) <= Min(r + 1, |lists[l]|)
  {
    hide RoundsFrom, RoundOf, Restrict, Interleave, Separate;
    var round := RoundOf(lists, r);
    RestrictConcat(RoundsFrom(lists, 0, r), round[..t], lists[l]);
    RoundsOwn(lists, 0, r, l);
    RestrictPrefix(round, t, lists[l]);
    RoundOfOwn(lists, r, l);
  }

  /** At every point of a chunk, any two legs that both have orders left differ by at most one order. */
  lemma LegsInStep<T>(lists: seq<seq<T>>, k: nat, l: nat, m: nat)
    requires Separate(lists) && l < |lists| && m < |lists| && k <= |Interleave(lists)|
    requires Progress(lists, k, l) < |lists[l]| && Progress(lists, k, m) < |lists[m]|
    ensures -1 <= Progress(lists, k, l) - Progress(lists, k, m) <= 1
  {
    var r, t := PrefixIsRounds(lists, 0, MaxLength(lists), k);
    hide Progress, RoundsFrom, RoundOf, Separate;
    ProgressAt(lists, k, r, t, l);
    ProgressAt(lists, k, r, t, m);
  }

  lemma {:induction false} SeparateLists<T>(lists: seq<seq<T>>)
    requires NoDuplicates(Flatten(lists))
    ensures Separate(lists)
  {
    hide Flatten;
    forall l | 0 <= l < |lists| ensures NoDuplicates(lists[l]) {
      FlattenSplit(lists, l);
      NoDuplicatesMiddle(Flatten(lists[..l]), lists[l], Flatten(lists[l + 1..]));
    }
    forall l, m, i | 0 <= l < |lists| && 0 <= m < |lists| && l != m && 0 <= i < |lists[l]|
      ensures lists[l][i] !in lists[m]
    {
      var a, b := if l < m then l else m, if l < m then m else l;
      FlattenSplit(lists, b);
      FlattenSplit(lists[..b], a);
      assert lists[..b][a] == lists[a];
      NoDuplicatesApart(Flatten(lists[..b][..a]), lists[a], Flatten(lists[..b][a + 1..]), lists[b],
        Flatten(lists[b + 1..]));
    }
  }

  lemma NoDuplicatesMiddle<T>(a: seq<T>, b: seq<T>, c: seq<T>)
    requires NoDuplicates(a + b + c)
    ensures NoDuplicates(b)
  {
    var s := a + b + c;
    forall i, j | 0 <= i < j < |b| ensures b[i] != b[j] {
      assert s[|a| + i] == b[i] && s[|a| + j] == b[j];
    }
  }

  lemma NoDuplicatesApart<T>(a: seq<T>, x: seq<T>, b: seq<T>, y: seq<T>, c: seq<T>)
    requires NoDuplicates((a + x + b) + y + c)
    ensures forall i :: 0 <= i < |x| ==> x[i] !in y
    ensures forall i :: 0 <= i < |y| ==> y[i] !in x
  {
    var s := (a + x + b) + y + c;
    forall i, j | 0 <= i < |x| && 0 <= j < |y| ensures x[i] != y[j] {
      assert s[|a| + i] == x[i] && s[|a + x + b| + j] == y[j];
    }
  }

  lemma PermutationNoDuplicates<T>(xs: seq<T>, ys: seq<T>)
    requires multiset(xs) == multiset(ys) && NoDuplicates(xs)
    ensures NoDuplicates(ys)
  {
    forall i, j | 0 <= i < j < |ys| ensures ys[i] != ys[j] {
      if ys[i] == ys[j] {
        TwiceInMultiset(ys, i, j);
        assert ys[i] in multiset(xs);
        var a :| 0 <= a < |xs| && xs[a] == ys[i];
        OnceInMultiset(xs, a);
      }
    }
  }

  /** The legs' contributions to a chunk are disjoint and free of duplicates. */
  lemma PlanLegsSeparate(j: Job, legs: seq<LegData>, c: nat)
    requires j.per >= 1 && LegsOk(legs) && c < |Plan(j, legs)|
    ensures Separate(Column(AllWaves(j, legs, 0), c))
  {
    PlanShape(j, legs);
    PlanUidsDistinct(j, legs);
    hide Plan, AllWaves, Interleave, Flatten, Column, Separate, MaxLots;
    var plan := Plan(j, legs);
    var lists := Column(AllWaves(j, legs, 0), c);
    FlattenSplit(plan, c);
    NoDuplicatesMiddle(Flatten(plan[..c]), plan[c], Flatten(plan[c + 1..]));
    InterleavePermutes(lists);
    PermutationNoDuplicates(plan[c], Flatten(lists));
    SeparateLists(lists);
  }

  /**
   Chunk `c` of a plan contains, for each leg, exactly the orders cut for wave `c` of that leg, in
   the order in which they were cut.
   */
  lemma ChunkMergesLegs(j: Job, legs: seq<LegData>, c: nat, l: nat)
    requires j.per >= 1 && LegsOk(legs) && c < |Plan(j, legs)| && l < |legs|
    ensures Restrict(Plan(j, legs)[c], AllWaves(j, legs, 0)[l][c]) == AllWaves(j, legs, 0)[l][c]
  {
    PlanLegsSeparate(j, legs, c);
    PlanShape(j, legs);
    hide Plan, AllWaves, Interleave, Separate, Restrict, MaxLots;
    InterleavePreservesOrder(Column(AllWaves(j, legs, 0), c), l);
  }

  /** Orders of leg `l` among the first `k` of chunk `c`, and all its orders in that chunk. */
  ghost function Submitted(j: Job, legs: seq<LegData>, c: nat, k: nat, l: nat): nat
    requires j.per >= 1 && LegsOk(legs) && c < |Plan(j, legs)| && k <= |Plan(j, legs)[c]| && l < |legs|
  {
    |Restrict(Plan(j, legs)[c][..k], AllWaves(j, legs, 0)[l][c])|
  }

  /** At every point of every chunk of a plan, two legs that both have orders left in it differ by at most one order. */
  lemma ChunkLegsInStep(j: Job, legs: seq<LegData>, c: nat, k: nat, l: nat, m: nat)
    requires j.per >= 1 && LegsOk(legs) && c < |Plan(j, legs)| && k <= |Plan(j, legs)[c]|
    requires l < |legs| && m < |legs|
    requires Submitted(j, legs, c, k, l) < |AllWaves(j, legs, 0)[l][c]|
    requires Submitted(j, legs, c, k, m) < |AllWaves(j, legs, 0)[m][c]|
    ensures -1 <= Submitted(j, legs, c, k, l) - Submitted(j, legs, c, k, m) <= 1
  {
    PlanLegsSeparate(j, legs, c);
    PlanShape(j, legs);
    hide Plan, AllWaves, Interleave, Separate, Restrict, MaxLots;
    LegsInStep(Column(AllWaves(j, legs, 0), c), k, l, m);
  }

  // ---------------------------------------------------------------------------------------
  // Leg risk of a straddle with equal legs
  // ---------------------------------------------------------------------------------------

  /** Orders alternate between two tokens, in pairs of equal quantity. */
  ghost predicate Paired(s: seq<ExecOrder>, a: int, b: int)
  {
    s != [] ==>
      |s| >= 2 && s[0].token == a && s[1].token == b && s[0].quantity == s[1].quantity && Paired(s[2..], a, b)
  }

  lemma {:induction false} PairedConcat(s: seq<ExecOrder>, t: seq<ExecOrder>, a: int, b: int)
    requires Paired(s, a, b) && Paired(t, a, b)
    ensures Paired(s + t, a, b)
  {
    if s == [] {
      assert s + t == t;
    } else {
      assert (s + t)[2..] == s[2..] + t;
      PairedConcat(s[2..], t, a, b);
    }
  }

  function OfToken(token: int): Line -> bool
  {
    (line: Line) => line.token == token
  }

  /** How far the second leg lags behind the first. */
  function Gap(s: seq<ExecOrder>, a: int, b: int): int
  {
    Quantity(s, OfToken(a)) - Quantity(s, OfToken(b))
  }

  lemma {:induction false} PairedPrefixGap(s: seq<ExecOrder>, a: int, b: int, k: nat)
    requires Paired(s, a, b) && a != b && k <= |s|
    ensures Gap(s[..k], a, b) == 0 || (k > 0 && s[k - 1].token == a && Gap(s[..k], a, b) == s[k - 1].quantity)
  {
    if k == 1 {
      assert s[..1] == [s[0]];
      OneOrder(s[0], OfToken(a));
      OneOrder(s[0], OfToken(b));
    } else if k >= 2 {
      PairedPrefixGap(s[2..], a, b, k - 2);
      var t := s[2..][..k - 2];
      assert s[..k] == [s[0]] + ([s[1]] + t);
      hide Quantity;
      forall x
        ensures Quantity(s[..k], OfToken(x))
          == Quantity([s[0]], OfToken(x)) + Quantity([s[1]], OfToken(x)) + Quantity(t, OfToken(x))
      {
        QuantityConcat([s[0]], [s[1]] + t, OfToken(x));
        QuantityConcat([s[1]], t, OfToken(x));
      }
      OneOrder(s[0], OfToken(a));
      OneOrder(s[0], OfToken(b));
      OneOrder(s[1], OfToken(a));
      OneOrder(s[1], OfToken(b));
      assert k > 2 ==> s[2..][k - 3] == s[k - 1];
    } else {
      assert s[..0] == [];
    }
  }

  /** Two lists of orders that match in size and quantity, one per token. */
  ghost predicate Matching(xs: seq<ExecOrder>, ys: seq<ExecOrder>, a: int, b: int)
  {
    && |xs| == |ys|
    && forall i :: 0 <= i < |xs| ==> xs[i].token == a && ys[i].token == b && xs[i].quantity == ys[i].quantity
  }

  lemma RoundOfTwo<T>(xs: seq<T>, ys: seq<T>, i: nat)
    requires i < |xs| && i < |ys|
    ensures RoundOf([xs, ys], i) == [xs[i], ys[i]]
  {
    assert [xs, ys][1..] == [ys];
    RoundOfSingle(ys, i);
  }

  lemma {:induction false} RoundsPaired(xs: seq<ExecOrder>, ys: seq<ExecOrder>, a: int, b: int, i: nat)
    requires Matching(xs, ys, a, b) && i <= |xs|
    ensures Paired(RoundsFrom([xs, ys], i, |xs|), a, b)
    decreases |xs| - i
  {
    hide RoundOf;
    if i < |xs| {
      RoundOfTwo(xs, ys, i);
      RoundsPaired(xs, ys, a, b, i + 1);
      assert Paired([xs[i], ys[i]], a, b) by {
        assert [xs[i], ys[i]][2..] == [];
      }
      hide Paired;
      PairedConcat([xs[i], ys[i]], RoundsFrom([xs, ys], i + 1, |xs|), a, b);
    }
  }

  lemma InterleavePaired(xs: seq<ExecOrder>, ys: seq<ExecOrder>, a: int, b: int)
    requires Matching(xs, ys, a, b)
    ensures Paired(Interleave([xs, ys]), a, b)
  {
    hide RoundsFrom, Paired;
    MaxLengthOfTwo(xs, ys);
    RoundsPaired(xs, ys, a, b, 0);
  }

  lemma MaxLengthOfTwo<T>(xs: seq<T>, ys: seq<T>)
    requires |xs| == |ys|
    ensures MaxLength([xs, ys]) == |xs|
  {
    assert [xs, ys][1..] == [ys] && [ys][1..] == [];
    assert MaxLength([ys]) == |ys|;
  }

  lemma WavesMatch(j: Job, x: LegData, y: LegData, c: nat, w: seq<ExecOrder>, v: seq<ExecOrder>)
    requires j.per >= 1 && x.totalLots == y.totalLots >= 0 && x.lotSize == y.lotSize
    requires IsWave(j, x, c, w) && IsWave(j, y, c, v)
    ensures Matching(w, v, x.token, y.token)
  {
    hide SliceLots, WaveLots, OrderUid;
    var p :| w == Wave(j, x, c, p);
    var q :| v == Wave(j, y, c, q);
  }

  lemma {:induction false} FlattenPaired(chunks: seq<seq<ExecOrder>>, a: int, b: int)
    requires forall c :: 0 <= c < |chunks| ==> Paired(chunks[c], a, b)
    ensures Paired(Flatten(chunks), a, b)
  {
    if chunks != [] {
      FlattenPaired(chunks[1..], a, b);
      PairedConcat(chunks[0], Flatten(chunks[1..]), a, b);
    }
  }

  lemma TwoWaves(j: Job, x: LegData, y: LegData, c: nat) returns (w: seq<ExecOrder>, v: seq<ExecOrder>)
    requires j.per >= 1 && LegOk(x) && LegOk(y) && x.totalLots == y.totalLots && x.lotSize == y.lotSize && c < WAVES
    ensures Column(AllWaves(j, [x, y], 0), c) == [w, v] && Matching(w, v, x.token, y.token)
  {
    hide AllWaves, IsWave, Matching;
    var legs := [x, y];
    var lists := Column(AllWaves(j, legs, 0), c);
    w, v := lists[0], lists[1];
    AllWavesAt(j, legs, 0, 0, c);
    AllWavesAt(j, legs, 0, 1, c);
    WavesMatch(j, x, y, c, w, v);
  }

  lemma ChunkPaired(j: Job, x: LegData, y: LegData, c: nat)
    requires j.per >= 1 && LegOk(x) && LegOk(y) && x.totalLots == y.totalLots && x.lotSize == y.lotSize
    requires c < |Plan(j, [x, y])|
    ensures Paired(Plan(j, [x, y])[c], x.token, y.token)
  {
    hide Plan, AllWaves, Interleave, Paired, IsWave, MaxLots, Column, Matching;
    var legs := [x, y];
    PlanShape(j, legs);
    var w, v := TwoWaves(j, x, y, c);
    InterleavePaired(w, v, x.token, y.token);
  }

  /**
   For two legs of equal size, at every point of the whole plan the quantities submitted so far are
   equal, or the first leg is ahead by exactly its last order.
   */
  lemma EqualLegsStayBalanced(j: Job, x: LegData, y: LegData, k: nat)
    requires j.per >= 1 && LegOk(x) && LegOk(y) && x.token != y.token
    requires x.totalLots == y.totalLots && x.lotSize == y.lotSize
    requires k <= |Flatten(Plan(j, [x, y]))|
    ensures
      var flat := Flatten(Plan(j, [x, y]));
      var gap := Gap(flat[..k], x.token, y.token);
      gap == 0 || (k > 0 && flat[k - 1].token == x.token && gap == flat[k - 1].quantity)
  {
    hide Plan, Paired, Flatten, Gap;
    var plan := Plan(j, [x, y]);
    forall c | 0 <= c < |plan| ensures Paired(plan[c], x.token, y.token) {
      ChunkPaired(j, x, y, c);
    }
    FlattenPaired(plan, x.token, y.token);
    PairedPrefixGap(Flatten(plan), x.token, y.token, k);
  }
}
