/**
 `GenerateChunkedOrders`: cuts each leg's lots into seven waves, slices every wave into orders, and
 interleaves the legs wave by wave.
 */
module OrderChunker {
  import opened OrderTable
  import opened Rounding
  import opened Sequences
  import opened Text

  datatype LegData = LegData(
    token: int, symbol: string, optionType: string, action: string, totalLots: int, lotSize: int,
    expectedPrice: real, exchangeSegment: string)

  datatype ChunkError =
    | InvalidChunkLotSize(lotSize: int)
    | InvalidMaxOrderQty(qty: int)
    | InvalidToken(token: int)
    | InvalidLegLotSize(token: int, lotSize: int)
    | InvalidTotalLots(token: int, lots: int)

  datatype ChunkResult = Chunks(chunks: seq<seq<ExecOrder>>) | Err(error: ChunkError)

  const WAVES := 7

  /** Lots per order: as asked for, or a hundredth of the base lots, within the broker's limit. */
  function LotsPerOrder(lotSize: int, baseLots: int, maxOrderQty: int, perCall: int): (n: int)
    requires lotSize > 0 && maxOrderQty > 0
    ensures 1 <= n && (n == 1 || n * lotSize <= maxOrderQty)
    ensures perCall > 0 ==> n <= perCall && (n == perCall || (n + 1) * lotSize > maxOrderQty)
    ensures perCall <= 0 && baseLots > 0 ==> 100 * (n - 1) < baseLots
    ensures perCall <= 0 && baseLots > 0 ==> 100 * n >= baseLots || (n + 1) * lotSize > maxOrderQty
    ensures perCall <= 0 && baseLots <= 0 ==> n == 1
  {
    var maxLots := Max(1, maxOrderQty / lotSize);
    var raw := if perCall > 0 then perCall else if baseLots > 0 then (baseLots + 99) / 100 else 1;
    var n := Min(raw, maxLots);
    WithinLimit(n, maxOrderQty, lotSize);
    BeyondLimit(maxLots, maxOrderQty, lotSize);
    if n <= 0 then 1 else n
  }

  lemma BeyondLimit(maxLots: int, maxOrderQty: int, lotSize: int)
    requires lotSize > 0 && maxOrderQty > 0 && maxLots == Max(1, maxOrderQty / lotSize)
    ensures (maxLots + 1) * lotSize > maxOrderQty
  {
    var q := maxOrderQty / lotSize;
    assert maxOrderQty == q * lotSize + maxOrderQty % lotSize;
    assert (q + 1) * lotSize == q * lotSize + lotSize;
    assert maxLots == q || (maxLots == 1 && q == 0);
  }

  lemma WithinLimit(n: int, maxOrderQty: int, lotSize: int)
    requires lotSize > 0 && maxOrderQty > 0 && n <= Max(1, maxOrderQty / lotSize)
    ensures n <= 1 || n * lotSize <= maxOrderQty
  {
    if n > 1 {
      var q := maxOrderQty / lotSize;
      assert n * lotSize <= q * lotSize <= maxOrderQty;
    }
  }

  /** The first thing wrong with a leg, if anything. */
  function LegError(leg: LegData): ChunkError
    requires !LegOk(leg)
  {
    if leg.token <= 0 then InvalidToken(leg.token)
    else if leg.lotSize <= 0 then InvalidLegLotSize(leg.token, leg.lotSize)
    else InvalidTotalLots(leg.token, leg.totalLots)
  }

  predicate LegOk(leg: LegData)
  {
    leg.token > 0 && leg.lotSize > 0 && leg.totalLots >= 0
  }

  predicate LegsOk(legs: seq<LegData>)
  {
    forall i :: 0 <= i < |legs| ==> LegOk(legs[i])
  }

  // ---------------------------------------------------------------------------------------
  // Waves and slices
  // ---------------------------------------------------------------------------------------

  function WaveLots(total: nat, c: nat): nat
  {
    total / WAVES + if c < total % WAVES then 1 else 0
  }

  /** Lots of the successive orders of a wave: full orders, then the remainder. */
  function SliceLots(lots: nat, per: int): (s: seq<int>)
    requires per >= 1
    ensures forall i :: 0 <= i < |s| ==> 1 <= s[i] <= per
    ensures |s| == 0 <==> lots == 0
    ensures forall i :: 0 <= i < |s| - 1 ==> s[i] == per
  {
    if lots == 0 then [] else if lots < per then [lots] else [per] + SliceLots(lots - per, per)
  }

  /** What every order of a call shares, with the leg-independent slice size. */
  datatype Job = Job(prefix: string, timestamp: nat, per: int)

  function MakeOrder(j: Job, leg: LegData, lots: int, counter: nat): ExecOrder
  {
    ExecOrder(OrderUid(j.prefix, j.timestamp + counter), leg.token, leg.symbol, leg.optionType, leg.action,
              lots * leg.lotSize, leg.expectedPrice, leg.exchangeSegment)
  }

  function MakeOrders(j: Job, leg: LegData, lots: seq<int>, counter: nat): (orders: seq<ExecOrder>)
    ensures |orders| == |lots|
    ensures forall i :: 0 <= i < |lots| ==> orders[i] == MakeOrder(j, leg, lots[i], counter + i)
  {
    seq(|lots|, i requires 0 <= i < |lots| => MakeOrder(j, leg, lots[i], counter + i))
  }

  function Wave(j: Job, leg: LegData, c: nat, counter: nat): seq<ExecOrder>
    requires j.per >= 1 && leg.totalLots >= 0
  {
    MakeOrders(j, leg, SliceLots(WaveLots(leg.totalLots, c), j.per), counter)
  }

  /** Waves `c` and later of one leg. */
  function WavesFrom(j: Job, leg: LegData, c: nat, counter: nat): (w: seq<seq<ExecOrder>>)
    requires j.per >= 1 && leg.totalLots >= 0 && c <= WAVES
    ensures |w| == WAVES - c
    decreases WAVES - c
  {
    if c == WAVES then [] else
    var wave := Wave(j, leg, c, counter);
    [wave] + WavesFrom(j, leg, c + 1, counter + |wave|)
  }

  function LegWaves(j: Job, leg: LegData, counter: nat): (w: seq<seq<ExecOrder>>)
    requires j.per >= 1 && leg.totalLots >= 0
    ensures |w| == WAVES
  {
    WavesFrom(j, leg, 0, counter)
  }

  /** The waves of all legs; order numbers run on from leg to leg. */
  function AllWaves(j: Job, legs: seq<LegData>, counter: nat): (ws: seq<seq<seq<ExecOrder>>>)
    requires j.per >= 1 && LegsOk(legs)
    ensures |ws| == |legs| && forall l :: 0 <= l < |ws| ==> |ws[l]| == WAVES
  {
    if legs == [] then [] else
    var first := LegWaves(j, legs[0], counter);
    [first] + AllWaves(j, legs[1..], counter + |Flatten(first)|)
  }

  // ---------------------------------------------------------------------------------------
  // Interleaving
  // ---------------------------------------------------------------------------------------

  /** The `i`-th element of every list that has one, in list order. */
  function RoundOf<T>(lists: seq<seq<T>>, i: nat): seq<T>
  {
    if lists == [] then [] else
    (if i < |lists[0]| then [lists[0][i]] else []) + RoundOf(lists[1..], i)
  }

  function MaxLength<T>(lists: seq<seq<T>>): (n: nat)
    ensures forall l :: 0 <= l < |lists| ==> |lists[l]| <= n
  {
    if lists == [] then 0 else Max(|lists[0]|, MaxLength(lists[1..]))
  }

  function RoundsFrom<T>(lists: seq<seq<T>>, i: nat, n: nat): seq<T>
    requires i <= n
    decreases n - i
  {
    if i == n then [] else RoundOf(lists, i) + RoundsFrom(lists, i + 1, n)
  }

  /** Round robin over the lists. */
  function Interleave<T>(lists: seq<seq<T>>): seq<T>
  {
    RoundsFrom(lists, 0, MaxLength(lists))
  }

  /** What each leg contributes to wave `c`. */
  function Column<T>(ws: seq<seq<seq<T>>>, c: nat): (lists: seq<seq<T>>)
    requires forall l :: 0 <= l < |ws| ==> c < |ws[l]|
    ensures |lists| == |ws| && forall l :: 0 <= l < |ws| ==> lists[l] == ws[l][c]
  {
    seq(|ws|, l requires 0 <= l < |ws| => ws[l][c])
  }

  function MergedFrom<T>(ws: seq<seq<seq<T>>>, c: nat): (merged: seq<seq<T>>)
    requires c <= WAVES && forall l :: 0 <= l < |ws| ==> |ws[l]| == WAVES
    ensures |merged| == WAVES - c
    decreases WAVES - c
  {
    if c == WAVES then [] else [Interleave(Column(ws, c))] + MergedFrom(ws, c + 1)
  }

  function Plan(j: Job, legs: seq<LegData>): (chunks: seq<seq<ExecOrder>>)
    requires j.per >= 1 && LegsOk(legs)
    ensures |chunks| <= WAVES
  {
    DropEmpty(MergedFrom(AllWaves(j, legs, 0), 0))
  }

  /** The result of a call: an error for the first thing found wrong, otherwise the plan. */
  ghost predicate Generated(prefix: string, timestamp: nat, legs: seq<LegData>, baseLots: int, maxOrderQty: int,
                            perCall: int, r: ChunkResult)
  {
    if legs == [] then r == Chunks([])
    else if legs[0].lotSize <= 0 then r == Err(InvalidChunkLotSize(legs[0].lotSize))
    else if maxOrderQty <= 0 then r == Err(InvalidMaxOrderQty(maxOrderQty))
    else if LegsOk(legs) then
      r == Chunks(Plan(Job(prefix, timestamp, LotsPerOrder(legs[0].lotSize, baseLots, maxOrderQty, perCall)), legs))
    else exists i :: 0 <= i < |legs| && LegsOk(legs[..i]) && !LegOk(legs[i]) && r == Err(LegError(legs[i]))
  }

  // ---------------------------------------------------------------------------------------
  // The loops
  // ---------------------------------------------------------------------------------------

  lemma MakeOrdersCons(j: Job, leg: LegData, n: int, lots: seq<int>, counter: nat)
    ensures MakeOrders(j, leg, [n] + lots, counter) == [MakeOrder(j, leg, n, counter)] +
      MakeOrders(j, leg, lots, counter + 1)
  {
    hide MakeOrder;
    var a, b := MakeOrders(j, leg, [n] + lots, counter), MakeOrders(j, leg, lots, counter + 1);
    forall i | 0 <= i < |a| ensures a[i] == ([MakeOrder(j, leg, n, counter)] + b)[i] {
      if i > 0 {
        assert b[i - 1] == MakeOrder(j, leg, lots[i - 1], counter + 1 + (i - 1));
      }
    }
  }

  lemma FullSlicesLeft(lots: nat, per: int, i: nat)
    requires per >= 1 && i <= lots / per
    ensures lots - i * per >= 0
    ensures i < lots / per ==> lots - i * per >= per && lots - (i + 1) * per == lots - i * per - per
    ensures i == lots / per ==> lots - i * per == lots % per < per
  {
    var q := lots / per;
    assert q * per + lots % per == lots;
    assert i * per <= q * per;
    if i < q {
      assert (i + 1) * per <= q * per;
    }
  }

  /** The slicing of one wave: full orders, then the remainder. */
  method SliceWave(j: Job, leg: LegData, lots: nat, start: nat) returns (orders: seq<ExecOrder>, counter: nat)
    requires j.per >= 1
    ensures orders == MakeOrders(j, leg, SliceLots(lots, j.per), start) && counter == start + |orders|
  {
    hide MakeOrder;
    orders, counter := [], start;
    ghost var left := lots;
    ghost var whole := MakeOrders(j, leg, SliceLots(lots, j.per), start);
    for i := 0 to lots / j.per
      invariant left == lots - i * j.per && left >= 0
      invariant counter == start + |orders|
      invariant orders + MakeOrders(j, leg, SliceLots(left, j.per), counter) == whole
    {
      FullSlicesLeft(lots, j.per, i);
      var o := MakeOrder(j, leg, j.per, counter);
      left := left - j.per;
      MakeOrdersCons(j, leg, j.per, SliceLots(left, j.per), counter);
      AppendAssoc(orders, [o], MakeOrders(j, leg, SliceLots(left, j.per), counter + 1));
      orders, counter := orders + [o], counter + 1;
    }
    FullSlicesLeft(lots, j.per, lots / j.per);
    var rem := lots % j.per;
    if rem > 0 {
      MakeOrdersCons(j, leg, rem, [], counter);
      assert [rem] + [] == [rem];
      orders, counter := orders + [MakeOrder(j, leg, rem, counter)], counter + 1;
    }
  }

  lemma LegWavesStart(j: Job, leg: LegData, start: nat)
    requires j.per >= 1 && leg.totalLots >= 0
    ensures [] + WavesFrom(j, leg, 0, start) == LegWaves(j, leg, start)
  {
  }

  lemma WavesStep(j: Job, leg: LegData, c: nat, counter: nat)
    requires j.per >= 1 && leg.totalLots >= 0 && c < WAVES
    ensures WavesFrom(j, leg, c, counter)
         == [Wave(j, leg, c, counter)] + WavesFrom(j, leg, c + 1, counter + |Wave(j, leg, c, counter)|)
  {
    hide Wave;
  }

  lemma WavesEnd(j: Job, leg: LegData, counter: nat)
    requires j.per >= 1 && leg.totalLots >= 0
    ensures WavesFrom(j, leg, WAVES, counter) == []
  {
  }

  /** The wave loop of one leg. */
  method CutLeg(j: Job, leg: LegData, start: nat) returns (waves: seq<seq<ExecOrder>>, counter: nat)
    requires j.per >= 1 && leg.totalLots >= 0
    ensures waves == LegWaves(j, leg, start) && counter == start + |Flatten(waves)|
  {
    hide SliceLots, MakeOrders, WaveLots, Flatten, LegWaves, WavesFrom;
    waves, counter := [], start;
    FlattenNil<ExecOrder>();
    LegWavesStart(j, leg, start);
    for c := 0 to WAVES
      invariant waves + WavesFrom(j, leg, c, counter) == LegWaves(j, leg, start)
      invariant counter == start + |Flatten(waves)|
    {
      var wave, next := SliceWave(j, leg, WaveLots(leg.totalLots, c), counter);
      WavesStep(j, leg, c, counter);
      AppendAssoc(waves, [wave], WavesFrom(j, leg, c + 1, next));
      FlattenAppend(waves, wave);
      waves, counter := waves + [wave], next;
    }
    WavesEnd(j, leg, counter);
    assert waves + [] == waves;
  }

  method LongestList<T>(lists: seq<seq<T>>) returns (n: nat)
    ensures n == MaxLength(lists)
  {
    n := 0;
    assert lists[0..] == lists;
    for l := 0 to |lists|
      invariant Max(n, MaxLength(lists[l..])) == MaxLength(lists)
    {
      assert lists[l..][1..] == lists[l + 1..];
      if |lists[l]| > n {
        n := |lists[l]|;
      }
    }
  }

  /** One round of the interleaving. */
  method TakeRound<T>(lists: seq<seq<T>>, i: nat) returns (round: seq<T>)
    ensures round == RoundOf(lists, i)
  {
    round := [];
    assert lists[0..] == lists;
    for l := 0 to |lists|
      invariant round + RoundOf(lists[l..], i) == RoundOf(lists, i)
    {
      assert lists[l..][1..] == lists[l + 1..];
      if i < |lists[l]| {
        AppendAssoc(round, [lists[l][i]], RoundOf(lists[l + 1..], i));
        round := round + [lists[l][i]];
      }
    }
  }

  method InterleaveLists<T>(lists: seq<seq<T>>) returns (merged: seq<T>)
    ensures merged == Interleave(lists)
  {
    hide RoundOf;
    var n := LongestList(lists);
    merged := [];
    for i := 0 to n
      invariant merged + RoundsFrom(lists, i, n) == RoundsFrom(lists, 0, n)
    {
      var round := TakeRound(lists, i);
      AppendAssoc(merged, round, RoundsFrom(lists, i + 1, n));
      merged := merged + round;
    }
  }

  /** The final loop: interleave each wave, keep it if it has orders. */
  method MergeWaves(ws: seq<seq<seq<ExecOrder>>>) returns (chunks: seq<seq<ExecOrder>>)
    requires forall l :: 0 <= l < |ws| ==> |ws[l]| == WAVES
    ensures chunks == DropEmpty(MergedFrom(ws, 0))
  {
    hide Interleave, DropEmpty;
    chunks := [];
    ghost var done: seq<seq<ExecOrder>> := [];
    NothingDropped<ExecOrder>();
    for c := 0 to WAVES
      invariant done + MergedFrom(ws, c) == MergedFrom(ws, 0)
      invariant chunks == DropEmpty(done)
    {
      var merged := InterleaveLists(Column(ws, c));
      DropEmptySnoc(done, merged);
      AppendAssoc(done, [merged], MergedFrom(ws, c + 1));
      done := done + [merged];
      if |merged| > 0 {
        chunks := chunks + [merged];
      }
    }
    assert done + [] == done;
  }

  lemma {:induction false} AllWavesSnoc(j: Job, legs: seq<LegData>, leg: LegData, counter: nat)
    requires j.per >= 1 && LegsOk(legs) && LegOk(leg)
    ensures LegsOk(legs + [leg])
    ensures var before := AllWaves(j, legs, counter);
      AllWaves(j, legs + [leg], counter) == before + [LegWaves(j, leg, counter + |Flatten(Flatten(before))|)]
  {
    hide LegWaves, Flatten;
    if legs == [] {
      assert legs + [leg] == [leg];
      FlattenEmpty();
      assert [leg][1..] == [];
    } else {
      var first := LegWaves(j, legs[0], counter);
      var c := counter + |Flatten(first)|;
      assert (legs + [leg])[1..] == legs[1..] + [leg];
      AllWavesSnoc(j, legs[1..], leg, c);
      var rest := AllWaves(j, legs[1..], c);
      FlattenCons(first, rest);
      FlattenConcat(first, Flatten(rest));
      AppendAssoc([first], rest, [LegWaves(j, leg, c + |Flatten(Flatten(rest))|)]);
    }
  }

  lemma FlattenEmpty()
    ensures Flatten(Flatten<seq<ExecOrder>>([])) == []
  {
  }

  /** The leg loop, with its checks. */
  method CutLegs(j: Job, legs: seq<LegData>) returns (ws: seq<seq<seq<ExecOrder>>>, bad: int)
    requires j.per >= 1
    ensures -1 <= bad < |legs|
    ensures bad == -1 ==> LegsOk(legs) && ws == AllWaves(j, legs, 0)
    ensures bad >= 0 ==> LegsOk(legs[..bad]) && !LegOk(legs[bad])
  {
    hide LegOk, LegWaves, Flatten;
    ws, bad := [], -1;
    var counter := 0;
    FlattenEmpty();
    for i := 0 to |legs|
      invariant LegsOk(legs[..i]) && ws == AllWaves(j, legs[..i], 0)
      invariant counter == |Flatten(Flatten(ws))|
    {
      if !LegOk(legs[i]) {
        return ws, i;
      }
      LegFields(legs[i]);
      var waves, next := CutLeg(j, legs[i], counter);
      AllWavesSnoc(j, legs[..i], legs[i], 0);
      assert legs[..i + 1] == legs[..i] + [legs[i]];
      FlattenAppend(ws, waves);
      FlattenConcat(Flatten(ws), waves);
      ws, counter := ws + [waves], next;
    }
    assert legs[..|legs|] == legs;
  }

  lemma LegFields(leg: LegData)
    requires LegOk(leg)
    ensures leg.totalLots >= 0 && leg.lotSize > 0 && leg.token > 0
  {
  }

  /** `GenerateChunkedOrders`. */
  method GenerateChunkedOrders(prefix: string, timestamp: nat, legs: seq<LegData>, baseLots: int, maxOrderQty: int,
                               perCall: int)
      returns (r: ChunkResult)
    ensures Generated(prefix, timestamp, legs, baseLots, maxOrderQty, perCall, r)
  {
    hide LegOk, AllWaves, MergedFrom, DropEmpty;
    if |legs| == 0 {
      return Chunks([]);
    }
    if legs[0].lotSize <= 0 {
      return Err(InvalidChunkLotSize(legs[0].lotSize));
    }
    if maxOrderQty <= 0 {
      return Err(InvalidMaxOrderQty(maxOrderQty));
    }
    var j := Job(prefix, timestamp, LotsPerOrder(legs[0].lotSize, baseLots, maxOrderQty, perCall));
    var ws, bad := CutLegs(j, legs);
    if bad >= 0 {
      return Err(LegError(legs[bad]));
    }
    var chunks := MergeWaves(ws);
    r := Chunks(chunks);
  }
}
