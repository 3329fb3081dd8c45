/**
 The trade worker's intent builder: delta-neutral allocation of lots to the two legs of a
 straddle, and the cutting of both legs into chunks of broker-sized orders.
 */
module IntentBuilder {
  import opened Rounding
  import opened Sequences
  import opened Text

  datatype OptionType = CE | PE

  datatype OrderIntent = OrderIntent(
    uid: string,
    token: int,
    optionType: OptionType,
    action: string,
    quantity: int,
    limitPrice: real,
    bufferTicks: Int32)

  datatype Allocation = Allocation(
    ceLots: int, peLots: int, ceQuantity: int, peQuantity: int, netDelta: real)

  /** Builder configuration; the worker uses (lot size, 500, 7). */
  datatype Builder = Builder(lotSize: int, maxOrderQty: int, chunkDivisor: nat)

  datatype Leg = Leg(token: int, optionType: OptionType, lots: int, ltp: real)

  /** What is common to all orders of one call: trade identifier, clock reading, side. */
  datatype Ticket = Ticket(tradeUid: string, timestamp: nat, action: string)

  // ---------------------------------------------------------------------------------------
  // Delta-neutral allocation
  // ---------------------------------------------------------------------------------------

  /** Lots for one leg: its share of the doubled target, at least one. */
  function LegLots(share: real): int
  {
    if Round(share) == 0 then 1 else Round(share)
  }

  /** A leg is weighted by the other leg's delta: the higher its own delta, the fewer its lots. */
  function Share(targetLots: int, otherDelta: real, ownDelta: real): real
    requires otherDelta != 0.0 || ownDelta != 0.0
  {
    Times(targetLots as real * 2.0, Abs(otherDelta) / (Abs(otherDelta) + Abs(ownDelta)))
  }

  /** Net delta of a short straddle. */
  function NetDelta(ceQty: int, peQty: int, ceDelta: real, peDelta: real): real
  {
    -(Times(ceQty as real, ceDelta) + Times(peQty as real, peDelta))
  }

  /** `calculate_delta_neutral`. */
  function DeltaNeutral(b: Builder, ceDelta: real, peDelta: real, targetLots: int): Allocation
  {
    if targetLots <= 0 || b.lotSize <= 0 then
      Allocation(0, 0, 0, 0, 0.0)
    else if Abs(ceDelta) + Abs(peDelta) == 0.0 then
      var qty := targetLots * b.lotSize;
      Allocation(targetLots, targetLots, qty, qty, 0.0)
    else
      var ceLots, peLots := LegLots(Share(targetLots, peDelta, ceDelta)), LegLots(Share(targetLots, ceDelta, peDelta));
      var ceQty, peQty := ceLots * b.lotSize, peLots * b.lotSize;
      Allocation(ceLots, peLots, ceQty, peQty, NetDelta(ceQty, peQty, ceDelta, peDelta))
  }

  /** How far from balanced two legs may end: half a lot each, or a whole lot of one after a lift. */
  function ResidualLimit(clamped: bool, ce: real, pe: real): real
  {
    if !clamped then (ce + pe) / 2.0 else if ce > pe then ce else pe
  }

  /** One of the two shares rounds to nothing and is lifted to one lot. */
  predicate ClampFires(ceDelta: real, peDelta: real, targetLots: int)
    requires ceDelta != 0.0 || peDelta != 0.0
  {
    Round(Share(targetLots, peDelta, ceDelta)) == 0 || Round(Share(targetLots, ceDelta, peDelta)) == 0
  }

  /** Two shares of `total` lots that balance the deltas exactly. */
  ghost predicate Balanced(x: real, y: real, total: real, ce: real, pe: real)
  {
    x >= 0.0 && y >= 0.0 && x + y == total && Times(x, ce) == Times(y, pe)
  }

  /** Weights proportional to the other leg's delta sum to one and balance each other. */
  lemma InverseWeights(ce: real, pe: real) returns (u: real, v: real)
    requires ce >= 0.0 && pe >= 0.0 && ce + pe > 0.0
    ensures u == pe / (pe + ce) && v == ce / (ce + pe)
    ensures u + v == 1.0 && Times(u, ce) == Times(v, pe) && u >= 0.0 && v >= 0.0
  {
    var s := ce + pe;
    u, v := pe / s, ce / s;
    TimesQuotient(pe, s);
    TimesQuotient(ce, s);
    hide Times;
    TimesAdd(u, v, s);
    TimesCancel(u + v, s);
    TimesRegroup(u, v, s);
    TimesRegroup(v, u, s);
  }

  lemma SharesBalance(ceDelta: real, peDelta: real, targetLots: int)
    requires targetLots > 0 && (ceDelta != 0.0 || peDelta != 0.0)
    ensures Balanced(Share(targetLots, peDelta, ceDelta), Share(targetLots, ceDelta, peDelta),
                     (2 * targetLots) as real, Abs(ceDelta), Abs(peDelta))
  {
    hide Times;
    var total, ce, pe := targetLots as real * 2.0, Abs(ceDelta), Abs(peDelta);
    var u, v := InverseWeights(ce, pe);
    TimesAdd(u, v, total);
    TimesUnit(total);
    TimesRegroup(total, u, ce);
    TimesRegroup(total, v, pe);
    TimesBound(total, 0.0, total, u);
    TimesBound(total, 0.0, total, v);
    TimesUnit(u);
    TimesUnit(v);
  }

  /** Rounding each share by at most half a lot leaves at most half a lot of each delta. */
  lemma RoundedImbalance(x: real, y: real, p: real, q: real, total: real, ce: real, pe: real)
    requires ce >= 0.0 && pe >= 0.0 && Balanced(x, y, total, ce, pe)
    requires x - 0.5 <= p <= x + 0.5 && y - 0.5 <= q <= y + 0.5
    ensures Abs(Times(p, ce) - Times(q, pe)) <= ResidualLimit(false, ce, pe)
  {
    hide Times;
    TimesAdd(p, x, ce);
    TimesAdd(q, y, pe);
    TimesBound(p - x, -0.5, 0.5, ce);
    TimesBound(q - y, -0.5, 0.5, pe);
    TimesUnit(ce);
    TimesUnit(pe);
  }

  /** When one share rounds to nothing it is lifted to one lot and the other leg takes the whole total. */
  lemma ClampBound(small: real, big: real, total: real, a: real, c: real)
    requires a >= 0.0 && c >= 0.0 && small <= 0.5 && Balanced(small, big, total, a, c)
    ensures Abs(Times(1.0, a) - Times(total, c)) <= ResidualLimit(true, a, c)
  {
    hide Times;
    TimesAdd(small, big, c);
    TimesBound(small, 0.0, 0.5, c);
    TimesBound(small, 0.0, 0.5, a);
    TimesUnit(a);
    TimesUnit(c);
  }

  lemma RoundedSharesTotal(x: real, y: real, total: int)
    requires x >= 0.0 && y >= 0.0 && x + y == total as real && total > 1
    ensures Round(x) >= 0 && Round(y) >= 0
    ensures Round(x) == 0 ==> Round(y) == total
    ensures Round(y) == 0 ==> Round(x) == total
    ensures Round(x) + Round(y) == total || Round(x) + Round(y) == total + 1
  {
  }

  /** Balanced shares stay balanced within the limit once rounded and lifted. */
  lemma RoundedBalance(x: real, y: real, total: int, ce: real, pe: real)
    requires ce >= 0.0 && pe >= 0.0 && Balanced(x, y, total as real, ce, pe) && total > 1
    ensures Abs(Times(LegLots(x) as real, ce) - Times(LegLots(y) as real, pe))
         <= ResidualLimit(Round(x) == 0 || Round(y) == 0, ce, pe)
    ensures LegLots(x) >= 1 && LegLots(y) >= 1
    ensures LegLots(x) + LegLots(y) == total || LegLots(x) + LegLots(y) == total + 1
  {
    hide Times, Round;
    RoundedSharesTotal(x, y, total);
    if Round(x) == 0 {
      ClampBound(x, y, total as real, ce, pe);
    } else if Round(y) == 0 {
      ClampBound(y, x, total as real, pe, ce);
    } else {
      RoundedImbalance(x, y, Round(x) as real, Round(y) as real, total as real, ce, pe);
    }
  }

  lemma QuantityProduct(lots: int, lot: int, d: real)
    ensures Times((lots * lot) as real, d) == Times(Times(lots as real, d), lot as real)
  {
    assert (lots * lot) as real == Times(lots as real, lot as real);
    hide Times;
    TimesRegroup(lots as real, lot as real, d);
  }

  /** With opposite signs the net delta is, up to sign, the difference of the two magnitudes. */
  lemma NetDeltaScale(lot: int, ceLots: int, peLots: int, ceDelta: real, peDelta: real, bound: real)
    requires lot > 0 && (ceDelta >= 0.0 >= peDelta || ceDelta <= 0.0 <= peDelta)
    requires Abs(Times(ceLots as real, Abs(ceDelta)) - Times(peLots as real, Abs(peDelta))) <= bound
    ensures Abs(NetDelta(ceLots * lot, peLots * lot, ceDelta, peDelta)) <= Times(bound, lot as real)
  {
    hide Times;
    var u, v := Times(ceLots as real, Abs(ceDelta)), Times(peLots as real, Abs(peDelta));
    TimesAdd(u, v, lot as real);
    TimesBound(u - v, -bound, bound, lot as real);
    TimesNegate(bound, lot as real);
    QuantityProduct(ceLots, lot, Abs(ceDelta));
    QuantityProduct(peLots, lot, Abs(peDelta));
    TimesNegate((ceLots * lot) as real, ceDelta);
    TimesNegate((peLots * lot) as real, peDelta);
  }

  lemma NetDeltaOf(ceQty: int, peQty: int, ceDelta: real, peDelta: real)
    ensures NetDelta(ceQty, peQty, ceDelta, peDelta) == -(ceQty as real * ceDelta + peQty as real * peDelta)
  {
  }

  lemma Residual(b: Builder, ceDelta: real, peDelta: real, targetLots: int)
    requires targetLots > 0 && b.lotSize > 0
    requires ceDelta >= 0.0 >= peDelta || ceDelta <= 0.0 <= peDelta
    requires ceDelta != 0.0 || peDelta != 0.0
    ensures
      var r := DeltaNeutral(b, ceDelta, peDelta, targetLots);
      && r.ceLots >= 1 && r.peLots >= 1
      && (r.ceLots + r.peLots == 2 * targetLots || r.ceLots + r.peLots == 2 * targetLots + 1)
      && r.ceQuantity == r.ceLots * b.lotSize && r.peQuantity == r.peLots * b.lotSize
      && r.netDelta == NetDelta(r.ceQuantity, r.peQuantity, ceDelta, peDelta)
      && Abs(r.netDelta) <=
           Times(ResidualLimit(ClampFires(ceDelta, peDelta, targetLots), Abs(ceDelta), Abs(peDelta)), b.lotSize as real)
  {
    hide Round, ResidualLimit, NetDelta, Share, LegLots, Times;
    var r := DeltaNeutral(b, ceDelta, peDelta, targetLots);
    SharesBalance(ceDelta, peDelta, targetLots);
    RoundedBalance(Share(targetLots, peDelta, ceDelta), Share(targetLots, ceDelta, peDelta),
                   2 * targetLots, Abs(ceDelta), Abs(peDelta));
    var bound := ResidualLimit(ClampFires(ceDelta, peDelta, targetLots), Abs(ceDelta), Abs(peDelta));
    NetDeltaScale(b.lotSize, r.ceLots, r.peLots, ceDelta, peDelta, bound);
  }

  /**
   Delta-neutral allocation for deltas of opposite sign: at least one lot a leg, twice the target
   lots in total up to one lot of rounding, the net delta of a short position, and that bounded by half
   a lot of each leg (by a whole lot of the larger one when a leg had to be lifted to one lot).
   */
  lemma DeltaNeutralBounds(b: Builder, ceDelta: real, peDelta: real, targetLots: int)
    requires targetLots > 0 && b.lotSize > 0
    requires ceDelta >= 0.0 >= peDelta || ceDelta <= 0.0 <= peDelta
    requires ceDelta != 0.0 || peDelta != 0.0
    ensures
      var r := DeltaNeutral(b, ceDelta, peDelta, targetLots);
      && r.ceLots >= 1 && r.peLots >= 1
      && (r.ceLots + r.peLots == 2 * targetLots || r.ceLots + r.peLots == 2 * targetLots + 1)
      && r.ceQuantity == r.ceLots * b.lotSize && r.peQuantity == r.peLots * b.lotSize
      && r.netDelta == -(r.ceQuantity as real * ceDelta + r.peQuantity as real * peDelta)
      && Abs(r.netDelta) <=
           Times(ResidualLimit(ClampFires(ceDelta, peDelta, targetLots), Abs(ceDelta), Abs(peDelta)), b.lotSize as real)
  {
    hide Round, ResidualLimit, NetDelta, Share, LegLots, Times, DeltaNeutral, ClampFires, Abs;
    var r := DeltaNeutral(b, ceDelta, peDelta, targetLots);
    Residual(b, ceDelta, peDelta, targetLots);
    NetDeltaOf(r.ceQuantity, r.peQuantity, ceDelta, peDelta);
  }

  // ---------------------------------------------------------------------------------------
  // Chunked orders
  // ---------------------------------------------------------------------------------------

  const INITIAL_BUFFER_TICKS := 2

  lemma QuotientBounds(limit: nat, lot: nat, q: int)
    requires lot > 0 && q == limit / lot
    ensures q >= 0 && q * lot <= limit < (q + 1) * lot
  {
    assert limit == q * lot + limit % lot;
    assert (q + 1) * lot == q * lot + lot;
  }

  /** The largest multiple of a lot within a limit: one more lot, or two lots where none fits, is too much. */
  lemma LargestMultiple(limit: int, lot: int, q: int)
    requires lot != 0 && q == TruncDiv(limit, lot)
    ensures lot > 0 ==> (q >= 1 ==> q * lot <= limit) && (Max(1, q) + 1) * lot > limit
  {
    if lot > 0 && limit >= 0 {
      QuotientBounds(limit, lot, q);
      TwiceIsMore(lot, q);
    } else if lot > 0 {
      QuotientBounds(-limit, lot, -q);
      TwiceIsMore(lot, q);
    }
  }

  lemma TwiceIsMore(lot: nat, q: int)
    ensures q < 1 ==> (Max(1, q) + 1) * lot == lot + lot
    ensures q == 0 ==> (q + 1) * lot == lot
  {
  }

  /** The largest number of lots that fits the broker's limit, but at least one. */
  function MaxLotsPerOrder(b: Builder): (n: int)
    requires b.lotSize != 0
    ensures n >= 1
    ensures b.lotSize > 0 ==> (n == 1 || n * b.lotSize <= b.maxOrderQty) && (n + 1) * b.lotSize > b.maxOrderQty
  {
    LargestMultiple(b.maxOrderQty, b.lotSize, TruncDiv(b.maxOrderQty, b.lotSize));
    Max(1, TruncDiv(b.maxOrderQty, b.lotSize))
  }

  /** Lots of a leg per chunk: an even split, the remainder spread over the first chunks. */
  function SplitLots(lots: int, divisor: nat): (split: seq<int>)
    ensures |split| == divisor
  {
    seq(divisor, i requires 0 <= i < divisor =>
      TruncDiv(lots, divisor) + if i < TruncMod(lots, divisor) then 1 else 0)
  }

  /** Everything the slicing loops read: the legs, their lots per chunk, and the largest order in lots. */
  datatype Job = Job(
    ticket: Ticket, lotSize: int, perOrder: int,
    ce: Leg, ceSplit: seq<int>, pe: Leg, peSplit: seq<int>)
  {
    predicate Valid()
    {
      perOrder >= 1 && |ceSplit| == |peSplit|
    }
  }

  function JobOf(b: Builder, t: Ticket, ce: Leg, pe: Leg): (j: Job)
    requires b.lotSize != 0
    ensures j.Valid()
  {
    Job(t, b.lotSize, MaxLotsPerOrder(b),
        ce, SplitLots(ce.lots, b.chunkDivisor), pe, SplitLots(pe.lots, b.chunkDivisor))
  }

  function MakeIntent(j: Job, leg: Leg, lots: int, counter: nat): OrderIntent
  {
    OrderIntent(OrderUid(j.ticket.tradeUid, j.ticket.timestamp + counter), leg.token, leg.optionType, j.ticket.action,
                lots * j.lotSize, leg.ltp, INITIAL_BUFFER_TICKS)
  }

  /** The orders of one leg in one chunk: full-sized orders, then what is left. */
  function Slice(j: Job, leg: Leg, lots: int, counter: nat): seq<OrderIntent>
    requires j.Valid()
    decreases lots
  {
    if lots <= 0 then [] else
    var n := Min(lots, j.perOrder);
    [MakeIntent(j, leg, n, counter)] + Slice(j, leg, lots - n, counter + 1)
  }

  /** Chunk `i`: the call side first, then the put side. */
  function ChunkAt(j: Job, i: nat, counter: nat): seq<OrderIntent>
    requires j.Valid() && i < |j.ceSplit|
  {
    var ces := Slice(j, j.ce, j.ceSplit[i], counter);
    ces + Slice(j, j.pe, j.peSplit[i], counter + |ces|)
  }

  /** Chunks `i` and later, before empty ones are dropped. */
  function ChunksFrom(j: Job, i: nat, counter: nat): seq<seq<OrderIntent>>
    requires j.Valid() && i <= |j.ceSplit|
    decreases |j.ceSplit| - i
  {
    if i == |j.ceSplit| then [] else
    var chunk := ChunkAt(j, i, counter);
    [chunk] + ChunksFrom(j, i + 1, counter + |chunk|)
  }

  function ChunkedOrders(b: Builder, t: Ticket, ce: Leg, pe: Leg): seq<seq<OrderIntent>>
    requires b.lotSize != 0
  {
    DropEmpty(ChunksFrom(JobOf(b, t, ce, pe), 0, 0))
  }

  /** One leg's slicing loop inside a chunk. */
  method SliceLeg(j: Job, leg: Leg, lots: int, start: nat) returns (orders: seq<OrderIntent>, counter: nat)
    requires j.Valid()
    ensures orders == Slice(j, leg, lots, start) && counter == start + |orders|
  {
    orders, counter := [], start;
    var remaining := lots;
    while remaining > 0
      invariant orders + Slice(j, leg, remaining, counter) == Slice(j, leg, lots, start)
      invariant counter == start + |orders|
      decreases remaining
    {
      var n := Min(remaining, j.perOrder);
      var intent := MakeIntent(j, leg, n, counter);
      AppendAssoc(orders, [intent], Slice(j, leg, remaining - n, counter + 1));
      orders := orders + [intent];
      counter, remaining := counter + 1, remaining - n;
    }
  }

  /** The chunk-filling loop. */
  method FillChunks(j: Job) returns (chunks: seq<seq<OrderIntent>>)
    requires j.Valid()
    ensures chunks == ChunksFrom(j, 0, 0)
  {
    hide Slice;
    chunks := [];
    var counter := 0;
    for i := 0 to |j.ceSplit|
      invariant chunks + ChunksFrom(j, i, counter) == ChunksFrom(j, 0, 0)
    {
      var ces, c1 := SliceLeg(j, j.ce, j.ceSplit[i], counter);
      var pes, c2 := SliceLeg(j, j.pe, j.peSplit[i], c1);
      assert ChunksFrom(j, i, counter) == [ces + pes] + ChunksFrom(j, i + 1, c2);
      AppendAssoc(chunks, [ces + pes], ChunksFrom(j, i + 1, c2));
      chunks, counter := chunks + [ces + pes], c2;
    }
  }

  /** The loop that keeps only non-empty chunks. */
  method KeepNonEmpty<T>(chunks: seq<seq<T>>) returns (valid: seq<seq<T>>)
    ensures valid == DropEmpty(chunks)
  {
    hide DropEmpty;
    valid := [];
    NothingDropped<T>();
    assert chunks[..0] == [];
    for i := 0 to |chunks|
      invariant valid == DropEmpty(chunks[..i])
    {
      DropEmptySnoc(chunks[..i], chunks[i]);
      assert chunks[..i + 1] == chunks[..i] + [chunks[i]];
      if |chunks[i]| > 0 {
        valid := valid + [chunks[i]];
      }
    }
    assert chunks[..|chunks|] == chunks;
  }

  /** `generate_chunked_orders`. */
  method GenerateChunkedOrders(b: Builder, t: Ticket, ce: Leg, pe: Leg) returns (valid: seq<seq<OrderIntent>>)
    requires b.lotSize != 0
    ensures valid == ChunkedOrders(b, t, ce, pe)
  {
    var chunks := FillChunks(JobOf(b, t, ce, pe));
    valid := KeepNonEmpty(chunks);
  }

  // ---------------------------------------------------------------------------------------
  // What the chunks contain
  // ---------------------------------------------------------------------------------------

  /** Total quantity of one option type in a list of orders. */
  function QuantityOf(orders: seq<OrderIntent>, o: OptionType): int
  {
    if orders == [] then 0 else
    (if orders[0].optionType == o then orders[0].quantity else 0) + QuantityOf(orders[1..], o)
  }

  lemma {:induction false} QuantityConcat(xs: seq<OrderIntent>, ys: seq<OrderIntent>, o: OptionType)
    ensures QuantityOf(xs + ys, o) == QuantityOf(xs, o) + QuantityOf(ys, o)
  {
    if xs == [] {
      assert xs + ys == ys;
    } else {
      assert (xs + ys)[1..] == xs[1..] + ys;
      QuantityConcat(xs[1..], ys, o);
    }
  }

  lemma SplitProduct(n: int, lots: int, size: int)
    ensures n * size + (lots - n) * size == lots * size
  {
  }

  /** A slice carries exactly its lots, all on its own leg. */
  lemma {:induction false} SliceQuantity(j: Job, leg: Leg, lots: int, counter: nat, o: OptionType)
    requires j.Valid()
    ensures QuantityOf(Slice(j, leg, lots, counter), o)
         == if o == leg.optionType then Max(0, lots) * j.lotSize else 0
    decreases lots
  {
    if lots > 0 {
      var n := Min(lots, j.perOrder);
      SliceQuantity(j, leg, lots - n, counter + 1, o);
      SplitProduct(n, lots, j.lotSize);
      var s := Slice(j, leg, lots, counter);
      assert s[1..] == Slice(j, leg, lots - n, counter + 1);
    }
  }

  /** The shape of an order: at most `perOrder` lots and a fresh buffer. */
  ghost predicate Admissible(j: Job, o: OrderIntent)
  {
    && o.bufferTicks == INITIAL_BUFFER_TICKS
    && exists lots :: 1 <= lots <= j.perOrder && o.quantity == lots * j.lotSize
  }

  function UidsOf(orders: seq<OrderIntent>): (uids: seq<string>)
    ensures |uids| == |orders| && forall i :: 0 <= i < |orders| ==> uids[i] == orders[i].uid
  {
    seq(|orders|, i requires 0 <= i < |orders| => orders[i].uid)
  }

  /** Orders are admissible and numbered consecutively from `counter`. */
  ghost predicate CutFrom(j: Job, orders: seq<OrderIntent>, counter: nat)
  {
    && (forall k :: 0 <= k < |orders| ==> Admissible(j, orders[k]))
    && Numbered(UidsOf(orders), j.ticket.tradeUid, j.ticket.timestamp + counter)
  }

  lemma CutConcat(j: Job, xs: seq<OrderIntent>, ys: seq<OrderIntent>, counter: nat)
    requires CutFrom(j, xs, counter) && CutFrom(j, ys, counter + |xs|)
    ensures CutFrom(j, xs + ys, counter)
  {
    hide Admissible, Numbered;
    assert UidsOf(xs + ys) == UidsOf(xs) + UidsOf(ys);
    NumberedConcat(UidsOf(xs), UidsOf(ys), j.ticket.tradeUid, j.ticket.timestamp + counter);
  }

  lemma {:induction false} SliceCut(j: Job, leg: Leg, lots: int, counter: nat)
    requires j.Valid()
    ensures CutFrom(j, Slice(j, leg, lots, counter), counter)
    decreases lots
  {
    if lots > 0 {
      var n := Min(lots, j.perOrder);
      var first := MakeIntent(j, leg, n, counter);
      assert Admissible(j, first) by { assert first.quantity == n * j.lotSize; }
      SliceCut(j, leg, lots - n, counter + 1);
      CutConcat(j, [first], Slice(j, leg, lots - n, counter + 1), counter);
    }
  }

  lemma OrderSizeBound(b: Builder, n: int)
    requires b.lotSize > 0 && 1 <= n <= MaxLotsPerOrder(b)
    ensures 0 < n * b.lotSize <= Max(b.maxOrderQty, b.lotSize)
  {
    if n > 1 {
      var q := b.maxOrderQty / b.lotSize;
      assert n <= q;
      assert n * b.lotSize <= q * b.lotSize <= b.maxOrderQty;
    }
  }

  function SumPositive(split: seq<int>): int
  {
    if split == [] then 0 else Max(0, split[0]) + SumPositive(split[1..])
  }

  lemma {:induction false} SumPositiveOfSplit(split: seq<int>, base: int, extra: int)
    requires base >= 0 && extra >= 0
    requires forall i :: 0 <= i < |split| ==> split[i] == base + if i < extra then 1 else 0
    ensures SumPositive(split) == |split| * base + Min(extra, |split|)
  {
    if split != [] {
      SumPositiveOfSplit(split[1..], base, Max(0, extra - 1));
      assert |split| * base == base + (|split| - 1) * base;
    }
  }

  lemma {:induction false} SumPositiveOfNone(split: seq<int>)
    requires forall i :: 0 <= i < |split| ==> split[i] <= 0
    ensures SumPositive(split) == 0
  {
    if split != [] {
      SumPositiveOfNone(split[1..]);
    }
  }

  lemma TruncFacts(lots: int, divisor: int)
    requires divisor > 0
    ensures lots >= 0 ==> TruncDiv(lots, divisor) == lots / divisor && TruncMod(lots, divisor) == lots % divisor
    ensures lots < 0 ==> TruncDiv(lots, divisor) <= 0 && TruncMod(lots, divisor) <= 0
  {
    if lots < 0 {
      assert -lots / divisor * divisor <= -lots;
    }
  }

  lemma SplitLotsShape(lots: int, divisor: nat)
    requires divisor > 0
    ensures var split := SplitLots(lots, divisor);
      && (lots >= 0 ==> forall i :: 0 <= i < divisor ==>
            split[i] == lots / divisor + if i < lots % divisor then 1 else 0)
      && (lots < 0 ==> forall i :: 0 <= i < divisor ==> split[i] <= 0)
  {
    TruncFacts(lots, divisor);
  }

  lemma DivideExactly(lots: nat, divisor: nat)
    requires divisor > 0
    ensures divisor * (lots / divisor) + lots % divisor == lots && 0 <= lots % divisor < divisor && lots / divisor >= 0
  {
  }

  /** The chunk split loses no lot; a negative lot count yields no orders. */
  lemma ChunkSplitIsExact(lots: int, divisor: nat)
    requires divisor > 0
    ensures SumPositive(SplitLots(lots, divisor)) == Max(0, lots)
  {
    SplitLotsShape(lots, divisor);
    var split := SplitLots(lots, divisor);
    if lots >= 0 {
      DivideExactly(lots, divisor);
      SumPositiveOfSplit(split, lots / divisor, lots % divisor);
    } else {
      SumPositiveOfNone(split);
    }
  }

  /** Quantity of option type `o` in chunk `i`. */
  lemma ChunkQuantity(j: Job, i: nat, counter: nat)
    requires j.Valid() && i < |j.ceSplit| && j.ce.optionType == CE && j.pe.optionType == PE
    ensures QuantityOf(ChunkAt(j, i, counter), CE) == Max(0, j.ceSplit[i]) * j.lotSize
    ensures QuantityOf(ChunkAt(j, i, counter), PE) == Max(0, j.peSplit[i]) * j.lotSize
  {
    var ces := Slice(j, j.ce, j.ceSplit[i], counter);
    var c := counter + |ces|;
    var pes := Slice(j, j.pe, j.peSplit[i], c);
    QuantityConcat(ces, pes, CE);
    QuantityConcat(ces, pes, PE);
    SliceQuantity(j, j.ce, j.ceSplit[i], counter, CE);
    SliceQuantity(j, j.ce, j.ceSplit[i], counter, PE);
    SliceQuantity(j, j.pe, j.peSplit[i], c, CE);
    SliceQuantity(j, j.pe, j.peSplit[i], c, PE);
  }

  lemma ChunksFromFlat(j: Job, i: nat, counter: nat)
    requires j.Valid() && i < |j.ceSplit|
    ensures var chunk := ChunkAt(j, i, counter);
      Flatten(ChunksFrom(j, i, counter)) == chunk + Flatten(ChunksFrom(j, i + 1, counter + |chunk|))
  {
    hide Slice;
    var chunk := ChunkAt(j, i, counter);
    FlattenCons(chunk, ChunksFrom(j, i + 1, counter + |chunk|));
  }

  lemma {:induction false} ChunksQuantity(j: Job, i: nat, counter: nat)
    requires j.Valid() && i <= |j.ceSplit| && j.ce.optionType == CE && j.pe.optionType == PE
    ensures QuantityOf(Flatten(ChunksFrom(j, i, counter)), CE) == SumPositive(j.ceSplit[i..]) * j.lotSize
    ensures QuantityOf(Flatten(ChunksFrom(j, i, counter)), PE) == SumPositive(j.peSplit[i..]) * j.lotSize
    decreases |j.ceSplit| - i
  {
    if i < |j.ceSplit| {
      var chunk := ChunkAt(j, i, counter);
      var c := counter + |chunk|;
      var rest := Flatten(ChunksFrom(j, i + 1, c));
      ChunksFromFlat(j, i, counter);
      ChunkQuantity(j, i, counter);
      ChunksQuantity(j, i + 1, c);
      QuantityConcat(chunk, rest, CE);
      QuantityConcat(chunk, rest, PE);
      SumPositiveStep(j.ceSplit, i, j.lotSize);
      SumPositiveStep(j.peSplit, i, j.lotSize);
    }
  }

  lemma SumPositiveStep(split: seq<int>, i: nat, k: int)
    requires i < |split|
    ensures SumPositive(split[i..]) * k == Max(0, split[i]) * k + SumPositive(split[i + 1..]) * k
  {
    assert split[i..][1..] == split[i + 1..];
    var a, b := Max(0, split[i]), SumPositive(split[i + 1..]);
    assert (a + b) * k == a * k + b * k;
  }

  lemma NothingCut(j: Job, counter: nat)
    ensures CutFrom(j, Flatten([]), counter)
  {
  }

  lemma {:induction false} ChunksCut(j: Job, i: nat, counter: nat)
    requires j.Valid() && i <= |j.ceSplit|
    ensures CutFrom(j, Flatten(ChunksFrom(j, i, counter)), counter)
    decreases |j.ceSplit| - i
  {
    hide Slice, CutFrom, Flatten;
    if i == |j.ceSplit| {
      NothingCut(j, counter);
    } else {
      var ces := Slice(j, j.ce, j.ceSplit[i], counter);
      var pes := Slice(j, j.pe, j.peSplit[i], counter + |ces|);
      var chunk := ChunkAt(j, i, counter);
      var c := counter + |chunk|;
      SliceCut(j, j.ce, j.ceSplit[i], counter);
      SliceCut(j, j.pe, j.peSplit[i], counter + |ces|);
      CutConcat(j, ces, pes, counter);
      ChunksCut(j, i + 1, c);
      CutConcat(j, chunk, Flatten(ChunksFrom(j, i + 1, c)), counter);
      ChunksFromFlat(j, i, counter);
    }
  }

  predicate DistinctUids(orders: seq<OrderIntent>)
  {
    forall i, j :: 0 <= i < j < |orders| ==> orders[i].uid != orders[j].uid
  }

  /** The quantities of each leg in the plan add up to exactly its lots. */
  lemma PlanIsExact(b: Builder, t: Ticket, ce: Leg, pe: Leg)
    requires b.lotSize != 0 && b.chunkDivisor > 0 && ce.optionType == CE && pe.optionType == PE
    ensures
      var flat := Flatten(ChunkedOrders(b, t, ce, pe));
      && QuantityOf(flat, CE) == Max(0, ce.lots) * b.lotSize
      && QuantityOf(flat, PE) == Max(0, pe.lots) * b.lotSize
  {
    var j := JobOf(b, t, ce, pe);
    ChunksQuantity(j, 0, 0);
    DropEmptyFacts(ChunksFrom(j, 0, 0));
    ChunkSplitIsExact(ce.lots, b.chunkDivisor);
    ChunkSplitIsExact(pe.lots, b.chunkDivisor);
    assert j.ceSplit[0..] == j.ceSplit && j.peSplit[0..] == j.peSplit;
  }

  /**
   The plan has no empty chunk, pairwise distinct identifiers, fresh buffers, and every order within
   the broker limit (or a single lot).
   */
  lemma PlanIsWellFormed(b: Builder, t: Ticket, ce: Leg, pe: Leg)
    requires b.lotSize != 0
    ensures
      var plan := ChunkedOrders(b, t, ce, pe);
      var flat := Flatten(plan);
      && (forall k :: 0 <= k < |plan| ==> plan[k] != [])
      && DistinctUids(flat)
      && (forall k :: 0 <= k < |flat| ==> flat[k].bufferTicks == INITIAL_BUFFER_TICKS)
      && (b.lotSize > 0 ==> forall k :: 0 <= k < |flat| ==> 0 < flat[k].quantity <= Max(b.maxOrderQty, b.lotSize))
  {
    var j := JobOf(b, t, ce, pe);
    ChunksCut(j, 0, 0);
    DropEmptyFacts(ChunksFrom(j, 0, 0));
    var flat := Flatten(ChunkedOrders(b, t, ce, pe));
    NumberedDistinct(UidsOf(flat), t.tradeUid, t.timestamp);
    if b.lotSize > 0 {
      forall k | 0 <= k < |flat| ensures 0 < flat[k].quantity <= Max(b.maxOrderQty, b.lotSize) {
        assert Admissible(j, flat[k]);
        var lots :| 1 <= lots <= j.perOrder && flat[k].quantity == lots * j.lotSize;
        OrderSizeBound(b, lots);
      }
    }
  }

  lemma {:induction false} NoLotsNoChunks(j: Job, i: nat, counter: nat)
    requires j.Valid() && i <= |j.ceSplit|
    requires forall k :: 0 <= k < |j.ceSplit| ==> j.ceSplit[k] <= 0 && j.peSplit[k] <= 0
    ensures DropEmpty(ChunksFrom(j, i, counter)) == []
    decreases |j.ceSplit| - i
  {
    if i < |j.ceSplit| {
      assert ChunkAt(j, i, counter) == [];
      NoLotsNoChunks(j, i + 1, counter);
      assert ChunksFrom(j, i, counter)[1..] == ChunksFrom(j, i + 1, counter);
    }
  }

  /** Without lots there is no plan. */
  lemma NoLotsNoPlan(b: Builder, t: Ticket, ce: Leg, pe: Leg)
    requires b.lotSize != 0 && ce.lots == 0 && pe.lots == 0
    ensures ChunkedOrders(b, t, ce, pe) == []
  {
    var j := JobOf(b, t, ce, pe);
    if b.chunkDivisor > 0 {
      assert TruncDiv(0, b.chunkDivisor) == 0 && TruncMod(0, b.chunkDivisor) == 0;
    }
    assert forall k :: 0 <= k < |j.ceSplit| ==> j.ceSplit[k] == 0 && j.peSplit[k] == 0;
    NoLotsNoChunks(j, 0, 0);
  }

  /** Without deltas both legs get the target; without a target or a lot size they get nothing. */
  lemma FlatAllocations(b: Builder, ceDelta: real, peDelta: real, targetLots: int)
    ensures var r := DeltaNeutral(b, ceDelta, peDelta, targetLots);
      && (targetLots <= 0 || b.lotSize <= 0 ==> r == Allocation(0, 0, 0, 0, 0.0))
      && (targetLots > 0 && b.lotSize > 0 && ceDelta == 0.0 && peDelta == 0.0 ==>
            && r.ceLots == targetLots && r.peLots == targetLots && r.netDelta == 0.0
            && r.ceQuantity == targetLots * b.lotSize && r.peQuantity == targetLots * b.lotSize)
  {
  }

  /** Every order of a leg in a chunk but its last carries the largest number of lots that fits. */
  lemma {:induction false} SlicesAreFull(j: Job, leg: Leg, lots: int, counter: nat, k: nat)
    requires j.Valid() && k + 1 < |Slice(j, leg, lots, counter)|
    ensures Slice(j, leg, lots, counter)[k].quantity == j.perOrder * j.lotSize
    decreases lots
  {
    if k > 0 {
      SlicesAreFull(j, leg, lots - Min(lots, j.perOrder), counter + 1, k - 1);
    }
  }

  // ---------------------------------------------------------------------------------------
  // The chunks of a plan
  // ---------------------------------------------------------------------------------------

  /** Lots of a leg in chunk `i`: an even share, the first chunks one more. */
  function EvenShare(lots: int, divisor: nat, i: nat): nat
    requires divisor > 0
  {
    if lots <= 0 then 0 else lots / divisor + if i < lots % divisor then 1 else 0
  }

  lemma ShareIsPositive(lots: nat, divisor: nat, i: nat)
    requires i < divisor
    ensures lots / divisor + (if i < lots % divisor then 1 else 0) > 0 <==> i < lots
  {
    DivideExactly(lots, divisor);
    if lots / divisor > 0 {
      assert divisor * (lots / divisor) >= divisor;
    } else {
      assert divisor * (lots / divisor) == 0;
    }
  }

  /** The split of a leg gives chunk `i` its even share, and something exactly while there are lots. */
  lemma SplitIsEvenShare(lots: int, divisor: nat, i: nat)
    requires i < divisor
    ensures Max(0, SplitLots(lots, divisor)[i]) == EvenShare(lots, divisor, i)
    ensures SplitLots(lots, divisor)[i] > 0 <==> i < lots
  {
    hide SplitLots;
    SplitLotsShape(lots, divisor);
    if lots >= 0 {
      DivideExactly(lots, divisor);
      ShareIsPositive(lots, divisor, i);
    }
  }

  lemma {:induction false} ChunksAt(j: Job, i: nat, counter: nat, k: nat) returns (c: nat)
    requires j.Valid() && i <= k < |j.ceSplit|
    ensures |ChunksFrom(j, i, counter)| == |j.ceSplit| - i
    ensures ChunksFrom(j, i, counter)[k - i] == ChunkAt(j, k, c)
    decreases |j.ceSplit| - i
  {
    hide ChunkAt;
    var next := counter + |ChunkAt(j, i, counter)|;
    if i + 1 == |j.ceSplit| {
      c := counter;
    } else if i == k {
      c := counter;
      var d := ChunksAt(j, i + 1, next, i + 1);
    } else {
      c := ChunksAt(j, i + 1, next, k);
    }
  }

  lemma ChunkEmptyIff(j: Job, i: nat, counter: nat)
    requires j.Valid() && i < |j.ceSplit|
    ensures ChunkAt(j, i, counter) == [] <==> j.ceSplit[i] <= 0 && j.peSplit[i] <= 0
  {
  }

  /** No call order follows a put order. */
  predicate CallsFirst(chunk: seq<OrderIntent>)
  {
    forall x, y :: 0 <= x < y < |chunk| && chunk[x].optionType == PE ==> chunk[y].optionType == PE
  }

  lemma {:induction false} SliceType(j: Job, leg: Leg, lots: int, counter: nat)
    requires j.Valid()
    ensures forall o :: o in Slice(j, leg, lots, counter) ==> o.optionType == leg.optionType
    decreases lots
  {
    if lots > 0 {
      SliceType(j, leg, lots - Min(lots, j.perOrder), counter + 1);
    }
  }

  lemma ChunkCallsFirst(j: Job, i: nat, counter: nat)
    requires j.Valid() && i < |j.ceSplit| && j.ce.optionType == CE && j.pe.optionType == PE
    ensures CallsFirst(ChunkAt(j, i, counter))
  {
    hide Slice;
    var ces := Slice(j, j.ce, j.ceSplit[i], counter);
    SliceType(j, j.ce, j.ceSplit[i], counter);
    SliceType(j, j.pe, j.peSplit[i], counter + |ces|);
  }

  /** A chunk sells these lots of each leg, the calls before the puts. */
  predicate Carries(chunk: seq<OrderIntent>, ceLots: int, peLots: int, lotSize: int)
  {
    QuantityOf(chunk, CE) == ceLots * lotSize && QuantityOf(chunk, PE) == peLots * lotSize && CallsFirst(chunk)
  }

  lemma ChunkCarries(b: Builder, t: Ticket, ce: Leg, pe: Leg, i: nat) returns (c: nat)
    requires b.lotSize != 0 && ce.optionType == CE && pe.optionType == PE && i < b.chunkDivisor
    ensures var chunks := ChunksFrom(JobOf(b, t, ce, pe), 0, 0);
      && |chunks| == b.chunkDivisor
      && Carries(chunks[i], EvenShare(ce.lots, b.chunkDivisor, i), EvenShare(pe.lots, b.chunkDivisor, i), b.lotSize)
      && (chunks[i] == [] <==> i >= ce.lots && i >= pe.lots)
  {
    hide SplitLots, EvenShare, ChunkAt, QuantityOf, CallsFirst, ChunksFrom;
    var j := JobOf(b, t, ce, pe);
    c := ChunksAt(j, 0, 0, i);
    SplitIsEvenShare(ce.lots, b.chunkDivisor, i);
    SplitIsEvenShare(pe.lots, b.chunkDivisor, i);
    ChunkQuantity(j, i, c);
    ChunkEmptyIff(j, i, c);
    ChunkCallsFirst(j, i, c);
  }

  /**
   A plan has as many chunks as the larger leg has lots, at most the divisor, and each chunk carries
   the even share of both legs, calls first.
   */
  lemma PlanShape(b: Builder, t: Ticket, ce: Leg, pe: Leg)
    requires b.lotSize != 0 && ce.optionType == CE && pe.optionType == PE
    ensures
      var plan := ChunkedOrders(b, t, ce, pe);
      && |plan| == Min(b.chunkDivisor, Max(0, Max(ce.lots, pe.lots)))
      && forall i :: 0 <= i < |plan| ==>
           Carries(plan[i], EvenShare(ce.lots, b.chunkDivisor, i), EvenShare(pe.lots, b.chunkDivisor, i), b.lotSize)
  {
    hide EvenShare, Carries, ChunksFrom, DropEmpty, SplitLots;
    var j := JobOf(b, t, ce, pe);
    var chunks := ChunksFrom(j, 0, 0);
    var m := Min(b.chunkDivisor, Max(0, Max(ce.lots, pe.lots)));
    if b.chunkDivisor == 0 {
      NoChunks(j);
    } else {
      var c := ChunkCarries(b, t, ce, pe, 0);
    }
    forall i | 0 <= i < |chunks|
      ensures chunks[i] == [] <==> i >= m
      ensures i < m ==>
        Carries(chunks[i], EvenShare(ce.lots, b.chunkDivisor, i), EvenShare(pe.lots, b.chunkDivisor, i), b.lotSize)
    {
      var c := ChunkCarries(b, t, ce, pe, i);
    }
    DropEmptyPrefix(chunks, m);
  }

  lemma NoChunks(j: Job)
    requires j.Valid() && j.ceSplit == []
    ensures ChunksFrom(j, 0, 0) == []
  {
  }
}
