/**
 The direct BSE feed: a cursor over a packet of big-endian fields and delta-compressed numbers, and
 the multi-record derivative messages (2020 and 2021) read with it.

 The functions take the bytes that are left and return a value together with what is left after it.
 */
module BseFeed {
  import opened Rounding
  import opened Sequences

  type Byte = b: int | 0 <= b < 256

  const TWO16 := 0x1_0000
  const TWO64 := 0x1_0000_0000_0000_0000

  /** A two-byte difference of this value announces a full four-byte value. */
  const ESCAPE := 32767
  /** End of the bid ladder and of the ask ladder. */
  const BID_END := 32766
  const ASK_END := -32766

  const STATS := 12
  const OI_INDEX := 9

  // ---------------------------------------------------------------------------------------
  // Fields
  // ---------------------------------------------------------------------------------------

  datatype Read<T> = Read(value: T, rest: seq<Byte>)

  function U16(a: Byte, b: Byte): int
  {
    a * 256 + b
  }

  function U32(a: Byte, b: Byte, c: Byte, d: Byte): int
  {
    U16(a, b) * TWO16 + U16(c, d)
  }

  /** Conversions to the signed types of 16, 32 and 64 bits, and to 32 bits unsigned. */
  function ToSigned(u: int, modulus: int): int
  {
    if u >= modulus / 2 then u - modulus else u
  }

  function ToU32(v: int): int
  {
    v % TWO32
  }

  /** Reads past the end return zero and do not move. */
  function ReadU16(s: seq<Byte>): Read<int>
  {
    if |s| < 2 then Read(0, s) else Read(U16(s[0], s[1]), s[2..])
  }

  function ReadS16(s: seq<Byte>): Read<int>
  {
    var r := ReadU16(s);
    Read(ToSigned(r.value, TWO16), r.rest)
  }

  function ReadU32(s: seq<Byte>): Read<int>
  {
    if |s| < 4 then Read(0, s) else Read(U32(s[0], s[1], s[2], s[3]), s[4..])
  }

  function ReadU64(s: seq<Byte>): Read<int>
  {
    if |s| < 8 then Read(0, s) else
    var hi := ReadU32(s);
    var lo := ReadU32(hi.rest);
    Read(hi.value * TWO32 + lo.value, lo.rest)
  }

  function Skip(s: seq<Byte>, n: nat): seq<Byte>
  {
    if n <= |s| then s[n..] else []
  }

  /** A number given as a difference from `base`, or in full after an escape. */
  function ReadCompressed(s: seq<Byte>, base: int): Read<int>
  {
    if |s| < 2 then Read(base, s) else
    var d := ReadS16(s);
    if d.value == ESCAPE then ReadU32(d.rest) else Read(base + d.value, d.rest)
  }

  // ---------------------------------------------------------------------------------------
  // Records
  // ---------------------------------------------------------------------------------------

  /** The twelve statistics; the seventh to ninth are relative to the last quantity, the others to the last price. */
  function StatBase(k: nat, ltp: int, ltq: int): int
  {
    if 6 <= k <= 8 then ltq else ltp
  }

  function ReadStats(s: seq<Byte>, k: nat, ltp: int, ltq: int): (r: Read<seq<int>>)
    requires k <= STATS
    ensures |r.value| == STATS - k
    decreases STATS - k
  {
    if k == STATS then Read([], s) else
    var v := ReadCompressed(s, StatBase(k, ltp, ltq));
    var more := ReadStats(v.rest, k + 1, ltp, ltq);
    Read([v.value] + more.value, more.rest)
  }

  /** The price of a level: a difference from the level before, or in full. */
  function ReadPrice(d: int, s: seq<Byte>, base: int): Read<int>
  {
    if d == ESCAPE then var u := ReadU32(s); Read(ToSigned(u.value, TWO32), u.rest) else Read(base + d, s)
  }

  /** The four numbers after a price; the first becomes the base of the next level. */
  function ReadQuantities(s: seq<Byte>, base: int): Read<int>
  {
    var q := ReadCompressed(s, base);
    var a := ReadCompressed(q.rest, base);
    var b := ReadCompressed(a.rest, base);
    var c := ReadCompressed(b.rest, base);
    Read(q.value, c.rest)
  }

  /** Levels `lvl` and later of a ladder; the value is the price of the first level. */
  function ReadLadder(s: seq<Byte>, end: int, points: nat, lvl: nat, priceBase: int, qtyBase: int, best: int): Read<int>
    requires lvl <= points
    decreases points - lvl
  {
    if lvl == points || s == [] then Read(best, s) else
    var d := ReadS16(s);
    if d.value == end then Read(best, d.rest) else
    var p := ReadPrice(d.value, d.rest, priceBase);
    var q := ReadQuantities(p.rest, qtyBase);
    ReadLadder(q.rest, end, points, lvl + 1, p.value, q.value, if lvl == 0 then p.value else best)
  }

  /** What one record tells: token, last price, open interest, best bid and best ask (prices in paise). */
  datatype Tick = Tick(token: int, ltp: int, oi: int, bestBid: int, bestAsk: int)

  /** The fixed part of a record. */
  datatype Head = Head(token: int, points: nat, ltq: int, ltp: int)

  function ReadHead(s: seq<Byte>, long: bool): (r: Read<Head>)
  {
    var token := ReadU32(if long then Skip(s, 4) else s);
    var points := ReadU16(Skip(token.rest, 46));
    var ltq := ReadU64(Skip(points.rest, 12));
    var ltp := ReadU32(ltq.rest);
    Read(Head(token.value, points.value, ToSigned(ltq.value, TWO64), ToSigned(ltp.value, TWO32)), ltp.rest)
  }

  function ReadRecord(s: seq<Byte>, long: bool): Read<Tick>
  {
    var h := ReadHead(s, long);
    var stats := ReadStats(h.rest, 0, h.value.ltp, h.value.ltq);
    var bid := ReadLadder(stats.rest, BID_END, h.value.points, 0, h.value.ltp, h.value.ltq, 0);
    var ask := ReadLadder(bid.rest, ASK_END, h.value.points, 0, h.value.ltp, h.value.ltq, 0);
    Read(Tick(h.value.token, h.value.ltp, ToU32(stats.value[OI_INDEX]), bid.value, ask.value), ask.rest)
  }

  /** Up to `n` records, until the packet ends. */
  function ReadRecords(s: seq<Byte>, n: nat, long: bool): Read<seq<Tick>>
    decreases n
  {
    if n == 0 || s == [] then Read([], s) else
    var r := ReadRecord(s, long);
    var more := ReadRecords(r.rest, n - 1, long);
    Read([r.value] + more.value, more.rest)
  }

  datatype Message = Ignored | IndexBroadcast | Derivatives(ticks: seq<Tick>, rest: seq<Byte>)

  /** `parse_bse`, up to the contract lookup of each tick. */
  function Parse(s: seq<Byte>): Message
  {
    if |s| < 28 then Ignored else
    var kind := ReadU32(s);
    if kind.value == 2011 || kind.value == 2012 then IndexBroadcast
    else if kind.value != 2020 && kind.value != 2021 then Ignored
    else
      var n := ReadU16(Skip(kind.rest, 22));
      var r := ReadRecords(n.rest, n.value, kind.value == 2021);
      Derivatives(r.value, r.rest)
  }

  // ---------------------------------------------------------------------------------------
  // The inverse encoder
  // ---------------------------------------------------------------------------------------

  function Enc16(v: int): (s: seq<Byte>)
    requires 0 <= v < TWO16
    ensures |s| == 2
  {
    [v / 256, v % 256]
  }

  function Enc32(v: int): (s: seq<Byte>)
    requires 0 <= v < TWO32
    ensures |s| == 4
  {
    Enc16(v / TWO16) + Enc16(v % TWO16)
  }

  function Enc64(v: int): (s: seq<Byte>)
    requires 0 <= v < TWO64
    ensures |s| == 8
  {
    Enc32(v / TWO32) + Enc32(v % TWO32)
  }

  function FromSigned(v: int, modulus: int): int
  {
    if v < 0 then v + modulus else v
  }

  predicate IsS16(v: int) { -32768 <= v <= 32767 }
  predicate IsS32(v: int) { -0x8000_0000 <= v < 0x8000_0000 }
  predicate IsS64(v: int) { -0x8000_0000_0000_0000 <= v < 0x8000_0000_0000_0000 }

  function EncS16(v: int): (s: seq<Byte>)
    requires IsS16(v)
    ensures |s| == 2
  {
    Enc16(FromSigned(v, TWO16))
  }

  /** Differences that fit two bytes without being the escape. */
  predicate Near(d: int)
  {
    -32768 <= d < 32767
  }

  /** The numbers the compressed format can express relative to a base. */
  predicate Expressible(base: int, v: int)
  {
    Near(v - base) || 0 <= v < TWO32
  }

  function EncCompressed(base: int, v: int): (s: seq<Byte>)
    requires Expressible(base, v)
    ensures |s| >= 2
  {
    if Near(v - base) then EncS16(v - base) else EncS16(32767) + Enc32(v)
  }

  /** A price: escaped when the difference does not fit or would read as the end marker. */
  function EncPrice(base: int, price: int, end: int): (s: seq<Byte>)
    requires IsS32(price)
    ensures |s| >= 2
  {
    var d := price - base;
    if Near(d) && d != end then EncS16(d) else EncS16(32767) + Enc32(FromSigned(price, TWO32))
  }

  datatype Level = Level(price: int, qty: int, orders: int, implied: int, spare: int)

  predicate LevelOk(l: Level, qtyBase: int)
  {
    && IsS32(l.price) && Expressible(qtyBase, l.qty) && Expressible(qtyBase, l.orders)
    && Expressible(qtyBase, l.implied) && Expressible(qtyBase, l.spare)
  }

  predicate LevelsOk(levels: seq<Level>, qtyBase: int)
  {
    levels != [] ==> LevelOk(levels[0], qtyBase) && LevelsOk(levels[1..], levels[0].qty)
  }

  function EncQuantities(l: Level, base: int): seq<Byte>
    requires LevelOk(l, base)
  {
    EncCompressed(base, l.qty) + (EncCompressed(base, l.orders) +
      (EncCompressed(base, l.implied) + EncCompressed(base, l.spare)))
  }

  /** A ladder, closed by the end marker only when it has fewer levels than announced. */
  function EncLadder(levels: seq<Level>, end: int, room: nat, priceBase: int, qtyBase: int): seq<Byte>
    requires LevelsOk(levels, qtyBase) && IsS16(end) && |levels| <= room
  {
    if levels == [] then (if room > 0 then EncS16(end) else []) else
    var l := levels[0];
    EncPrice(priceBase, l.price, end) + (EncQuantities(l, qtyBase) +
      EncLadder(levels[1..], end, room - 1, l.price, l.qty))
  }

  function EncStats(stats: seq<int>, k: nat, ltp: int, ltq: int): seq<Byte>
    requires |stats| == 12 - k && StatsOk(stats, k, ltp, ltq)
    decreases |stats|
  {
    if stats == [] then [] else
    EncCompressed(EncBase(k, ltp, ltq), stats[0]) + EncStats(stats[1..], k + 1, ltp, ltq)
  }

  /** The format's base of each statistic: the last quantity for numbers six to eight, the last price otherwise. */
  function EncBase(k: nat, ltp: int, ltq: int): int
  {
    if k in {6, 7, 8} then ltq else ltp
  }

  predicate StatsOk(stats: seq<int>, k: nat, ltp: int, ltq: int)
    decreases |stats|
  {
    stats != [] ==> Expressible(EncBase(k, ltp, ltq), stats[0]) && StatsOk(stats[1..], k + 1, ltp, ltq)
  }

  /** A record with everything the message carries; `upper`, `common` and `middle` are skipped by the reader. */
  datatype Record = Record(
    upper: seq<Byte>, token: int, common: seq<Byte>, points: nat, middle: seq<Byte>, ltq: int, ltp: int,
    stats: seq<int>, bids: seq<Level>, asks: seq<Level>)

  predicate RecordOk(r: Record)
  {
    && |r.upper| == 4 && |r.common| == 46 && |r.middle| == 12
    && 0 <= r.token < TWO32 && r.points < TWO16 && IsS64(r.ltq) && IsS32(r.ltp)
    && |r.stats| == 12 && StatsOk(r.stats, 0, r.ltp, r.ltq)
    && |r.bids| <= r.points && LevelsOk(r.bids, r.ltq)
    && |r.asks| <= r.points && LevelsOk(r.asks, r.ltq)
  }

  function EncHead(r: Record, long: bool): seq<Byte>
    requires RecordOk(r)
  {
    (if long then r.upper else []) + (Enc32(r.token) + (r.common + (Enc16(r.points) + (r.middle +
      (Enc64(FromSigned(r.ltq, TWO64)) + Enc32(FromSigned(r.ltp, TWO32)))))))
  }

  function EncRecord(r: Record, long: bool): seq<Byte>
    requires RecordOk(r)
  {
    EncHead(r, long) + (EncStats(r.stats, 0, r.ltp, r.ltq) +
      (EncLadder(r.bids, 32766, r.points, r.ltp, r.ltq) + EncLadder(r.asks, -32766, r.points, r.ltp, r.ltq)))
  }

  function EncRecords(rs: seq<Record>, long: bool): seq<Byte>
    requires forall i :: 0 <= i < |rs| ==> RecordOk(rs[i])
  {
    if rs == [] then [] else EncRecord(rs[0], long) + EncRecords(rs[1..], long)
  }

  /** A packet: message type, 22 bytes of header, number of records, records. */
  function EncPacket(long: bool, header: seq<Byte>, rs: seq<Record>): seq<Byte>
    requires |header| == 22 && |rs| < TWO16 && forall i :: 0 <= i < |rs| ==> RecordOk(rs[i])
  {
    Enc32(if long then 2021 else 2020) + (header + (Enc16(|rs|) + EncRecords(rs, long)))
  }

  function BestPrice(levels: seq<Level>): int
  {
    if levels == [] then 0 else levels[0].price
  }

  /** What the reader should report for a record. */
  function TickOf(r: Record): Tick
  {
    var oi := if |r.stats| > 9 then r.stats[9] % 0x1_0000_0000 else 0;
    Tick(r.token, r.ltp, oi, BestPrice(r.bids), BestPrice(r.asks))
  }

  function TicksOf(rs: seq<Record>): (ts: seq<Tick>)
    ensures |ts| == |rs| && forall i :: 0 <= i < |rs| ==> ts[i] == TickOf(rs[i])
  {
    seq(|rs|, i requires 0 <= i < |rs| => TickOf(rs[i]))
  }

  // ---------------------------------------------------------------------------------------
  // Round trip
  // ---------------------------------------------------------------------------------------

  lemma Read16(v: int, s: seq<Byte>)
    requires 0 <= v < TWO16
    ensures ReadU16(Enc16(v) + s) == Read(v, s)
  {
    var e := Enc16(v) + s;
    assert e[2..] == s;
  }

  lemma Read32(v: int, s: seq<Byte>)
    requires 0 <= v < TWO32
    ensures ReadU32(Enc32(v) + s) == Read(v, s)
  {
    var e := Enc32(v) + s;
    assert e[4..] == s;
    var hi, lo := v / TWO16, v % TWO16;
    assert e[0] == hi / 256 && e[1] == hi % 256 && e[2] == lo / 256 && e[3] == lo % 256;
  }

  lemma Read64(v: int, s: seq<Byte>)
    requires 0 <= v < TWO64
    ensures ReadU64(Enc64(v) + s) == Read(v, s)
  {
    hide Enc32, ReadU32;
    var hi, lo := v / TWO32, v % TWO32;
    assert Enc64(v) + s == Enc32(hi) + (Enc32(lo) + s);
    Read32(hi, Enc32(lo) + s);
    Read32(lo, s);
  }

  lemma ReadSigned16(v: int, s: seq<Byte>)
    requires IsS16(v)
    ensures ReadS16(EncS16(v) + s) == Read(v, s)
  {
    hide ReadU16, Enc16;
    Read16(FromSigned(v, TWO16), s);
  }

  lemma SkipExactly(a: seq<Byte>, s: seq<Byte>)
    ensures Skip(a + s, |a|) == s
  {
    assert (a + s)[|a|..] == s;
  }

  lemma ReadCompressedBack(base: int, v: int, s: seq<Byte>)
    requires Expressible(base, v)
    ensures ReadCompressed(EncCompressed(base, v) + s, base) == Read(v, s)
  {
    hide ReadS16, EncS16, ReadU32, Enc32;
    if Near(v - base) {
      ReadSigned16(v - base, s);
    } else {
      assert EncCompressed(base, v) + s == EncS16(32767) + (Enc32(v) + s);
      ReadSigned16(32767, Enc32(v) + s);
      Read32(v, s);
    }
  }

  /** A value can be read from some bytes exactly when it is expressible relative to the base. */
  lemma CompressedReach(base: int, v: int)
    ensures (exists s :: ReadCompressed(s, base).value == v) <==> Expressible(base, v)
  {
    if Expressible(base, v) {
      ReadCompressedBack(base, v, []);
      assert ReadCompressed(EncCompressed(base, v) + [], base).value == v;
    }
    forall s ensures Expressible(base, ReadCompressed(s, base).value) {
      ReadRanges(s);
      ReadRanges(ReadS16(s).rest);
    }
  }

  lemma ReadRanges(s: seq<Byte>)
    ensures -32768 <= ReadS16(s).value <= 32767 && 0 <= ReadU32(s).value < TWO32
  {
  }

  lemma ReadQuantitiesBack(l: Level, base: int, s: seq<Byte>)
    requires LevelOk(l, base)
    ensures ReadQuantities(EncQuantities(l, base) + s, base) == Read(l.qty, s)
  {
    hide ReadCompressed, EncCompressed;
    var q, a := EncCompressed(base, l.qty), EncCompressed(base, l.orders);
    var b, c := EncCompressed(base, l.implied), EncCompressed(base, l.spare);
    assert EncQuantities(l, base) + s == q + (a + (b + (c + s)));
    ReadCompressedBack(base, l.qty, a + (b + (c + s)));
    ReadCompressedBack(base, l.orders, b + (c + s));
    ReadCompressedBack(base, l.implied, c + s);
    ReadCompressedBack(base, l.spare, s);
  }

  /** Reading a price back: the difference read is not the end marker, and yields the price. */
  lemma ReadPriceBack(base: int, price: int, end: int, s: seq<Byte>)
    requires IsS32(price) && end != 32767
    ensures
      var d := ReadS16(EncPrice(base, price, end) + s);
      d.value != end && ReadPrice(d.value, d.rest, base) == Read(price, s)
  {
    hide ReadS16, EncS16, ReadU32, Enc32;
    var d := price - base;
    if Near(d) && d != end {
      ReadSigned16(d, s);
    } else {
      var u := FromSigned(price, TWO32);
      assert EncPrice(base, price, end) + s == EncS16(32767) + (Enc32(u) + s);
      ReadSigned16(32767, Enc32(u) + s);
      Read32(u, s);
    }
  }

  lemma LevelPrice(l: Level, qtyBase: int)
    requires LevelOk(l, qtyBase)
    ensures IsS32(l.price)
  {
  }

  lemma LadderCons(levels: seq<Level>, end: int, room: nat, priceBase: int, qtyBase: int, s: seq<Byte>)
    requires levels != [] && LevelsOk(levels, qtyBase) && IsS16(end) && |levels| <= room
    ensures
      var l := levels[0];
      EncLadder(levels, end, room, priceBase, qtyBase) + s ==
        EncPrice(priceBase, l.price, end) + (EncQuantities(l, qtyBase) +
          (EncLadder(levels[1..], end, room - 1, l.price, l.qty) + s))
  {
    hide EncPrice, EncQuantities, LevelOk;
  }

  lemma {:induction false} ReadLadderBack(levels: seq<Level>, end: int, points: nat, lvl: nat, priceBase: int,
                                          qtyBase: int, best: int, s: seq<Byte>)
    requires lvl <= points && |levels| <= points - lvl && LevelsOk(levels, qtyBase) && IsS16(end) && end != 32767
    ensures ReadLadder(EncLadder(levels, end, points - lvl, priceBase, qtyBase) + s, end, points, lvl, priceBase,
                       qtyBase, best)
         == Read(if lvl == 0 && levels != [] then levels[0].price else best, s)
    decreases |levels|
  {
    hide EncPrice, EncQuantities, LevelOk, ReadPrice, ReadQuantities, ReadS16, EncS16;
    if lvl == points {
      assert [] + s == s;
    } else if levels == [] {
      ReadSigned16(end, s);
    } else {
      var l := levels[0];
      var more := EncLadder(levels[1..], end, points - lvl - 1, l.price, l.qty) + s;
      LadderCons(levels, end, points - lvl, priceBase, qtyBase, s);
      LevelPrice(l, qtyBase);
      ReadPriceBack(priceBase, l.price, end, EncQuantities(l, qtyBase) + more);
      ReadQuantitiesBack(l, qtyBase, more);
      ReadLadderBack(levels[1..], end, points, lvl + 1, l.price, l.qty, if lvl == 0 then l.price else best, s);
    }
  }

  lemma {:induction false} ReadStatsBack(stats: seq<int>, k: nat, ltp: int, ltq: int, s: seq<Byte>)
    requires |stats| == 12 - k && StatsOk(stats, k, ltp, ltq)
    ensures ReadStats(EncStats(stats, k, ltp, ltq) + s, k, ltp, ltq) == Read(stats, s)
    decreases |stats|
  {
    hide ReadCompressed, EncCompressed, Expressible;
    if k == 12 {
      assert [] + s == s;
    } else {
      var base := EncBase(k, ltp, ltq);
      var more := EncStats(stats[1..], k + 1, ltp, ltq) + s;
      assert EncStats(stats, k, ltp, ltq) + s == EncCompressed(base, stats[0]) + more;
      ReadCompressedBack(base, stats[0], more);
      ReadStatsBack(stats[1..], k + 1, ltp, ltq, s);
      assert stats == [stats[0]] + stats[1..];
    }
  }

  lemma ReadHeadBack(r: Record, long: bool, s: seq<Byte>)
    requires RecordOk(r)
    ensures ReadHead(EncHead(r, long) + s, long) == Read(Head(r.token, r.points, r.ltq, r.ltp), s)
  {
    hide Enc16, Enc32, Enc64, ReadU16, ReadU32, ReadU64, Skip, StatsOk, LevelsOk;
    var q, p := Enc64(FromSigned(r.ltq, TWO64)), Enc32(FromSigned(r.ltp, TWO32));
    var e4 := q + (p + s);
    var e3 := r.middle + e4;
    var e2 := r.common + (Enc16(r.points) + e3);
    var e1 := Enc32(r.token) + e2;
    assert EncHead(r, long) + s == (if long then r.upper else []) + e1;
    if long {
      SkipExactly(r.upper, e1);
    } else {
      assert [] + e1 == e1;
    }
    Read32(r.token, e2);
    SkipExactly(r.common, Enc16(r.points) + e3);
    Read16(r.points, e3);
    SkipExactly(r.middle, e4);
    Read64(FromSigned(r.ltq, TWO64), p + s);
    Read32(FromSigned(r.ltp, TWO32), s);
  }

  lemma ReadRecordBack(r: Record, long: bool, s: seq<Byte>)
    requires RecordOk(r)
    ensures ReadRecord(EncRecord(r, long) + s, long) == Read(TickOf(r), s)
    ensures EncRecord(r, long) != []
  {
    hide EncHead, ReadHead, EncStats, ReadStats, EncLadder, ReadLadder, StatsOk, LevelsOk;
    var asks := EncLadder(r.asks, -32766, r.points, r.ltp, r.ltq) + s;
    var bids := EncLadder(r.bids, 32766, r.points, r.ltp, r.ltq) + asks;
    var stats := EncStats(r.stats, 0, r.ltp, r.ltq) + bids;
    assert EncRecord(r, long) + s == EncHead(r, long) + stats;
    ReadHeadBack(r, long, stats);
    ReadStatsBack(r.stats, 0, r.ltp, r.ltq, bids);
    ReadLadderBack(r.bids, 32766, r.points, 0, r.ltp, r.ltq, 0, asks);
    ReadLadderBack(r.asks, -32766, r.points, 0, r.ltp, r.ltq, 0, s);
    HeadNotEmpty(r, long);
  }

  lemma HeadNotEmpty(r: Record, long: bool)
    requires RecordOk(r)
    ensures EncHead(r, long) != []
  {
    hide StatsOk, LevelsOk, Enc16, Enc32, Enc64;
  }

  lemma {:induction false} ReadRecordsBack(rs: seq<Record>, long: bool, s: seq<Byte>)
    requires forall i :: 0 <= i < |rs| ==> RecordOk(rs[i])
    ensures ReadRecords(EncRecords(rs, long) + s, |rs|, long) == Read(TicksOf(rs), s)
  {
    hide RecordOk, EncRecord, ReadRecord, TickOf;
    if rs == [] {
      assert [] + s == s;
    } else {
      var more := EncRecords(rs[1..], long) + s;
      assert EncRecords(rs, long) + s == EncRecord(rs[0], long) + more;
      ReadRecordBack(rs[0], long, more);
      ReadRecordsBack(rs[1..], long, s);
      assert TicksOf(rs) == [TickOf(rs[0])] + TicksOf(rs[1..]);
    }
  }

  /**
   Reading an encoded packet, whatever follows it, yields the tick of every record in order, each
   record starting where the one before ended, and leaves exactly what follows.
   */
  lemma RoundTrip(long: bool, header: seq<Byte>, rs: seq<Record>, s: seq<Byte>)
    requires |header| == 22 && |rs| < TWO16 && forall i :: 0 <= i < |rs| ==> RecordOk(rs[i])
    ensures Parse(EncPacket(long, header, rs) + s) == Derivatives(TicksOf(rs), s)
  {
    hide RecordOk, EncRecords, ReadRecords, Enc16, Enc32, ReadU16, ReadU32, Skip, TicksOf, EncPacket;
    var kind := if long then 2021 else 2020;
    var body := EncRecords(rs, long) + s;
    var rest := header + (Enc16(|rs|) + body);
    PacketLayout(long, header, rs, s);
    assert |rest| >= 24;
    Read32(kind, rest);
    SkipExactly(header, Enc16(|rs|) + body);
    Read16(|rs|, body);
    ReadRecordsBack(rs, long, s);
  }

  lemma PacketLayout(long: bool, header: seq<Byte>, rs: seq<Record>, s: seq<Byte>)
    requires |header| == 22 && |rs| < TWO16 && forall i :: 0 <= i < |rs| ==> RecordOk(rs[i])
    ensures EncPacket(long, header, rs) + s
         == Enc32(if long then 2021 else 2020) + (header + (Enc16(|rs|) + (EncRecords(rs, long) + s)))
  {
    hide RecordOk, EncRecords, Enc16, Enc32;
    var a, n, body := Enc32(if long then 2021 else 2020), Enc16(|rs|), EncRecords(rs, long);
    AppendAssoc(a, header + (n + body), s);
    AppendAssoc(header, n + body, s);
    AppendAssoc(n, body, s);
  }
}
