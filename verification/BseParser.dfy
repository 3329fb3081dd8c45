/** The feed parser as a cursor that moves over a buffer, with the loops of `parse_bse`. */
module BseCursor {
  import opened BseFeed
  import opened Rounding
  import opened Sequences

  class BseParser {
    const buf: seq<Byte>
    var pos: nat

    ghost predicate Valid()
      reads this
    {
      pos <= |buf|
    }

    ghost function Rest(): seq<Byte>
      requires Valid()
      reads this
    {
      buf[pos..]
    }

    constructor (b: seq<Byte>)
      ensures Valid() && buf == b && Rest() == b
    {
      buf, pos := b, 0;
    }

    method Eof() returns (e: bool)
      requires Valid()
      ensures e == (Rest() == [])
    {
      e := pos >= |buf|;
    }

    method NextU16() returns (v: int)
      requires Valid()
      modifies this
      ensures Valid() && Read(v, Rest()) == ReadU16(old(Rest()))
    {
      if pos + 2 > |buf| {
        return 0;
      }
      v := U16(buf[pos], buf[pos + 1]);
      assert Rest()[2..] == buf[pos + 2..];
      pos := pos + 2;
    }

    method NextS16() returns (v: int)
      requires Valid()
      modifies this
      ensures Valid() && Read(v, Rest()) == ReadS16(old(Rest()))
    {
      var u := NextU16();
      v := ToSigned(u, TWO16);
    }

    method NextU32() returns (v: int)
      requires Valid()
      modifies this
      ensures Valid() && Read(v, Rest()) == ReadU32(old(Rest()))
    {
      if pos + 4 > |buf| {
        return 0;
      }
      v := U32(buf[pos], buf[pos + 1], buf[pos + 2], buf[pos + 3]);
      assert Rest()[4..] == buf[pos + 4..];
      pos := pos + 4;
    }

    method NextU64() returns (v: int)
      requires Valid()
      modifies this
      ensures Valid() && Read(v, Rest()) == ReadU64(old(Rest()))
    {
      if pos + 8 > |buf| {
        return 0;
      }
      hide ReadU32;
      var hi := NextU32();
      var lo := NextU32();
      v := hi * TWO32 + lo;
    }

    method SkipBytes(n: nat)
      requires Valid()
      modifies this
      ensures Valid() && Rest() == Skip(old(Rest()), n)
    {
      if pos + n <= |buf| {
        assert Rest()[n..] == buf[pos + n..];
        pos := pos + n;
      } else {
        pos := |buf|;
      }
    }

    method NextCompressed(base: int) returns (v: int)
      requires Valid()
      modifies this
      ensures Valid() && Read(v, Rest()) == ReadCompressed(old(Rest()), base)
    {
      if pos + 2 > |buf| {
        return base;
      }
      hide ReadS16, ReadU32;
      var diff := NextS16();
      if diff == ESCAPE {
        v := NextU32();
      } else {
        v := base + diff;
      }
    }

    method NextHead(long: bool) returns (h: Head)
      requires Valid()
      modifies this
      ensures Valid() && Read(h, Rest()) == ReadHead(old(Rest()), long)
    {
      hide ReadU16, ReadU32, ReadU64, Skip;
      if long {
        SkipBytes(4);
      }
      var token := NextU32();
      SkipBytes(46);
      ghost var s := Rest();
      var points := NextU16();
      assert points >= 0 by { PointsNonNegative(s); }
      SkipBytes(12);
      var ltq := NextU64();
      var ltp := NextU32();
      h := Head(token, points, ToSigned(ltq, TWO64), ToSigned(ltp, TWO32));
    }

    /** The loop over the statistics; only the open interest is kept. */
    method NextOpenInterest(ltp: int, ltq: int) returns (oi: int)
      requires Valid()
      modifies this
      ensures Valid() && ReadStats(old(Rest()), 0, ltp, ltq).rest == Rest()
      ensures oi == ReadStats(old(Rest()), 0, ltp, ltq).value[9] % 0x1_0000_0000
    {
      hide ReadCompressed, ReadStats;
      ghost var whole := ReadStats(Rest(), 0, ltp, ltq);
      ghost var seen: seq<int> := [];
      oi := 0;
      assert [] + whole.value == whole.value;
      for k := 0 to STATS
        invariant Valid() && |seen| == k
        invariant whole.value == seen + ReadStats(Rest(), k, ltp, ltq).value
        invariant whole.rest == ReadStats(Rest(), k, ltp, ltq).rest
        invariant k > OI_INDEX ==> oi == ToU32(seen[OI_INDEX])
      {
        StatsStep(Rest(), k, ltp, ltq);
        var v := NextCompressed(StatBase(k, ltp, ltq));
        if k == OI_INDEX {
          oi := ToU32(v);
        }
        AppendAssoc(seen, [v], ReadStats(Rest(), k + 1, ltp, ltq).value);
        seen := seen + [v];
      }
      StatsEnd(Rest(), ltp, ltq);
    }

    method NextQuantities(base: int) returns (qty: int)
      requires Valid()
      modifies this
      ensures Valid() && Read(qty, Rest()) == ReadQuantities(old(Rest()), base)
    {
      hide ReadCompressed;
      qty := NextCompressed(base);
      var orders := NextCompressed(base);
      var implied := NextCompressed(base);
      var spare := NextCompressed(base);
    }

    method NextPrice(diff: int, base: int) returns (price: int)
      requires Valid()
      modifies this
      ensures Valid() && Read(price, Rest()) == ReadPrice(diff, old(Rest()), base)
    {
      hide ReadU32;
      if diff == ESCAPE {
        var u := NextU32();
        price := ToSigned(u, TWO32);
      } else {
        price := base + diff;
      }
    }

    /** The loop over the levels of a ladder. */
    method NextLadder(end: int, points: nat, ltp: int, ltq: int) returns (best: int)
      requires Valid()
      modifies this
      ensures Valid() && Read(best, Rest()) == ReadLadder(old(Rest()), end, points, 0, ltp, ltq, 0)
    {
      hide ReadS16, ReadPrice, ReadQuantities;
      ghost var whole := ReadLadder(Rest(), end, points, 0, ltp, ltq, 0);
      best := 0;
      var priceBase, qtyBase, lvl := ltp, ltq, 0;
      while lvl < points
        invariant Valid() && lvl <= points
        invariant whole == ReadLadder(Rest(), end, points, lvl, priceBase, qtyBase, best)
      {
        var done := Eof();
        if done {
          return;
        }
        var diff := NextS16();
        if diff == end {
          return;
        }
        var price := NextPrice(diff, priceBase);
        if lvl == 0 {
          best := price;
        }
        var qty := NextQuantities(qtyBase);
        priceBase, qtyBase, lvl := price, qty, lvl + 1;
      }
    }

    method NextRecord(long: bool) returns (t: Tick)
      requires Valid()
      modifies this
      ensures Valid() && Read(t, Rest()) == ReadRecord(old(Rest()), long)
    {
      hide ReadHead, ReadStats, ReadLadder;
      var h := NextHead(long);
      var oi := NextOpenInterest(h.ltp, h.ltq);
      var bid := NextLadder(BID_END, h.points, h.ltp, h.ltq);
      var ask := NextLadder(ASK_END, h.points, h.ltp, h.ltq);
      t := Tick(h.token, h.ltp, oi, bid, ask);
    }
  }

  lemma PointsNonNegative(s: seq<Byte>)
    ensures ReadU16(s).value >= 0
  {
  }

  lemma StatsStep(s: seq<Byte>, k: nat, ltp: int, ltq: int)
    requires k < STATS
    ensures
      var v := ReadCompressed(s, StatBase(k, ltp, ltq));
      ReadStats(s, k, ltp, ltq) == Read([v.value] + ReadStats(v.rest, k + 1, ltp, ltq).value,
        ReadStats(v.rest, k + 1, ltp, ltq).rest)
  {
    hide ReadCompressed;
  }

  lemma StatsEnd(s: seq<Byte>, ltp: int, ltq: int)
    ensures ReadStats(s, STATS, ltp, ltq) == Read([], s)
  {
  }

  /** The ticks that are passed on: those whose contract is known. */
  function Known(ticks: seq<Tick>, contracts: set<int>): seq<Tick>
  {
    if ticks == [] then [] else (if ticks[0].token in contracts then [ticks[0]] else []) + Known(ticks[1..], contracts)
  }

  lemma {:induction false} KnownSnoc(ticks: seq<Tick>, t: Tick, contracts: set<int>)
    ensures Known(ticks + [t], contracts) == Known(ticks, contracts) + if t.token in contracts then [t] else []
  {
    if ticks == [] {
      assert ticks + [t] == [t];
    } else {
      assert (ticks + [t])[1..] == ticks[1..] + [t];
      KnownSnoc(ticks[1..], t, contracts);
      var first := if ticks[0].token in contracts then [ticks[0]] else [];
      AppendAssoc(first, Known(ticks[1..], contracts), if t.token in contracts then [t] else []);
    }
  }

  /** What the parser passes on for a packet. */
  function Delivered(m: Message, contracts: set<int>): seq<Tick>
  {
    if m.Derivatives? then Known(m.ticks, contracts) else []
  }

  /** The record loop. */
  method ReadAll(p: BseParser, n: nat, long: bool, contracts: set<int>) returns (out: seq<Tick>)
    requires p.Valid()
    modifies p
    ensures p.Valid()
    ensures out == Known(ReadRecords(old(p.Rest()), n, long).value, contracts)
    ensures p.Rest() == ReadRecords(old(p.Rest()), n, long).rest
  {
    hide ReadRecord, Known;
    ghost var whole := ReadRecords(p.Rest(), n, long);
    ghost var seen: seq<Tick> := [];
    out := [];
    NothingKnown(contracts);
    assert [] + whole.value == whole.value;
    var i := 0;
    while i < n
      invariant p.Valid() && i <= n
      invariant whole.value == seen + ReadRecords(p.Rest(), n - i, long).value
      invariant whole.rest == ReadRecords(p.Rest(), n - i, long).rest
      invariant out == Known(seen, contracts)
    {
      var done := p.Eof();
      if done {
        assert seen + [] == seen;
        return;
      }
      var t := p.NextRecord(long);
      KnownSnoc(seen, t, contracts);
      AppendAssoc(seen, [t], ReadRecords(p.Rest(), n - i - 1, long).value);
      seen := seen + [t];
      if t.token in contracts {
        out := out + [t];
      }
      i := i + 1;
    }
    assert seen + [] == seen;
  }

  lemma NothingKnown(contracts: set<int>)
    ensures Known([], contracts) == []
  {
  }

  predicate IsDerivative(s: seq<Byte>)
  {
    |s| >= 28 && (ReadU32(s).value == 2020 || ReadU32(s).value == 2021)
  }

  lemma OtherMessages(s: seq<Byte>, contracts: set<int>)
    requires !IsDerivative(s)
    ensures Delivered(Parse(s), contracts) == []
  {
    hide ReadU32, ReadU16, ReadRecords, Skip, Known;
  }

  lemma DerivativeMessage(s: seq<Byte>, contracts: set<int>)
    requires IsDerivative(s)
    ensures
      var kind := ReadU32(s);
      var n := ReadU16(Skip(kind.rest, 22));
      && n.value >= 0
      && Delivered(Parse(s), contracts) == Known(ReadRecords(n.rest, n.value, kind.value == 2021).value, contracts)
  {
    PointsNonNegative(Skip(ReadU32(s).rest, 22));
    hide ReadU32, ReadU16, ReadRecords, Skip, Known;
  }

  /** `parse_bse` for derivative messages; an index broadcast delivers no derivative tick. */
  method ParseBse(buffer: seq<Byte>, contracts: set<int>) returns (out: seq<Tick>)
    ensures out == Delivered(Parse(buffer), contracts)
  {
    hide ReadU16, ReadU32, ReadRecords, Skip, Known, Parse, Delivered;
    var p := new BseParser(buffer);
    if |buffer| < 28 {
      OtherMessages(buffer, contracts);
      return [];
    }
    var kind := p.NextU32();
    if kind != 2020 && kind != 2021 {
      OtherMessages(buffer, contracts);
      return [];
    }
    DerivativeMessage(buffer, contracts);
    p.SkipBytes(22);
    var n := p.NextU16();
    out := ReadAll(p, n, kind == 2021, contracts);
  }

  /** The parser passes on the known ticks and no others, in their order. */
  lemma {:induction false} KnownMeaning(xs: seq<Tick>, ys: seq<Tick>, t: Tick, contracts: set<int>)
    ensures Known(xs + ys, contracts) == Known(xs, contracts) + Known(ys, contracts)
    ensures Known([t], contracts) == if t.token in contracts then [t] else []
  {
    if ys == [] {
      assert xs + ys == xs && Known(xs, contracts) + [] == Known(xs, contracts);
    } else {
      var front, last := ys[..|ys| - 1], ys[|ys| - 1];
      KnownMeaning(xs, front, t, contracts);
      KnownSnoc(xs + front, last, contracts);
      KnownSnoc(front, last, contracts);
      hide Known;
      AppendAssoc(xs, front, [last]);
      AppendAssoc(Known(xs, contracts), Known(front, contracts), if last.token in contracts then [last] else []);
      assert front + [last] == ys;
    }
    assert [t][1..] == [];
  }

  lemma {:induction false} AllKnown(ticks: seq<Tick>, contracts: set<int>)
    requires forall i :: 0 <= i < |ticks| ==> ticks[i].token in contracts
    ensures Known(ticks, contracts) == ticks
  {
    if ticks != [] {
      AllKnown(ticks[1..], contracts);
    }
  }

  /** An encoded packet of known contracts, followed by anything, delivers the tick of every record, in order. */
  lemma PacketIsDelivered(long: bool, header: seq<Byte>, rs: seq<Record>, s: seq<Byte>, contracts: set<int>)
    requires |header| == 22 && |rs| < TWO16 && forall i :: 0 <= i < |rs| ==> RecordOk(rs[i])
    requires forall i :: 0 <= i < |rs| ==> rs[i].token in contracts
    ensures Delivered(Parse(EncPacket(long, header, rs) + s), contracts) == TicksOf(rs)
  {
    hide Parse, EncPacket, Known, RecordOk;
    RoundTrip(long, header, rs, s);
    AllKnown(TicksOf(rs), contracts);
  }

  /** Packets shorter than 28 bytes, and messages of other types than 2020 and 2021, deliver nothing. */
  lemma OthersAreIgnored(s: seq<Byte>, contracts: set<int>)
    requires |s| < 28 || ReadU32(s).value !in {2020, 2021}
    ensures Delivered(Parse(s), contracts) == []
  {
    hide ReadU32, ReadU16, ReadRecords, Skip, Known;
  }
}
