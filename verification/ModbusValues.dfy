/**
 Values of points, spelled out: which bytes go where under each byte order, what a write leaves
 in the coils and registers, what a poll makes of the bytes it gets, and when it does not poll.
 */
module ModbusValues {
  import opened Bytes
  import opened Modbus
  import opened ModbusPoint
  import ModbusLayout

  /** The four byte orders; other lengths and no order leave the bytes as they are. */
  lemma ByteOrders(s: bytes, order: ByteOrder)
    ensures |s| != 4 ==> ByteOrderConversion(s, order) == s
    ensures |s| == 4 ==>
              ByteOrderConversion(s, order) == match order
                                               case Abcd => s
                                               case Dcba => [s[3], s[2], s[1], s[0]]
                                               case Badc => [s[1], s[0], s[3], s[2]]
                                               case Cdab => [s[2], s[3], s[0], s[1]]
                                               case NoOrder => s
  {}

  /** Conversion to an integer cuts the fraction off, toward zero. */
  lemma TruncateIs(v: real, t: int)
    ensures Truncate(v) == t <==> if v >= 0.0 then t as real <= v < t as real + 1.0 else t as real - 1.0 < v <= t as real
  {}

  /** A coil goes off exactly when the value is the offset, and the scale is not zero. */
  lemma CoilAfter(f: FloatUnit, p: PointConfig, value: real, d: Device)
    requires p.functionCode == 1 && p.dataType.BoolType?
    ensures AfterWrite(f, p, value, d) == d.(coils := d.coils[p.address := p.scale == 0.0 || value != p.offset])
  {
    if p.scale != 0.0 {
      QuotientZero(p, value);
    }
  }

  lemma QuotientZero(p: PointConfig, value: real)
    requires p.scale != 0.0
    ensures (value - p.offset) / p.scale == 0.0 <==> value == p.offset
  {
    var q := (value - p.offset) / p.scale;
    assert q * p.scale == value - p.offset;
  }

  /**
   A 16-bit point's register holds the truncated quotient modulo 65536 when that is in the type's range, and
   whatever the machine makes of it otherwise; a zero scale gives no number, or an infinity.
   */
  lemma WordAfter(f: FloatUnit, p: PointConfig, value: real, d: Device, t: int)
    requires p.functionCode == 3 && (p.dataType.Int16Type? || p.dataType.Uint16Type?)
    requires p.scale != 0.0 ==>
               var q := (value - p.offset) / p.scale;
               if q >= 0.0 then t as real <= q < t as real + 1.0 else t as real - 1.0 < q <= t as real
    ensures var word := if p.scale == 0.0 then f.wild16(if value == p.offset then NotANumber else Infinite(value < p.offset))
                        else if (p.dataType.Int16Type? && -32768 <= t <= 32767) || (p.dataType.Uint16Type? && 0 <= t <= 65535)
                          then t % 0x1_0000
                        else f.wild16(Finite((value - p.offset) / p.scale));
            AfterWrite(f, p, value, d) == d.(hr := d.hr[p.address := word])
  {
    var word := Word(f, p.dataType, Raw(p, value));
    if p.scale != 0.0 {
      TruncateIs(Quotient(p, value), t);
    }
    StoreOne(d.hr, p.address, word);
    hide PutBE, StoreWords, Truncate;
  }

  /** The number a 32-bit point's bytes encode. */
  lemma LongIs(f: FloatUnit, p: PointConfig, value: real, t: int)
    requires p.dataType.Int32Type? || p.dataType.Uint32Type? || p.dataType.Float32Type?
    requires p.scale != 0.0 ==>
               var q := (value - p.offset) / p.scale;
               if q >= 0.0 then t as real <= q < t as real + 1.0 else t as real - 1.0 < q <= t as real
    ensures var raw := if p.scale != 0.0 then Finite((value - p.offset) / p.scale)
                       else if value == p.offset then NotANumber
                       else Infinite(value < p.offset);
            Long(f, p.dataType, Raw(p, value)) ==
            if p.dataType.Float32Type? then f.bits(raw)
            else if p.scale != 0.0 && ((p.dataType.Int32Type? && -0x8000_0000 <= t <= 0x7FFF_FFFF)
                                       || (p.dataType.Uint32Type? && 0 <= t <= 0xFFFF_FFFF))
              then t % 0x1_0000_0000
            else f.wild32(raw)
  {
    if p.scale != 0.0 {
      TruncateIs(Quotient(p, value), t);
    }
    hide Truncate;
  }

  /** Its four bytes, in the point's byte order, go to the point's register and the next one. */
  lemma LongAfter(f: FloatUnit, p: PointConfig, value: real, d: Device)
    requires p.functionCode == 3 && (p.dataType.Int32Type? || p.dataType.Uint32Type? || p.dataType.Float32Type?)
    ensures var s := ByteOrderConversion(PutBE(Long(f, p.dataType, Raw(p, value)), 4), p.byteOrder);
            AfterWrite(f, p, value, d) ==
            d.(hr := d.hr[p.address := GetBE(s[0..2])][(p.address + 1) % 0x1_0000 := GetBE(s[2..4])])
  {
    hide PutBE, GetBE, Long, ByteOrderConversion;
    var s := ByteOrderConversion(PutBE(Long(f, p.dataType, Raw(p, value)), 4), p.byteOrder);
    TwoWords(d.hr, p.address, s);
    hide StoreWords;
  }

  lemma TwoWords(hr: Words, address: uint16, s: bytes)
    requires |s| == 4
    ensures StoreWords(hr, address, s, 2) == hr[address := GetBE(s[0..2])][(address + 1) % 0x1_0000 := GetBE(s[2..4])]
  {
    hide GetBE;
    assert StoreWords(hr, address, s, 1) == StoreWords(hr, address, s, 0)[At(address, 0) := WordAt(s, 0)];
  }

  // ---- Polling ----

  /** What each type makes of the bytes a read returns; too few are a panic, except for float32. */
  lemma ParsesAs(f: FloatUnit, p: PointConfig, s: bytes)
    ensures ParsePointValue(f, p, s) ==
            match p.dataType
            case BoolType => if |s| < 1 then Panicked else Switch(s[0] != 0)
            case Int16Type =>
              if |s| < 2 then Panicked
              else
                var n := GetBE(s[..2]);
                Number((if n < 0x8000 then n else n - 0x1_0000) as real * p.scale + p.offset)
            case Uint16Type => if |s| < 2 then Panicked else Number(GetBE(s[..2]) as real * p.scale + p.offset)
            case Int32Type =>
              if |s| < 4 then Panicked
              else
                var n := GetBE(s[..4]);
                Number((if n < 0x8000_0000 then n else n - 0x1_0000_0000) as real * p.scale + p.offset)
            case Uint32Type => if |s| < 4 then Panicked else Number(GetBE(s[..4]) as real * p.scale + p.offset)
            case Float32Type =>
              if |s| < 4 then NoValue
              else
                var converted := ByteOrderConversion(s[..4], p.byteOrder);
                (Get4(converted); Number(f.number(GetBE(converted)) * p.scale + p.offset))
            case OtherType => NoValue
  {
    hide GetBE, ByteOrderConversion;
  }

  lemma NeverFailed(f: FloatUnit, p: PointConfig)
    ensures forall s :: ParsePointValue(f, p, s) != Failed && ParsePointValue(f, p, s) != Skipped
  {
    hide GetBE, ByteOrderConversion;
  }

  /** A point is left out when it is write-only or its function code does not read. */
  lemma SkippedIff(f: FloatUnit, p: PointConfig, d: Device, r: Polled)
    requires PollsTo(f, p, d, r)
    ensures r == Skipped <==> p.writeOnly || (p.functionCode != 1 && p.functionCode != 2 && p.functionCode != 3 && p.functionCode != 4)
  {
    hide CanRead, IsBitsReply;
  }

  /** A poll fails when its function code's table lacks one of the addresses, or the quantity is zero or over the limit. */
  lemma FailedIff(f: FloatUnit, p: PointConfig, d: Device, r: Polled)
    requires PollsTo(f, p, d, r) && r != Skipped
    ensures r == Failed <==>
            match p.functionCode
            case 1 => p.quantity < 1 || p.quantity > 2000 || exists a: uint16 | (a - p.address) % 0x1_0000 < p.quantity :: a !in d.coils
            case 2 => p.quantity < 1 || p.quantity > 2000 || exists a: uint16 | (a - p.address) % 0x1_0000 < p.quantity :: a !in d.di
            case 3 => p.quantity < 1 || p.quantity > 125 || exists a: uint16 | (a - p.address) % 0x1_0000 < p.quantity :: a !in d.hr
            case _ => p.quantity < 1 || p.quantity > 125 || exists a: uint16 | (a - p.address) % 0x1_0000 < p.quantity :: a !in d.ir
  {
    hide At, CanRead, IsBitsReply, ParsePointValue;
    Readable(p, d.coils, 2000);
    Readable(p, d.di, 2000);
    Readable(p, d.hr, 125);
    Readable(p, d.ir, 125);
    NeverFailed(f, p);
  }

  lemma Readable<T>(p: PointConfig, data: map<uint16, T>, limit: nat)
    ensures !CanRead(p, data, limit) <==>
            p.quantity < 1 || p.quantity > limit || exists a: uint16 | (a - p.address) % 0x1_0000 < p.quantity :: a !in data
  {
    ModbusLayout.AllThere(data, p.address, p.quantity);
    hide At;
  }

  /** It panics when it is read, but returns fewer bytes than its type takes. */
  lemma PanickedIff(f: FloatUnit, p: PointConfig, d: Device, r: Polled)
    requires PollsTo(f, p, d, r) && r != Skipped && r != Failed
    ensures r == Panicked <==>
            (if p.functionCode == 1 || p.functionCode == 2 then (p.quantity + 7) / 8 else 2 * p.quantity)
            < match p.dataType
              case BoolType => 1
              case Int16Type => 2
              case Uint16Type => 2
              case Int32Type => 4
              case Uint32Type => 4
              case Float32Type => 0
              case OtherType => 0
  {
    PollPanicsIff(f, p, d, r);
    hide CanRead, IsBitsReply, ParsePointValue;
  }

  /** What a register point yields is parsed from the table its function code names, word by word from its address on. */
  lemma RegistersPolled(f: FloatUnit, p: PointConfig, d: Device, r: Polled)
    requires PollsTo(f, p, d, r) && r != Skipped && r != Failed && p.functionCode >= 3
    ensures var data := if p.functionCode == 3 then d.hr else d.ir;
            && (forall i | 0 <= i < p.quantity :: At(p.address, i) in data)
            && r == ParsePointValue(f, p, WordBytes(data, p.address, p.quantity))
  {
    hide At, IsBitsReply, ParsePointValue, WordBytes;
  }

  // ---- What is emitted ----

  /** Exactly the points that yield a value are emitted, in the order of the points. */
  lemma {:induction false} EmittedPositions(points: seq<PointConfig>, results: seq<Polled>) returns (positions: seq<nat>)
    requires |points| == |results|
    ensures var readings := Emitted(points, results);
            && |positions| == |readings|
            && (forall i, j | 0 <= i < j < |positions| :: positions[i] < positions[j])
            && (forall i | 0 <= i < |positions| ::
                  positions[i] < |points| && readings[i] == (points[positions[i]].name, results[positions[i]]))
            && (forall k | 0 <= k < |points| :: k in positions <==> results[k].Switch? || results[k].Number?)
  {
    positions := [];
    if points != [] {
      var n := |points| - 1;
      var before := EmittedPositions(points[..n], results[..n]);
      positions := before + if results[n].Switch? || results[n].Number? then [n] else [];
      OneMorePosition(results, before, positions);
      hide *;
      EmittedNext(points, results);
    }
  }

  lemma EmittedNext(points: seq<PointConfig>, results: seq<Polled>)
    requires |points| == |results| > 0
    ensures var n := |points| - 1;
            Emitted(points, results) == Emitted(points[..n], results[..n])
                                        + if results[n].Switch? || results[n].Number? then [(points[n].name, results[n])] else []
  {}

  lemma OneMorePosition(results: seq<Polled>, before: seq<nat>, positions: seq<nat>)
    requires results != []
    requires forall k | 0 <= k < |results| - 1 :: k in before <==> results[k].Switch? || results[k].Number?
    requires forall k | k in before :: k < |results| - 1
    requires var n := |results| - 1; positions == before + if results[n].Switch? || results[n].Number? then [n] else []
    ensures forall k | 0 <= k < |results| :: k in positions <==> results[k].Switch? || results[k].Number?
  {}
}
