/**
 What a value written to a point reads back as, for every data type and byte order,
 and which polls a write leaves alone.
 */
module ModbusRoundTrip {
  import opened Bytes
  import opened Modbus
  import opened ModbusPoint

  /** The written value with the part its registers cannot hold dropped. */
  function Recovered(p: PointConfig, value: real): real
    requires p.scale != 0.0
  {
    Scaled(p, Truncate(Quotient(p, value)) as real)
  }

  function Distance(x: real, y: real): real {
    if x < y then y - x else x - y
  }

  // ---- How much is lost ----

  lemma TruncateClose(v: real)
    ensures Distance(Truncate(v) as real, v) < 1.0
    ensures 0.0 <= Truncate(v) as real <= v || v <= Truncate(v) as real <= 0.0
    ensures Truncate(v) as real == v <==> v == v.Floor as real
  {
    if v < 0.0 && v == v.Floor as real {
      var n := -v.Floor;
      assert -v == n as real;
      assert (-v).Floor == n;
    }
  }

  lemma Positive(x: real, y: real)
    requires x > 0.0 && y > 0.0
    ensures x * y > 0.0
  {}

  lemma RawTimesScale(x: real, s: real)
    requires s != 0.0
    ensures (x / s) * s == x
  {}

  /** Less than one scale step is lost, always towards the offset, and nothing exactly when the raw value is whole. */
  lemma LessThanOneStep(p: PointConfig, value: real)
    requires p.scale != 0.0
    ensures Distance(Recovered(p, value), value) < Distance(p.scale, 0.0)
    ensures Distance(Recovered(p, value), p.offset) <= Distance(value, p.offset)
    ensures Recovered(p, value) == value <==> Quotient(p, value) == Quotient(p, value).Floor as real
  {
    hide Quotient, Truncate;
    var raw := Quotient(p, value);
    TruncateClose(raw);
    RawScaled(p, value);
    Lost(raw, Truncate(raw) as real, p.scale, p.offset, value, Recovered(p, value));
  }

  lemma RawScaled(p: PointConfig, value: real)
    requires p.scale != 0.0
    ensures Scaled(p, Quotient(p, value)) == value
  {
    RawTimesScale(value - p.offset, p.scale);
  }

  lemma Lost(raw: real, whole: real, s: real, offset: real, value: real, kept: real)
    requires s != 0.0 && value == raw * s + offset && kept == whole * s + offset
    requires Distance(whole, raw) < 1.0 && (0.0 <= whole <= raw || raw <= whole <= 0.0)
    ensures Distance(kept, value) < Distance(s, 0.0)
    ensures Distance(kept, offset) <= Distance(value, offset)
    ensures kept == value <==> whole == raw
  {
    Rescaled(whole, raw, s, kept - offset, value - offset);
  }

  lemma SameSide(x: real, s: real, xs: real)
    requires xs == x * s
    ensures Distance(xs, 0.0) == Distance(x, 0.0) * Distance(s, 0.0)
    ensures s > 0.0 ==> (x >= 0.0 ==> xs >= 0.0) && (x <= 0.0 ==> xs <= 0.0)
    ensures s < 0.0 ==> (x >= 0.0 ==> xs <= 0.0) && (x <= 0.0 ==> xs >= 0.0)
  {
    if x == 0.0 || s == 0.0 {
      assert xs == 0.0;
    } else {
      var u, v := Distance(x, 0.0), Distance(s, 0.0);
      Positive(u, v);
      if x < 0.0 && s < 0.0 {
        assert (-x) * (-s) == xs;
      } else if x < 0.0 {
        assert (-x) * s == -xs;
      } else if s < 0.0 {
        assert x * (-s) == -xs;
      }
    }
  }

  lemma Rescaled(x: real, y: real, s: real, xs: real, ys: real)
    requires s != 0.0 && xs == x * s && ys == y * s
    requires Distance(x, y) < 1.0 && (0.0 <= x <= y || y <= x <= 0.0)
    ensures Distance(xs, ys) < Distance(s, 0.0)
    ensures Distance(xs, 0.0) <= Distance(ys, 0.0)
    ensures xs == ys <==> x == y
  {
    var u, v := Distance(x, 0.0), Distance(y, 0.0);
    SameSide(x, s, xs);
    SameSide(y, s, ys);
    ScaledUp(u, v, Distance(s, 0.0), Distance(xs, 0.0), Distance(ys, 0.0));
  }

  lemma Product(d: real, s: real, ds: real)
    requires 0.0 < d < 1.0 && s > 0.0 && ds == d * s
    ensures 0.0 < ds < s
  {
    var e := 1.0 - d;
    Positive(d, s);
    Positive(e, s);
    assert e * s == s - ds;
  }

  lemma ScaledUp(x: real, y: real, s: real, xs: real, ys: real)
    requires 0.0 <= x <= y < x + 1.0 && s > 0.0
    requires xs == x * s && ys == y * s
    ensures 0.0 <= xs <= ys < xs + s
    ensures xs == ys <==> x == y
  {
    if x > 0.0 {
      Positive(x, s);
    } else {
      assert xs == 0.0;
    }
    if x == y {
      assert xs == ys;
    } else {
      Product(y - x, s, ys - xs);
    }
  }

  // ---- The registers in between ----

  lemma LowWord(n: int)
    ensures -0x8000 <= n < 0x8000 ==> Signed(n % 0x1_0000, 0x8000) == n
    ensures 0 <= n < 0x1_0000 ==> n % 0x1_0000 == n
  {}

  lemma {:induction false} FirstWords(data: Words, addr: uint16, k: nat, qty: nat)
    requires k <= qty && forall i | 0 <= i < qty :: At(addr, i) in data
    ensures WordBytes(data, addr, qty)[..2 * k] == WordBytes(data, addr, k)
    decreases qty
  {
    if k < qty {
      FirstWords(data, addr, k, qty - 1);
      OneMoreWord(data, addr, qty);
      hide *;
      var s := WordBytes(data, addr, qty - 1);
      assert (s + PutBE(data[At(addr, qty - 1)], 2))[..2 * k] == s[..2 * k];
    }
  }

  /** The point can be polled and its type fits in what a poll reads. */
  predicate Monitored(p: PointConfig) {
    p.functionCode == 3 && !p.writeOnly && p.scale != 0.0 && Covered(p)
  }

  /** The registers a poll reads beyond the ones a write sets. */
  predicate OthersPresent(p: PointConfig, d: Device, k: nat) {
    p.quantity <= 125 && forall i | k <= i < p.quantity :: At(p.address, i) in d.hr
  }

  /** A poll after a write reads the written bytes first; it fails only for registers the write does not set. */
  lemma WrittenBytesRead(f: FloatUnit, p: PointConfig, value: real, d: Device)
    requires Monitored(p) && Permission(p).Written?
    requires var k := |RegisterBytes(f, p, value)| / 2; k <= p.quantity
    ensures var s, d' := RegisterBytes(f, p, value), AfterWrite(f, p, value, d);
            && (CanRead(p, d'.hr, 125) <==> OthersPresent(p, d, |s| / 2))
            && (CanRead(p, d'.hr, 125) ==> WordBytes(d'.hr, p.address, p.quantity)[..|s|] == s)
  {
    var s := RegisterBytes(f, p, value);
    AfterRegisterWrite(f, p, value, d);
    hide AfterWrite, RegisterBytes, At, StoreWords, WordBytes, Covered, Permission;
    StoredRead(d.hr, p.address, s, |s| / 2, p.quantity);
  }

  lemma AfterRegisterWrite(f: FloatUnit, p: PointConfig, value: real, d: Device)
    requires p.functionCode == 3 && p.scale != 0.0 && Permission(p).Written?
    ensures var s := RegisterBytes(f, p, value);
            |s| % 2 == 0 && AfterWrite(f, p, value, d).hr == StoreWords(d.hr, p.address, s, |s| / 2)
  {
    hide StoreWords;
  }

  lemma StoredRead(hr: Words, addr: uint16, s: bytes, k: nat, qty: uint16)
    requires |s| == 2 * k && k <= qty
    ensures var hr' := StoreWords(hr, addr, s, k);
            && ((forall i | 0 <= i < qty :: At(addr, i) in hr') <==> (forall i | k <= i < qty :: At(addr, i) in hr))
            && ((forall i | 0 <= i < qty :: At(addr, i) in hr') ==> WordBytes(hr', addr, qty)[..|s|] == s)
  {
    var hr' := StoreWords(hr, addr, s, k);
    RegistersStored(hr, addr, s, k, qty);
    hide At, StoreWords, WordBytes;
    if forall i | 0 <= i < qty :: At(addr, i) in hr' {
      WordBytesBack(hr', addr, s, k);
      FirstWords(hr', addr, k, qty);
      assert s[..|s|] == s;
    }
  }

  lemma RegistersStored(hr: Words, addr: uint16, s: bytes, k: nat, qty: uint16)
    requires 2 * k <= |s| && k <= qty
    ensures var hr' := StoreWords(hr, addr, s, k);
            && Holds(hr', addr, s, k) && (forall i | 0 <= i < k :: At(addr, i) in hr')
            && (forall i | k <= i < qty :: At(addr, i) in hr' <==> At(addr, i) in hr)
  {
    StoredAt(hr, addr, s, k, 0);
    forall i | k <= i < qty
      ensures At(addr, i) in StoreWords(hr, addr, s, k) <==> At(addr, i) in hr
    {
      forall j | 0 <= j < k
        ensures At(addr, j) != At(addr, i)
      {
        if At(addr, j) == At(addr, i) {
          SameAddress(addr, j, i);
        }
      }
      StoredAt(hr, addr, s, k, At(addr, i));
    }
  }

  // ---- What comes back ----

  lemma NumberOf(n: nat, k: nat)
    requires n < Pow256(k)
    ensures GetBE(PutBE(n, k)) == n && |PutBE(n, k)| == k
  {
    GetPutExact(n, k);
  }

  /**
   A 16-bit point reads back less than one scale step from what was written, and
   exactly that when the raw value is whole.
   */
  lemma WordReadsBack(f: FloatUnit, p: PointConfig, value: real, d: Device, r: Polled)
    requires Monitored(p) && OneRegister(p.dataType) && InRange(p.dataType, Raw(p, value))
    requires PollsTo(f, p, AfterWrite(f, p, value, d), r)
    ensures if !OthersPresent(p, d, 1) then r == Failed
            else r.Number? && Distance(r.value, value) < Distance(p.scale, 0.0)
                 && Distance(r.value, p.offset) <= Distance(value, p.offset)
                 && (r.value == value <==> Quotient(p, value) == Quotient(p, value).Floor as real)
  {
    var s, d' := RegisterBytes(f, p, value), AfterWrite(f, p, value, d);
    WrittenBytesRead(f, p, value, d);
    if OthersPresent(p, d, 1) {
      WordParsed(f, p, value, WordBytes(d'.hr, p.address, p.quantity));
      LessThanOneStep(p, value);
    }
  }

  lemma WordParsed(f: FloatUnit, p: PointConfig, value: real, results: bytes)
    requires Monitored(p) && OneRegister(p.dataType) && InRange(p.dataType, Raw(p, value))
    requires |results| == ReplySize(p) && results[..2] == RegisterBytes(f, p, value)
    ensures ParsePointValue(f, p, results) == Number(Recovered(p, value))
  {
    hide PutBE, GetBE, Quotient, Truncate;
    Powers();
    NumberOf(Word(f, p.dataType, Raw(p, value)), 2);
    LowWord(Truncate(Quotient(p, value)));
  }

  /**
   A 32-bit integer point reads back that close if and only if its bytes read the same
   in the point's byte order: polling ignores the order that writing applies.
   */
  lemma LongReadsBackIff(f: FloatUnit, p: PointConfig, value: real, d: Device, r: Polled)
    requires Monitored(p) && (p.dataType.Int32Type? || p.dataType.Uint32Type?) && InRange(p.dataType, Raw(p, value))
    requires PollsTo(f, p, AfterWrite(f, p, value, d), r)
    ensures if !OthersPresent(p, d, 2) then r == Failed
            else r.Number?
                 && (r.value == Recovered(p, value)
                     <==> Symmetric(PutBE(Long(f, p.dataType, Raw(p, value)), 4), p.byteOrder))
  {
    var s, d' := RegisterBytes(f, p, value), AfterWrite(f, p, value, d);
    WrittenBytesRead(f, p, value, d);
    if OthersPresent(p, d, 2) {
      LongParsed(f, p, value, WordBytes(d'.hr, p.address, p.quantity));
    }
  }

  lemma LongParsed(f: FloatUnit, p: PointConfig, value: real, results: bytes)
    requires Monitored(p) && (p.dataType.Int32Type? || p.dataType.Uint32Type?) && InRange(p.dataType, Raw(p, value))
    requires |results| == ReplySize(p) && results[..4] == RegisterBytes(f, p, value)
    ensures var r := ParsePointValue(f, p, results);
            r.Number? && (r.value == Recovered(p, value)
                          <==> Symmetric(PutBE(Long(f, p.dataType, Raw(p, value)), 4), p.byteOrder))
  {
    MonitoredScale(p);
    hide *;
    var k := LongOf(p.dataType, results[..4]);
    LongMatches(f, p, value, results[..4]);
    LongNumber(f, p, results);
    SameNumber(p, k, Truncate(Quotient(p, value)));
    RecoveredIs(p, value);
  }

  lemma MonitoredScale(p: PointConfig)
    requires Monitored(p)
    ensures p.scale != 0.0 && Covered(p)
    ensures p.dataType.Int32Type? || p.dataType.Uint32Type? ==> ReplySize(p) >= 4
  {}

  lemma LongNumber(f: FloatUnit, p: PointConfig, results: bytes)
    requires Covered(p) && (p.dataType.Int32Type? || p.dataType.Uint32Type?) && |results| == ReplySize(p)
    ensures |results| >= 4
    ensures ParsePointValue(f, p, results) == Number(Scaled(p, LongOf(p.dataType, results[..4]) as real))
  {
    hide GetBE;
  }

  lemma RecoveredIs(p: PointConfig, value: real)
    requires p.scale != 0.0
    ensures Recovered(p, value) == Scaled(p, Truncate(Quotient(p, value)) as real)
  {}

  /** The integer a 32-bit point decodes from its four bytes. */
  function LongOf(t: PointType, s: bytes): int {
    if t.Int32Type? then Signed(GetBE(s), 0x8000_0000) else GetBE(s)
  }

  lemma LongMatches(f: FloatUnit, p: PointConfig, value: real, s: bytes)
    requires Monitored(p) && (p.dataType.Int32Type? || p.dataType.Uint32Type?) && InRange(p.dataType, Raw(p, value))
    requires s == RegisterBytes(f, p, value)
    ensures LongOf(p.dataType, s) == Truncate(Quotient(p, value))
            <==> Symmetric(PutBE(Long(f, p.dataType, Raw(p, value)), 4), p.byteOrder)
  {
    hide PutBE, GetBE, Quotient, Truncate, ByteOrderConversion, Symmetric, Covered;
    ReorderedNumber(Long(f, p.dataType, Raw(p, value)), p.byteOrder, s);
    LowLong(Truncate(Quotient(p, value)), GetBE(s));
  }

  lemma LowLong(n: int, m: uint32)
    ensures -0x8000_0000 <= n < 0x8000_0000 ==> (Signed(m, 0x8000_0000) == n <==> m == n % 0x1_0000_0000)
    ensures 0 <= n < 0x1_0000_0000 ==> (m == n <==> m == n % 0x1_0000_0000)
  {}

  /** Read in the standard order, reordered bytes denote the same number only if reordering left them alone. */
  lemma ReorderedNumber(n: uint32, order: ByteOrder, s: bytes)
    requires s == ByteOrderConversion(PutBE(n, 4), order)
    ensures GetBE(s) < 0x1_0000_0000
    ensures GetBE(s) == n <==> Symmetric(PutBE(n, 4), order)
  {
    hide PutBE, GetBE, ByteOrderConversion, Symmetric;
    Powers();
    NumberOf(n, 4);
    SymmetricIff(PutBE(n, 4), order);
    PutGet(s);
  }

  lemma SameNumber(p: PointConfig, m: int, n: int)
    requires p.scale != 0.0
    ensures Scaled(p, m as real) == Scaled(p, n as real) <==> m == n
  {
    var x, y, s := m as real, n as real, p.scale;
    if x * s == y * s {
      assert x == (x * s) / s && y == (y * s) / s;
    }
  }

  /** For instance, 1 written to a little-endian counter polls as 16777216. */
  lemma LittleEndianOne(f: FloatUnit, name: string, address: uint16, d: Device, r: Polled)
    requires PollsTo(f, Counter(name, address), AfterWrite(f, Counter(name, address), 1.0, d), r)
    ensures r == Number(16777216.0)
  {
    var p := Counter(name, address);
    CounterBytes(f, p);
    hide RegisterBytes, GetBE, StoreWords, WordBytes, At;
    WrittenBytesRead(f, p, 1.0, d);
    CounterParsed(f, p, WordBytes(AfterWrite(f, p, 1.0, d).hr, address, 2));
  }

  lemma CounterBytes(f: FloatUnit, p: PointConfig)
    requires p == Counter(p.name, p.address)
    ensures RegisterBytes(f, p, 1.0) == [1, 0, 0, 0]
  {
    CounterLong(f, p);
    DigitsOfOne();
    hide PutBE, GetBE, Long, Raw;
  }

  lemma CounterLong(f: FloatUnit, p: PointConfig)
    requires p == Counter(p.name, p.address)
    ensures Long(f, p.dataType, Raw(p, 1.0)) == 1
  {
    assert Raw(p, 1.0) == Finite(1.0) && (1.0).Floor == 1;
  }

  lemma CounterParsed(f: FloatUnit, p: PointConfig, results: bytes)
    requires p == Counter(p.name, p.address) && |results| == 4 && results[..4] == [1, 0, 0, 0]
    ensures ParsePointValue(f, p, results) == Number(16777216.0)
  {
    hide GetBE;
    DigitsOfOne();
  }

  function Counter(name: string, address: uint16): PointConfig {
    PointConfig(name, 3, address, 2, Uint32Type, Dcba, 1.0, 0.0, false)
  }

  lemma DigitsOfOne()
    ensures PutBE(1, 4) == [0, 0, 0, 1] && GetBE([1, 0, 0, 0]) == 0x100_0000
  {
    ToByteExact(0, 0);
    ToByteExact(1, 1);
    assert PutBE(0, 1) == [0] && PutBE(0, 2) == [0, 0] && PutBE(0, 3) == [0, 0, 0];
    var s: bytes := [1, 0, 0, 0];
    assert s[..3] == [1, 0, 0] && s[..3][..2] == [1, 0] && s[..2][..1] == [1];
    assert GetBE([1]) == 1;
    assert GetBE([1, 0]) == 0x100;
    assert GetBE([1, 0, 0]) == 0x1_0000;
  }

  /** A float32 point keeps its bit pattern in every byte order. */
  lemma FloatReadsBack(f: FloatUnit, p: PointConfig, value: real, d: Device, r: Polled)
    requires Monitored(p) && p.dataType.Float32Type? && p.quantity >= 2
    requires PollsTo(f, p, AfterWrite(f, p, value, d), r)
    ensures if !OthersPresent(p, d, 2) then r == Failed
            else r == Number(Scaled(p, f.number(f.bits(Raw(p, value)))))
  {
    var s, d' := RegisterBytes(f, p, value), AfterWrite(f, p, value, d);
    WrittenBytesRead(f, p, value, d);
    if OthersPresent(p, d, 2) {
      FloatParsed(f, p, value, WordBytes(d'.hr, p.address, p.quantity));
    }
  }

  lemma FloatParsed(f: FloatUnit, p: PointConfig, value: real, results: bytes)
    requires Monitored(p) && p.dataType.Float32Type? && p.quantity >= 2
    requires |results| == ReplySize(p) && results[..4] == RegisterBytes(f, p, value)
    ensures ParsePointValue(f, p, results) == Number(Scaled(p, f.number(f.bits(Raw(p, value)))))
  {
    hide PutBE, GetBE, Quotient, ByteOrderConversion;
    Powers();
    var n := f.bits(Raw(p, value));
    NumberOf(n, 4);
    ConversionIsItsOwnInverse(PutBE(n, 4), p.byteOrder);
  }

  /** A coil point reads on exactly when some coil of the first polled byte is on; only coils the write does not set can make the poll fail. */
  lemma CoilReadsBack(f: FloatUnit, p: PointConfig, value: real, d: Device, r: Polled)
    requires p.functionCode == 1 && p.dataType.BoolType? && !p.writeOnly && Covered(p)
    requires PollsTo(f, p, AfterWrite(f, p, value, d), r)
    ensures var d' := AfterWrite(f, p, value, d);
            if p.quantity > 2000 || (exists i | 1 <= i < p.quantity :: At(p.address, i) !in d.coils) then r == Failed
            else r == Switch(exists i | 0 <= i < p.quantity && i < 8 :: d'.coils[At(p.address, i)])
  {
    var d' := AfterWrite(f, p, value, d);
    CoilPolled(f, p, d', r);
    hide At, PollsTo, Covered, Raw;
    CoilsPresent(p, d, d', Raw(p, value) != Finite(0.0));
  }

  /** A single coil reads on exactly when the value written is not the offset, or the scale is zero. */
  lemma OneCoilReadsBack(f: FloatUnit, p: PointConfig, value: real, d: Device, r: Polled)
    requires p.functionCode == 1 && p.dataType.BoolType? && !p.writeOnly && p.quantity == 1
    requires PollsTo(f, p, AfterWrite(f, p, value, d), r)
    ensures r == Switch(p.scale == 0.0 || value != p.offset)
  {
    hide At, PollsTo, Raw;
    CoilReadsBack(f, p, value, d, r);
    CoilsPresent(p, d, AfterWrite(f, p, value, d), Raw(p, value) != Finite(0.0));
    RawZero(p, value);
  }

  lemma CoilPolled(f: FloatUnit, p: PointConfig, d: Device, r: Polled)
    requires p.functionCode == 1 && p.dataType.BoolType? && !p.writeOnly && Covered(p)
    requires PollsTo(f, p, d, r)
    ensures if !CanRead(p, d.coils, 2000) then r == Failed
            else r == Switch(exists i | 0 <= i < p.quantity && i < 8 :: d.coils[At(p.address, i)])
  {
    hide At;
    if CanRead(p, d.coils, 2000) {
      var fc := ToByte(p.functionCode);
      var reply :| IsBitsReply(reply, fc, d.coils, p.address, p.quantity)
                   && r == ParsePointValue(f, p, reply[2..]);
      FirstByte(reply, fc, d.coils, p.address, p.quantity);
    }
  }

  lemma RawZero(p: PointConfig, value: real)
    ensures Raw(p, value) == Finite(0.0) <==> p.scale != 0.0 && value == p.offset
  {
    if p.scale != 0.0 {
      RawTimesScale(value - p.offset, p.scale);
    }
  }

  lemma CoilsPresent(p: PointConfig, d: Device, d': Device, on: bool)
    requires d'.coils == d.coils[p.address := on] && p.quantity >= 1
    ensures CanRead(p, d'.coils, 2000) <==> p.quantity <= 2000 && forall i | 1 <= i < p.quantity :: At(p.address, i) in d.coils
    ensures At(p.address, 0) == p.address
  {
    assert forall i | 1 <= i < p.quantity :: At(p.address, i) != p.address;
  }

  /** The first byte of a bit reply is zero exactly when the first eight bits are all off. */
  lemma FirstByte(reply: bytes, fc: byte, data: Flags, addr: uint16, qty: nat)
    requires IsBitsReply(reply, fc, data, addr, qty) && qty >= 1
    ensures reply[2..][0] != 0 <==> exists i | 0 <= i < qty && i < 8 :: data[At(addr, i)]
  {
    var s := reply[2..];
    BitMasks();
    hide BitMask, At;
    if s[0] != 0 {
      SomeBit(s[0]);
      var j :| 0 <= j < 8 && s[0] & BitMask(j) != 0;
      assert BitOf(s, j);
    }
  }

  lemma SomeBit(b: byte)
    requires b != 0
    ensures exists j | 0 <= j < 8 :: b & BitMask(j) != 0
  {
    BitMasks();
    hide BitMask;
    if forall j | 0 <= j < 8 :: b & BitMask(j) == 0 {
      NoBits(b);
    }
  }

  lemma NoBits(b: byte)
    requires forall j | 0 <= j < 8 :: b & BitMask(j) == 0
    ensures b == 0
  {
    BitMasks();
    hide BitMask;
    assert b & BitMask(0) == 0 && b & BitMask(1) == 0 && b & BitMask(2) == 0 && b & BitMask(3) == 0;
    assert b & BitMask(4) == 0 && b & BitMask(5) == 0 && b & BitMask(6) == 0 && b & BitMask(7) == 0;
    ByteOfBits(b, 0);
  }

  // ---- Points a write leaves alone ----

  /** The two points share no register of the table the write goes to. */
  ghost predicate Apart(p: PointConfig, q: PointConfig) {
    if p.functionCode == 1 then q.functionCode == 1 ==> forall i | 0 <= i < q.quantity :: At(q.address, i) != p.address
    else
      q.functionCode == 3 ==>
        forall i, j | 0 <= i < q.quantity && 0 <= j < (if OneRegister(p.dataType) then 1 else 2) ::
          At(q.address, i) != At(p.address, j)
  }

  /** Writing one point changes the poll of no point apart from it. */
  lemma OtherPointsKeep(f: FloatUnit, p: PointConfig, value: real, d: Device, q: PointConfig, r: Polled)
    requires Permission(p).Written? && Apart(p, q)
    ensures PollsTo(f, q, AfterWrite(f, p, value, d), r) <==> PollsTo(f, q, d, r)
  {
    if p.functionCode == 1 && q.functionCode == 1 {
      OtherCoilsKeep(f, d, d.coils[p.address := Raw(p, value) != Finite(0.0)], q, r);
    } else if p.functionCode == 3 && q.functionCode == 3 {
      OtherRegistersKeep(f, d, p.address, RegisterBytes(f, p, value), q, r);
    } else {
      OtherTables(f, d, AfterWrite(f, p, value, d), q, r);
    }
  }

  lemma OtherTables(f: FloatUnit, d: Device, d': Device, q: PointConfig, r: Polled)
    requires d'.ir == d.ir && d'.di == d.di
    requires (q.functionCode == 1 ==> d'.coils == d.coils) && (q.functionCode == 3 ==> d'.hr == d.hr)
    ensures PollsTo(f, q, d', r) <==> PollsTo(f, q, d, r)
  {}

  lemma OtherCoilsKeep(f: FloatUnit, d: Device, coils: Flags, q: PointConfig, r: Polled)
    requires q.functionCode == 1
    requires forall i | 0 <= i < q.quantity ::
               (At(q.address, i) in d.coils <==> At(q.address, i) in coils)
               && (At(q.address, i) in d.coils ==> coils[At(q.address, i)] == d.coils[At(q.address, i)])
    ensures PollsTo(f, q, d.(coils := coils), r) <==> PollsTo(f, q, d, r)
  {
    SameCoils(d.coils, coils, q);
    hide At, ParsePointValue, CanRead;
  }

  lemma OtherRegistersKeep(f: FloatUnit, d: Device, addr: uint16, s: bytes, q: PointConfig, r: Polled)
    requires q.functionCode == 3 && |s| % 2 == 0 && |s| <= 4
    requires forall i, j | 0 <= i < q.quantity && 0 <= j < |s| / 2 :: At(q.address, i) != At(addr, j)
    ensures PollsTo(f, q, d.(hr := StoreWords(d.hr, addr, s, |s| / 2)), r) <==> PollsTo(f, q, d, r)
  {
    SameRegisters(d.hr, addr, s, q);
    hide At, ParsePointValue, CanRead, StoreWords, WordBytes;
  }

  lemma SameCoils(data: Flags, data': Flags, q: PointConfig)
    requires forall i | 0 <= i < q.quantity ::
               (At(q.address, i) in data <==> At(q.address, i) in data')
               && (At(q.address, i) in data ==> data'[At(q.address, i)] == data[At(q.address, i)])
    ensures CanRead(q, data', 2000) == CanRead(q, data, 2000)
    ensures forall reply, fc :: IsBitsReply(reply, fc, data', q.address, q.quantity) <==> IsBitsReply(reply, fc, data, q.address, q.quantity)
  {
    hide At, BitOf;
  }

  lemma SameRegisters(hr: Words, addr: uint16, s: bytes, q: PointConfig)
    requires |s| % 2 == 0 && |s| <= 4
    requires forall i, j | 0 <= i < q.quantity && 0 <= j < |s| / 2 :: At(q.address, i) != At(addr, j)
    ensures var hr' := StoreWords(hr, addr, s, |s| / 2);
            CanRead(q, hr', 125) == CanRead(q, hr, 125)
            && (CanRead(q, hr, 125) ==> WordBytes(hr', q.address, q.quantity) == WordBytes(hr, q.address, q.quantity))
  {
    var hr' := StoreWords(hr, addr, s, |s| / 2);
    hide At, StoreWords, WordBytes;
    forall i | 0 <= i < q.quantity
      ensures At(q.address, i) in hr' <==> At(q.address, i) in hr
      ensures At(q.address, i) in hr ==> hr'[At(q.address, i)] == hr[At(q.address, i)]
    {
      StoredAt(hr, addr, s, |s| / 2, At(q.address, i));
    }
    SameWordsRead(hr, hr', q.address, q.quantity);
  }

  lemma {:induction false} SameWordsRead(data: Words, data': Words, addr: uint16, qty: nat)
    requires forall i | 0 <= i < qty ::
               (At(addr, i) in data <==> At(addr, i) in data') && (At(addr, i) in data ==> data'[At(addr, i)] == data[At(addr, i)])
    ensures (forall i | 0 <= i < qty :: At(addr, i) in data) ==> WordBytes(data', addr, qty) == WordBytes(data, addr, qty)
  {
    if qty > 0 {
      SameWordsRead(data, data', addr, qty - 1);
    }
  }
}
