/**
 The frame checksum: CRC-16 with generator x^16 + x^12 + x^5 + 1, initial value
 0xFFFF and no final xor. The table-driven loop is proved equal to a bit-serial
 register, the register to the remainder of polynomial division over GF(2), and
 from that follow linearity, burst detection and the zero residue.
 Bit strings are most significant bit first.
 */
module Crc {
  import opened Bytes

  const POLY: bv16 := 0x1021
  const INIT: bv16 := 0xFFFF

  // ---- The bit-serial register ----

  /** A zero bit passes through the register. */
  function Shift(crc: bv16): bv16 {
    if crc & 0x8000 != 0 then (crc << 1) ^ POLY else crc << 1
  }

  function ShiftN(crc: bv16, n: nat): bv16
    decreases n
  {
    if n == 0 then crc else ShiftN(Shift(crc), n - 1)
  }

  function FeedBits(crc: bv16, bits: seq<bool>): bv16
    decreases bits
  {
    if bits == [] then crc else FeedBits(Shift(if bits[0] then crc ^ 0x8000 else crc), bits[1..])
  }

  function ByteMask(i: nat): byte
    requires i < 8
  {
    if i == 0 then 0x80 else ByteMask(i - 1) >> 1
  }

  function BitsOf(b: byte): (bits: seq<bool>)
    ensures |bits| == 8
  {
    seq(8, i requires 0 <= i < 8 => b & ByteMask(i) != 0)
  }

  function Bits(data: bytes): (bits: seq<bool>)
    ensures |bits| == 8 * |data|
  {
    if data == [] then [] else BitsOf(data[0]) + Bits(data[1..])
  }

  /** The checksum of a byte string, one bit at a time. */
  function Checksum(data: bytes): bv16 {
    FeedBits(INIT, Bits(data))
  }

  // ---- The table and the fast loop ----

  function Entry(i: byte): bv16 {
    ShiftN((i as bv16) << 8, 8)
  }

  function High(crc: bv16): byte {
    (crc >> 8) as bv8
  }

  function TableStep(crc: bv16, b: byte): bv16 {
    (crc << 8) ^ Entry(High(crc) ^ b)
  }

  ghost predicate IsTable(table: array<bv16>)
    reads table
  {
    table.Length == 256 && forall i | 0 <= i < 256 :: table[i] == Entry(ToByte(i))
  }

  method FillTable(table: array<bv16>)
    requires table.Length == 256
    modifies table
    ensures IsTable(table)
  {
    for i := 0 to 256
      invariant forall k | 0 <= k < i :: table[k] == Entry(ToByte(k))
    {
      hide ToByte;
      var crc := (ToByte(i) as bv16) << 8;
      assert ShiftN(crc, 8) == Entry(ToByte(i));
      hide Entry;
      for j := 0 to 8
        invariant ShiftN(crc, 8 - j) == Entry(ToByte(i))
      {
        if crc & 0x8000 != 0 {
          crc := (crc << 1) ^ POLY;
        } else {
          crc := crc << 1;
        }
      }
      table[i] := crc;
    }
  }

  method CalChecksum(table: array<bv16>, payload: bytes) returns (crc: bv16)
    requires IsTable(table)
    ensures crc == Checksum(payload)
    ensures payload == [] ==> crc == 0xFFFF
  {
    crc := INIT;
    assert payload[0..] == payload;
    for i := 0 to |payload|
      invariant FeedBits(crc, Bits(payload[i..])) == Checksum(payload)
    {
      BytePeel(crc, payload, i);
      var entry := Lookup(table, High(crc) ^ payload[i]);
      crc := (crc << 8) ^ entry;
    }
  }

  method Lookup(table: array<bv16>, i: byte) returns (entry: bv16)
    requires IsTable(table)
    ensures entry == Entry(i)
  {
    IndexInRange(i);
    entry := table[i as int];
  }

  lemma IndexInRange(i: byte)
    ensures i as int < 256 && ToByte(i as int) == i
  {
    assert ToByte(i as int) as int == i as int;
    assert (i as int) as bv8 == i;
  }

  lemma BytePeel(crc: bv16, payload: bytes, i: nat)
    requires i < |payload|
    ensures FeedBits(crc, Bits(payload[i..])) == FeedBits(TableStep(crc, payload[i]), Bits(payload[i + 1..]))
  {
    assert payload[i..][1..] == payload[i + 1..];
    FeedAppend(crc, BitsOf(payload[i]), Bits(payload[i + 1..]));
    EightBitsAreOneTableStep(crc, payload[i]);
  }

  lemma {:induction false} FeedAppend(crc: bv16, a: seq<bool>, b: seq<bool>)
    ensures FeedBits(crc, a + b) == FeedBits(FeedBits(crc, a), b)
    decreases a
  {
    if a == [] {
      assert a + b == b;
    } else {
      assert (a + b)[1..] == a[1..] + b;
      FeedAppend(Shift(if a[0] then crc ^ 0x8000 else crc), a[1..], b);
    }
  }

  // ---- The same register as a list of sixteen bits ----

  type reg = r: seq<bool> | |r| == 16 witness [false, false, false, false, false, false, false, false,
                                               false, false, false, false, false, false, false, false]

  function Zeros(n: nat): (z: seq<bool>)
    ensures |z| == n && forall i | 0 <= i < n :: !z[i]
  {
    seq(n, i => false)
  }

  function Xor(a: seq<bool>, b: seq<bool>): (c: seq<bool>)
    requires |a| == |b|
    ensures |c| == |a| && forall i | 0 <= i < |a| :: c[i] == (a[i] != b[i])
  {
    seq(|a|, i requires 0 <= i < |a| => a[i] != b[i])
  }

  function Mask(i: nat): bv16
    requires i < 16
  {
    if i == 0 then 0x8000 else Mask(i - 1) >> 1
  }

  function RegBits(x: bv16): reg {
    seq(16, i requires 0 <= i < 16 => x & Mask(i) != 0)
  }

  /** The generator without its leading term, x^12 + x^5 + 1; position i holds the coefficient of x^(15 - i). */
  function PolyBits(): reg {
    seq(16, i => 15 - i == 12 || 15 - i == 5 || 15 - i == 0)
  }

  function Step(r: reg): reg {
    var s := r[1..] + [false];
    if r[0] then Xor(s, PolyBits()) else s
  }

  function Run(r: reg, bits: seq<bool>): reg
    decreases bits
  {
    if bits == [] then r else Run(Step(r[0 := r[0] != bits[0]]), bits[1..])
  }

  lemma MaskValues()
    ensures Mask(0) == 0x8000 && Mask(1) == 0x4000 && Mask(2) == 0x2000 && Mask(3) == 0x1000
    ensures Mask(4) == 0x0800 && Mask(5) == 0x0400 && Mask(6) == 0x0200 && Mask(7) == 0x0100
    ensures Mask(8) == 0x0080 && Mask(9) == 0x0040 && Mask(10) == 0x0020 && Mask(11) == 0x0010
    ensures Mask(12) == 0x0008 && Mask(13) == 0x0004 && Mask(14) == 0x0002 && Mask(15) == 0x0001
  {
    assert Mask(3) == 0x1000 && Mask(6) == 0x0200 && Mask(9) == 0x0040 && Mask(12) == 0x0008;
  }

  lemma ByteMaskValues()
    ensures ByteMask(0) == 0x80 && ByteMask(1) == 0x40 && ByteMask(2) == 0x20 && ByteMask(3) == 0x10
    ensures ByteMask(4) == 0x08 && ByteMask(5) == 0x04 && ByteMask(6) == 0x02 && ByteMask(7) == 0x01
  {
    assert ByteMask(3) == 0x10 && ByteMask(6) == 0x02;
  }

  lemma {:induction false} MaskIsOneBit(i: nat)
    requires i < 16
    ensures Mask(i) & (Mask(i) - 1) == 0
    ensures i < 15 ==> Mask(i) & 1 == 0
  {
    MaskValues();
  }

  lemma {:induction false} ByteMasks(i: nat)
    requires i < 8
    ensures ByteMask(i) & (ByteMask(i) - 1) == 0
    ensures Mask(i) == (ByteMask(i) as bv16) << 8
    ensures Mask(i + 8) == ByteMask(i) as bv16
  {
    MaskValues();
    ByteMaskValues();
  }

  lemma XorMask(x: bv16, y: bv16, m: bv16)
    requires m & (m - 1) == 0
    ensures ((x ^ y) & m != 0) == ((x & m != 0) != (y & m != 0))
  {}

  lemma ByteXorMask(x: byte, y: byte, m: byte)
    requires m & (m - 1) == 0
    ensures ((x ^ y) & m != 0) == ((x & m != 0) != (y & m != 0))
  {}

  lemma RegXor(x: bv16, y: bv16)
    ensures RegBits(x ^ y) == Xor(RegBits(x), RegBits(y))
  {
    forall i | 0 <= i < 16
      ensures RegBits(x ^ y)[i] == (RegBits(x)[i] != RegBits(y)[i])
    {
      MaskIsOneBit(i);
      XorMask(x, y, Mask(i));
    }
  }

  lemma ByteXor(x: byte, y: byte)
    ensures BitsOf(x ^ y) == Xor(BitsOf(x), BitsOf(y))
  {
    forall i | 0 <= i < 8
      ensures BitsOf(x ^ y)[i] == (BitsOf(x)[i] != BitsOf(y)[i])
    {
      ByteMasks(i);
      ByteXorMask(x, y, ByteMask(i));
    }
  }

  lemma ShiftedMask(x: bv16, m: bv16)
    requires m & 1 == 0
    ensures (x << 1) & m != 0 <==> x & (m >> 1) != 0
  {}

  lemma ShiftedOne(x: bv16)
    ensures RegBits(x << 1) == RegBits(x)[1..] + [false]
  {
    hide *;
    forall i | 0 <= i < 16
      ensures RegBits(x << 1)[i] == (RegBits(x)[1..] + [false])[i]
    {
      ShiftedBit(x, i);
    }
  }

  lemma ShiftedBit(x: bv16, i: nat)
    requires i < 16
    ensures RegBits(x << 1)[i] == if i < 15 then RegBits(x)[i + 1] else false
  {
    MaskIsOneBit(i);
    if i < 15 {
      ShiftedMask(x, Mask(i));
    } else {
      MaskValues();
      assert (x << 1) & 1 == 0;
    }
  }

  lemma PolyRefines()
    ensures RegBits(POLY) == PolyBits()
    ensures RegBits(0x8000) == Zeros(16)[0 := true]
  {
    MaskValues();
  }

  lemma StepRefines(x: bv16)
    ensures RegBits(Shift(x)) == Step(RegBits(x))
  {
    ShiftedOne(x);
    RegXor(x << 1, POLY);
    PolyRefines();
  }

  lemma TopRefines(x: bv16, bit: bool)
    ensures RegBits(if bit then x ^ 0x8000 else x) == RegBits(x)[0 := RegBits(x)[0] != bit]
  {
    if bit {
      FlipTop(x, 0x8000);
    }
  }

  lemma FlipTop(x: bv16, y: bv16)
    requires y == 0x8000
    ensures RegBits(x ^ y) == RegBits(x)[0 := !RegBits(x)[0]]
  {
    RegXor(x, y);
    PolyRefines();
  }

  lemma RegInjective(x: bv16, y: bv16)
    requires RegBits(x) == RegBits(y)
    ensures x == y
  {
    RegXor(x, y);
    MaskValues();
    var d := x ^ y;
    var r := RegBits(d);
    assert !r[0] && !r[1] && !r[2] && !r[3] && !r[4] && !r[5] && !r[6] && !r[7];
    assert !r[8] && !r[9] && !r[10] && !r[11] && !r[12] && !r[13] && !r[14] && !r[15];
    NoMaskSet(d);
    XorZero(x, y);
  }

  lemma NoMaskSet(d: bv16)
    requires d & 0x8000 == 0 && d & 0x4000 == 0 && d & 0x2000 == 0 && d & 0x1000 == 0
    requires d & 0x0800 == 0 && d & 0x0400 == 0 && d & 0x0200 == 0 && d & 0x0100 == 0
    requires d & 0x0080 == 0 && d & 0x0040 == 0 && d & 0x0020 == 0 && d & 0x0010 == 0
    requires d & 0x0008 == 0 && d & 0x0004 == 0 && d & 0x0002 == 0 && d & 0x0001 == 0
    ensures d == 0
  {}

  lemma ByteInjective(x: byte, y: byte)
    requires BitsOf(x) == BitsOf(y)
    ensures x == y
  {
    ByteOnTop(x);
    ByteOnTop(y);
    RegInjective((x as bv16) << 8, (y as bv16) << 8);
    assert ((x as bv16) << 8) >> 8 == x as bv16;
  }

  lemma HighMask(x: bv16, m: byte)
    ensures ((x >> 8) as bv8) & m != 0 <==> x & ((m as bv16) << 8) != 0
  {}

  lemma LowMask(x: bv16, m: byte)
    ensures ((x & 0xFF) as bv8) & m != 0 <==> x & (m as bv16) != 0
  {}

  lemma HighByte(x: bv16)
    ensures BitsOf((x >> 8) as bv8) == RegBits(x)[..8]
  {
    forall i | 0 <= i < 8
      ensures BitsOf((x >> 8) as bv8)[i] == RegBits(x)[..8][i]
    {
      ByteMasks(i);
      HighMask(x, ByteMask(i));
    }
  }

  lemma LowByte(x: bv16)
    ensures BitsOf((x & 0xFF) as bv8) == RegBits(x)[8..]
  {
    forall i | 0 <= i < 8
      ensures BitsOf((x & 0xFF) as bv8)[i] == RegBits(x)[8..][i]
    {
      ByteMasks(i);
      LowMask(x, ByteMask(i));
    }
  }

  lemma ShiftedLow(x: bv16)
    ensures RegBits(x << 8) == RegBits(x)[8..] + Zeros(8)
  {
    var low := (x & 0xFF) as bv8;
    assert x << 8 == (low as bv16) << 8;
    ByteOnTop(low);
    LowByte(x);
  }

  lemma ByteOnTop(b: byte)
    ensures RegBits((b as bv16) << 8) == BitsOf(b) + Zeros(8)
  {
    var x := (b as bv16) << 8;
    HighByte(x);
    LowByte(x);
    assert (x >> 8) as bv8 == b && (x & 0xFF) as bv8 == 0;
    assert BitsOf(0) == Zeros(8);
    assert RegBits(x) == RegBits(x)[..8] + RegBits(x)[8..];
  }

  lemma ZeroReg(x: bv16)
    ensures RegBits(0) == Zeros(16)
    ensures x == 0 <==> RegBits(x) == Zeros(16)
  {
    assert RegBits(0) == Zeros(16);
    if RegBits(x) == RegBits(0) {
      RegInjective(x, 0);
    }
  }

  lemma {:induction false} RunRefines(crc: bv16, bits: seq<bool>)
    ensures RegBits(FeedBits(crc, bits)) == Run(RegBits(crc), bits)
    decreases bits
  {
    if bits != [] {
      var x := if bits[0] then crc ^ 0x8000 else crc;
      TopRefines(crc, bits[0]);
      StepRefines(x);
      RunRefines(Shift(x), bits[1..]);
    }
  }

  lemma {:induction false} ShiftNRefines(crc: bv16, n: nat)
    ensures RegBits(ShiftN(crc, n)) == Run(RegBits(crc), Zeros(n))
    decreases n
  {
    if n > 0 {
      assert RegBits(crc)[0 := RegBits(crc)[0] != Zeros(n)[0]] == RegBits(crc);
      assert Zeros(n)[1..] == Zeros(n - 1);
      StepRefines(crc);
      ShiftNRefines(Shift(crc), n - 1);
    }
  }

  // ---- The list register is linear, and sixteen bits can be read off it ----

  lemma StepLinear(x: reg, y: reg)
    ensures Step(Xor(x, y)) == Xor(Step(x), Step(y))
  {}

  lemma {:induction false} RunLinear(x: reg, a: seq<bool>, y: reg, b: seq<bool>)
    requires |a| == |b|
    ensures Run(Xor(x, y), Xor(a, b)) == Xor(Run(x, a), Run(y, b))
    decreases a
  {
    if a != [] {
      var x', y' := x[0 := x[0] != a[0]], y[0 := y[0] != b[0]];
      var z: reg := Xor(x, y);
      assert z[0 := z[0] != Xor(a, b)[0]] == Xor(x', y');
      assert Xor(a, b)[1..] == Xor(a[1..], b[1..]);
      StepLinear(x', y');
      RunLinear(Step(x'), a[1..], Step(y'), b[1..]);
    }
  }

  lemma {:induction false} RunAppend(r: reg, a: seq<bool>, b: seq<bool>)
    ensures Run(r, a + b) == Run(Run(r, a), b)
    decreases a
  {
    if a == [] {
      assert a + b == b;
    } else {
      assert (a + b)[1..] == a[1..] + b;
      RunAppend(Step(r[0 := r[0] != a[0]]), a[1..], b);
    }
  }

  lemma StepZero(r: reg)
    ensures Step(r) == Zeros(16) <==> r == Zeros(16)
  {
    if Step(r) == Zeros(16) {
      assert Step(r)[15] == r[0];
      assert forall i | 0 <= i < 15 :: Step(r)[i] == r[1..][i];
      assert forall i | 1 <= i < 16 :: r[i] == r[1..][i - 1];
    }
  }

  /** Zero bits never hide a difference: the register is zero after them only if it was before. */
  lemma {:induction false} RunZeros(r: reg, bits: seq<bool>)
    requires bits == Zeros(|bits|)
    ensures Run(r, bits) == Zeros(16) <==> r == Zeros(16)
    decreases bits
  {
    if bits != [] {
      assert r[0 := r[0] != bits[0]] == r;
      StepZero(r);
      RunZeros(Step(r), bits[1..]);
    }
  }

  /** At most sixteen bits cancel the register exactly when they are its leading bits and the rest is zero. */
  lemma {:induction false} RunCancels(r: reg, bits: seq<bool>)
    requires |bits| <= 16
    ensures Run(r, bits) == Zeros(16) <==> r == bits + Zeros(16 - |bits|)
    decreases bits
  {
    if bits == [] {
      assert bits + Zeros(16) == Zeros(16);
    } else {
      var x: reg := r[0 := r[0] != bits[0]];
      RunCancels(Step(x), bits[1..]);
      StepCancels(x, bits[1..]);
      var target := [false] + bits[1..] + Zeros(16 - |bits|);
      if x == target {
        assert r == bits + Zeros(16 - |bits|) by {
          assert forall i | 1 <= i < 16 :: r[i] == x[i];
          assert x[0] == target[0] && r[0] == bits[0];
        }
      }
      if r == bits + Zeros(16 - |bits|) {
        assert x == target;
      }
    }
  }

  lemma StepCancels(x: reg, tail: seq<bool>)
    requires |tail| <= 15
    ensures Step(x) == tail + Zeros(16 - |tail|) <==> x == [false] + tail + Zeros(15 - |tail|)
  {
    var s := tail + Zeros(16 - |tail|);
    var t := [false] + tail + Zeros(15 - |tail|);
    assert t[1..] + [false] == s;
    if Step(x) == s {
      assert s[15] == Step(x)[15] == x[0];
      assert x[1..] + [false] == s;
      assert forall i | 1 <= i < 16 :: x[i] == (x[1..] + [false])[i - 1] == (t[1..] + [false])[i - 1] == t[i];
      assert x == t;
    }
  }

  // ---- Eight bit steps are one table step ----

  lemma XorSelf(a: seq<bool>, b: seq<bool>)
    requires |a| == |b|
    ensures Xor(a, b) == Zeros(|a|) <==> a == b
  {
    if Xor(a, b) == Zeros(|a|) {
      assert forall i | 0 <= i < |a| :: a[i] == b[i] by {
        forall i | 0 <= i < |a| ensures a[i] == b[i] {
          assert !Xor(a, b)[i];
        }
      }
    }
  }

  /** Reading bits is xoring them on top first and then shifting. */
  lemma RunOnTop(r: reg, bits: seq<bool>)
    requires |bits| <= 16
    ensures Run(r, bits) == Run(Xor(r, bits + Zeros(16 - |bits|)), Zeros(|bits|))
  {
    var top: reg := bits + Zeros(16 - |bits|);
    var n := |bits|;
    RunLinear(r, bits, top, bits);
    RunCancels(top, bits);
    XorSelf(bits, bits);
    assert Xor(Run(r, bits), Zeros(16)) == Run(r, bits);
  }

  /** Leading zeros of the register are shifted out without feedback. */
  lemma {:induction false} RunLeadingZeros(low: seq<bool>, n: nat)
    requires n + |low| == 16
    ensures Run(Zeros(n) + low, Zeros(n)) == low + Zeros(n)
    decreases n
  {
    if n == 0 {
      assert Zeros(0) + low == low + Zeros(0);
    } else {
      var r: reg := Zeros(n) + low;
      assert r[0 := r[0] != Zeros(n)[0]] == r;
      assert Step(r) == Zeros(n - 1) + (low + [false]);
      assert Zeros(n)[1..] == Zeros(n - 1);
      RunLeadingZeros(low + [false], n - 1);
      assert (low + [false]) + Zeros(n - 1) == low + Zeros(n);
    }
  }

  lemma SplitRegister(r: reg, bits: seq<bool>)
    requires |bits| == 8
    ensures Xor(r, bits + Zeros(8)) == Xor(Zeros(8) + r[8..], Xor(r[..8], bits) + Zeros(8))
  {
    var s, t := Xor(r, bits + Zeros(8)), Xor(Zeros(8) + r[8..], Xor(r[..8], bits) + Zeros(8));
    forall i | 0 <= i < 16
      ensures s[i] == t[i]
    {
      if i < 8 {
        assert r[..8][i] == r[i];
      } else {
        assert r[8..][i - 8] == r[i];
      }
    }
  }

  /** Eight input bits split the register: the low byte moves up, the rest is a table entry. */
  lemma RunByte(r: reg, bits: seq<bool>)
    requires |bits| == 8
    ensures Run(r, bits) == Xor(r[8..] + Zeros(8), Run(Xor(r[..8], bits) + Zeros(8), Zeros(8)))
  {
    var hi: reg, lo: reg := Xor(r[..8], bits) + Zeros(8), Zeros(8) + r[8..];
    RunOnTop(r, bits);
    SplitRegister(r, bits);
    XorSelf(Zeros(8), Zeros(8));
    RunLinear(lo, Zeros(8), hi, Zeros(8));
    RunLeadingZeros(r[8..], 8);
  }

  lemma EntryRefines(high: byte, b: byte, index: byte)
    requires index == high ^ b
    ensures RegBits(Entry(index)) == Run(Xor(BitsOf(high), BitsOf(b)) + Zeros(8), Zeros(8))
  {
    ByteXor(high, b);
    ByteOnTop(index);
    ShiftNRefines((index as bv16) << 8, 8);
  }

  lemma XorEntry(crc: bv16, entry: bv16, next: bv16)
    requires next == (crc << 8) ^ entry
    ensures RegBits(next) == Xor(RegBits(crc)[8..] + Zeros(8), RegBits(entry))
  {
    ShiftedLow(crc);
    RegXor(crc << 8, entry);
  }

  lemma TableStepRefines(crc: bv16, high: byte, b: byte, entry: bv16, next: bv16)
    requires BitsOf(high) == RegBits(crc)[..8]
    requires RegBits(entry) == Run(Xor(BitsOf(high), BitsOf(b)) + Zeros(8), Zeros(8))
    requires RegBits(next) == Xor(RegBits(crc)[8..] + Zeros(8), RegBits(entry))
    ensures FeedBits(crc, BitsOf(b)) == next
  {
    RunByte(RegBits(crc), BitsOf(b));
    RunRefines(crc, BitsOf(b));
    RegInjective(FeedBits(crc, BitsOf(b)), next);
  }

  lemma ByteStepParts(crc: bv16, high: byte, b: byte, index: byte, entry: bv16, next: bv16)
    requires high == High(crc)
    requires index == high ^ b
    requires entry == Entry(index)
    requires next == (crc << 8) ^ entry
    ensures FeedBits(crc, BitsOf(b)) == next
  {
    HighByte(crc);
    EntryRefines(high, b, index);
    XorEntry(crc, entry, next);
    TableStepRefines(crc, high, b, entry, next);
  }

  lemma TableStepIs(crc: bv16, b: byte)
    ensures TableStep(crc, b) == (crc << 8) ^ Entry(High(crc) ^ b)
  {
    hide Entry, High;
  }

  lemma EightBitsAreOneTableStep(crc: bv16, b: byte)
    ensures FeedBits(crc, BitsOf(b)) == TableStep(crc, b)
  {
    var index, next := High(crc) ^ b, TableStep(crc, b);
    hide *;
    assert next == (crc << 8) ^ Entry(index) by {
      TableStepIs(crc, b);
    }
    ByteStepParts(crc, High(crc), b, index, Entry(index), next);
  }

  // ---- Linearity over whole messages, and bursts ----

  /** The xor of two checksums is a function of the xor of the two messages alone. */
  lemma ChecksumXor(a: bytes, b: bytes)
    requires |a| == |b|
    ensures RegBits(Checksum(a) ^ Checksum(b)) == Run(Zeros(16), Xor(Bits(a), Bits(b)))
  {
    RunRefines(INIT, Bits(a));
    RunRefines(INIT, Bits(b));
    RegXor(Checksum(a), Checksum(b));
    XorSelf(RegBits(INIT), RegBits(INIT));
    RunLinear(RegBits(INIT), Bits(a), RegBits(INIT), Bits(b));
  }

  lemma SameChecksum(a: bytes, b: bytes)
    requires |a| == |b|
    ensures Checksum(a) == Checksum(b) <==> Run(Zeros(16), Xor(Bits(a), Bits(b))) == Zeros(16)
  {
    ChecksumXor(a, b);
    XorZero(Checksum(a), Checksum(b));
    ZeroReg(Checksum(a) ^ Checksum(b));
  }

  lemma XorZero(x: bv16, y: bv16)
    ensures x ^ y == 0 <==> x == y
  {}

  /** The two bit strings agree outside the sixteen positions from `k` on. */
  ghost predicate AgreeOutside(a: seq<bool>, b: seq<bool>, k: nat) {
    |a| == |b| && forall i | 0 <= i < |a| && (i < k || k + 16 <= i) :: a[i] == b[i]
  }

  lemma {:induction false} BitsInjective(a: bytes, b: bytes)
    requires |a| == |b| && Bits(a) == Bits(b)
    ensures a == b
  {
    if a != [] {
      assert BitsOf(a[0]) == Bits(a)[..8] && BitsOf(b[0]) == Bits(b)[..8];
      ByteInjective(a[0], b[0]);
      assert Bits(a[1..]) == Bits(a)[8..] && Bits(b[1..]) == Bits(b)[8..];
      BitsInjective(a[1..], b[1..]);
      assert a == [a[0]] + a[1..] && b == [b[0]] + b[1..];
    }
  }

  /** A difference of at most sixteen bits, some of them set, survives any zero context. */
  lemma WindowSurvives(pre: seq<bool>, win: seq<bool>, post: seq<bool>)
    requires pre == Zeros(|pre|) && post == Zeros(|post|)
    requires |win| <= 16 && win != Zeros(|win|)
    ensures Run(Zeros(16), pre + win + post) != Zeros(16)
  {
    RunAppend(Zeros(16), pre + win, post);
    RunAppend(Zeros(16), pre, win);
    RunZeros(Zeros(16), pre);
    RunCancels(Zeros(16), win);
    assert win == (win + Zeros(16 - |win|))[..|win|] && Zeros(16)[..|win|] == Zeros(|win|);
    RunZeros(Run(Zeros(16), win), post);
  }

  /** Any change confined to sixteen consecutive bits, at any bit offset, changes the checksum. */
  lemma BurstDetected(a: bytes, b: bytes, k: nat)
    requires |a| == |b| && a != b
    requires AgreeOutside(Bits(a), Bits(b), k)
    ensures Checksum(a) != Checksum(b)
  {
    var d := Xor(Bits(a), Bits(b));
    hide *;
    if Bits(a) == Bits(b) {
      BitsInjective(a, b);
    }
    var e := WindowOf(Bits(a), Bits(b), k);
    WindowSurvives(d[..k], d[k..e], d[e..]);
    SameChecksum(a, b);
  }

  /** The set bits of the difference lie in `k..e`. */
  lemma WindowOf(x: seq<bool>, y: seq<bool>, k: nat) returns (e: nat)
    requires AgreeOutside(x, y, k) && x != y
    ensures var d := Xor(x, y);
            && k <= e <= |d| && e <= k + 16
            && d[..k] == Zeros(k) && d[k..e] != Zeros(e - k) && d[e..] == Zeros(|d| - e)
            && d == d[..k] + d[k..e] + d[e..]
  {
    var i :| 0 <= i < |x| && x[i] != y[i];
    var d := Xor(x, y);
    e := if k + 16 <= |d| then k + 16 else |d|;
    assert d[k..e][i - k];
  }

  lemma LoneBit(tail: seq<bool>)
    ensures Run(Zeros(16), [true] + tail) == Run(PolyBits(), tail)
  {
    var one: reg := Zeros(16)[0 := true];
    assert Step(one) == PolyBits();
    assert ([true] + tail)[1..] == tail;
  }

  /** The generator, spread over seventeen bits, cancels itself. */
  lemma GeneratorCancels()
    ensures Run(Zeros(16), Zeros(7) + ([true] + PolyBits())) == Zeros(16)
  {
    RunAppend(Zeros(16), Zeros(7), [true] + PolyBits());
    RunZeros(Zeros(16), Zeros(7));
    LoneBit(PolyBits());
    RunCancels(PolyBits(), PolyBits());
    assert PolyBits() + Zeros(0) == PolyBits();
  }

  lemma GeneratorBytes()
    ensures BitsOf(0) == Zeros(8)
    ensures BitsOf(0x01) == Zeros(7) + [true]
    ensures BitsOf(0x10) == PolyBits()[..8] && BitsOf(0x21) == PolyBits()[8..]
  {
    ByteMaskValues();
  }

  lemma {:induction false} ThreeBytes(x: byte, y: byte, z: byte)
    ensures Bits([x, y, z]) == BitsOf(x) + (BitsOf(y) + BitsOf(z))
  {
    assert [x, y, z][1..] == [y, z] && [y, z][1..] == [z];
    assert Bits([z]) == BitsOf(z);
  }

  /** Sixteen is sharp: the generator itself, spread over seventeen bits, goes unnoticed. */
  lemma SeventeenBitsEscape()
    ensures Checksum([0x01, 0x10, 0x21]) == Checksum([0x00, 0x00, 0x00])
    ensures Bits([0x01, 0x10, 0x21])[..7] == Bits([0x00, 0x00, 0x00])[..7]
  {
    ThreeBytes(0x01, 0x10, 0x21);
    ThreeBytes(0, 0, 0);
    GeneratorBytes();
    var z := Zeros(8) + (Zeros(8) + Zeros(8));
    var g := Zeros(7) + [true] + (PolyBits()[..8] + PolyBits()[8..]);
    assert g == Zeros(7) + ([true] + PolyBits());
    assert Xor(g, z) == g;
    GeneratorCancels();
    SameChecksum([0x01, 0x10, 0x21], [0, 0, 0]);
  }

  // ---- The value of the checksum ----

  lemma EntryValues()
    ensures Entry(0xCE) == 0x3882 && Entry(0xF5) == 0xBFBA && Entry(0x0E) == 0xE1CE
    ensures Entry(0x6F) == 0x9D49 && Entry(0x66) == 0x0C60 && Entry(0x73) == 0x4EF4
    ensures Entry(0x19) == 0x8318 && Entry(0x4F) == 0xB92B && Entry(0x98) == 0x02B1
  {}

  lemma NextByteValue(crc: bv16, b: byte, index: byte, entry: bv16, next: bv16)
    requires High(crc) ^ b == index && Entry(index) == entry && (crc << 8) ^ entry == next
    ensures FeedBits(crc, BitsOf(b)) == next
  {
    hide FeedBits, BitsOf, Entry, High, TableStep;
    EightBitsAreOneTableStep(crc, b);
    TableStepIs(crc, b);
  }

  lemma {:induction false} ChecksumSnoc(data: bytes, b: byte)
    ensures Checksum(data + [b]) == FeedBits(Checksum(data), BitsOf(b))
  {
    hide FeedBits, BitsOf;
    BitsAppend(data, [b]);
    assert [b][1..] == [];
    assert Bits([b]) == BitsOf(b) + [] == BitsOf(b);
    FeedAppend(INIT, Bits(data), BitsOf(b));
  }

  lemma DigitValues()
    ensures FeedBits(0xFFFF, BitsOf(0x31)) == 0xC782
    ensures FeedBits(0xC782, BitsOf(0x32)) == 0x3DBA
    ensures FeedBits(0x3DBA, BitsOf(0x33)) == 0x5BCE
    ensures FeedBits(0x5BCE, BitsOf(0x34)) == 0x5349
    ensures FeedBits(0x5349, BitsOf(0x35)) == 0x4560
    ensures FeedBits(0x4560, BitsOf(0x36)) == 0x2EF4
    ensures FeedBits(0x2EF4, BitsOf(0x37)) == 0x7718
    ensures FeedBits(0x7718, BitsOf(0x38)) == 0xA12B
    ensures FeedBits(0xA12B, BitsOf(0x39)) == 0x29B1
  {
    EntryValues();
    hide FeedBits, BitsOf, Entry;
    NextByteValue(0xFFFF, 0x31, 0xCE, 0x3882, 0xC782);
    NextByteValue(0xC782, 0x32, 0xF5, 0xBFBA, 0x3DBA);
    NextByteValue(0x3DBA, 0x33, 0x0E, 0xE1CE, 0x5BCE);
    NextByteValue(0x5BCE, 0x34, 0x6F, 0x9D49, 0x5349);
    NextByteValue(0x5349, 0x35, 0x66, 0x0C60, 0x4560);
    NextByteValue(0x4560, 0x36, 0x73, 0x4EF4, 0x2EF4);
    NextByteValue(0x2EF4, 0x37, 0x19, 0x8318, 0x7718);
    NextByteValue(0x7718, 0x38, 0x4F, 0xB92B, 0xA12B);
    NextByteValue(0xA12B, 0x39, 0x98, 0x02B1, 0x29B1);
  }

  lemma ThreeDigits(data: bytes, more: bytes, x: byte, y: byte, z: byte, u: bv16, v: bv16, w: bv16)
    requires more == data + [x, y, z]
    requires FeedBits(Checksum(data), BitsOf(x)) == u && FeedBits(u, BitsOf(y)) == v && FeedBits(v, BitsOf(z)) == w
    ensures Checksum(more) == w
  {
    hide *;
    ChecksumSnoc(data, x);
    ChecksumSnoc(data + [x], y);
    ChecksumSnoc(data + [x] + [y], z);
    assert more == data + [x] + [y] + [z];
  }

  /** The published check value of this CRC, over the digits 1 to 9. */
  lemma CheckValue(d1: bytes, d2: bytes, d3: bytes)
    requires d1 == [0x31, 0x32, 0x33] && d2 == d1 + [0x34, 0x35, 0x36] && d3 == d2 + [0x37, 0x38, 0x39]
    ensures Checksum(d3) == 0x29B1
  {
    FirstSix(d1, d2);
    DigitValues();
    hide *;
    ThreeDigits(d2, d3, 0x37, 0x38, 0x39, 0x7718, 0xA12B, 0x29B1);
  }

  lemma FirstSix(d1: bytes, d2: bytes)
    requires d1 == [0x31, 0x32, 0x33] && d2 == d1 + [0x34, 0x35, 0x36]
    ensures Checksum(d2) == 0x2EF4
  {
    ChecksumOfNothing([]);
    DigitValues();
    hide *;
    ThreeDigits([], d1, 0x31, 0x32, 0x33, 0xC782, 0x3DBA, 0x5BCE);
    ThreeDigits(d1, d2, 0x34, 0x35, 0x36, 0x5349, 0x4560, 0x2EF4);
  }

  lemma ChecksumOfNothing(data: bytes)
    requires data == []
    ensures Checksum(data) == 0xFFFF
  {}

  // ---- The checksum as two bytes: appending it leaves residue zero ----

  function CrcBytes(crc: bv16): (s: bytes)
    ensures |s| == 2
  {
    [(crc >> 8) as bv8, (crc & 0xFF) as bv8]
  }

  function CrcValue(s: bytes): bv16
    requires |s| == 2
  {
    ((s[0] as bv16) << 8) | (s[1] as bv16)
  }

  lemma CrcBytesInverse(crc: bv16, s: bytes)
    requires |s| == 2
    ensures CrcValue(CrcBytes(crc)) == crc
    ensures CrcBytes(CrcValue(s)) == s
  {
    assert ((CrcValue(s) >> 8) as bv8) == s[0] && ((CrcValue(s) & 0xFF) as bv8) == s[1];
  }

  lemma {:induction false} BitsAppend(a: bytes, b: bytes)
    ensures Bits(a + b) == Bits(a) + Bits(b)
  {
    if a == [] {
      assert a + b == b;
    } else {
      assert (a + b)[1..] == a[1..] + b;
      BitsAppend(a[1..], b);
    }
  }

  lemma CrcBytesBits(crc: bv16)
    ensures Bits(CrcBytes(crc)) == RegBits(crc)
  {
    var s := CrcBytes(crc);
    assert s[1..] == [s[1]] && s[1..][1..] == [];
    assert Bits(s) == BitsOf(s[0]) + BitsOf(s[1]);
    HighByte(crc);
    LowByte(crc);
    assert RegBits(crc) == RegBits(crc)[..8] + RegBits(crc)[8..];
  }

  /** A trailer makes the checksum of the whole zero exactly when it is the body's checksum. */
  lemma ResidueZero(data: bytes, trailer: bytes)
    requires |trailer| == 2
    ensures Checksum(data + trailer) == 0 <==> CrcValue(trailer) == Checksum(data)
  {
    var crc := CrcValue(trailer);
    CrcBytesInverse(crc, trailer);
    CrcBytesBits(crc);
    BitsAppend(data, trailer);
    FeedAppend(INIT, Bits(data), Bits(trailer));
    var body := Checksum(data);
    RunRefines(body, Bits(trailer));
    RunCancels(RegBits(body), RegBits(crc));
    assert RegBits(crc) + Zeros(0) == RegBits(crc);
    ZeroReg(FeedBits(body, Bits(trailer)));
    if RegBits(body) == RegBits(crc) {
      RegInjective(body, crc);
    }
  }
}
