/**
 The Modbus device simulator: requests over four tables of registers and bits, with
 16-bit addresses that wrap around.
 */
module Modbus {
  import opened Bytes
  import opened Payload

  const FC_READ_COILS: byte := 0x01
  const FC_READ_DISCRETE_INPUTS: byte := 0x02
  const FC_READ_HOLDING_REGISTERS: byte := 0x03
  const FC_READ_INPUT_REGISTERS: byte := 0x04
  const FC_WRITE_SINGLE_COIL: byte := 0x05
  const FC_WRITE_SINGLE_REGISTER: byte := 0x06
  const FC_WRITE_MULTIPLE_REGISTERS: byte := 0x10

  type Words = map<uint16, uint16>
  type Flags = map<uint16, bool>

  datatype Device = Device(hr: Words, ir: Words, coils: Flags, di: Flags)

  /** The `i`-th address from `addr` on, in uint16 arithmetic. */
  function At(addr: uint16, i: nat): uint16 {
    (addr + i) % 0x1_0000
  }

  /** The big-endian word at offset `i`. */
  function WordAt(s: bytes, i: nat): uint16
    requires i + 2 <= |s|
  {
    Get2(s[i..i + 2]);
    GetBE(s[i..i + 2])
  }

  function Exception(fc: byte, code: byte): bytes {
    [fc | 0x80, code]
  }

  // ---- Reading registers ----

  function WordBytes(data: Words, addr: uint16, qty: nat): (s: bytes)
    requires forall i | 0 <= i < qty :: At(addr, i) in data
    ensures |s| == 2 * qty
  {
    if qty == 0 then [] else WordBytes(data, addr, qty - 1) + PutBE(data[At(addr, qty - 1)], 2)
  }

  function ReadRegsReply(data: Words, pdu: bytes): bytes
    requires pdu != []
  {
    if |pdu| < 5 then Exception(pdu[0], 3)
    else
      var addr, qty := WordAt(pdu, 1), WordAt(pdu, 3);
      if qty < 1 || qty > 125 then Exception(pdu[0], 3)
      else if exists i | 0 <= i < qty :: At(addr, i) !in data then Exception(pdu[0], 2)
      else [pdu[0], ToByte(qty * 2)] + WordBytes(data, addr, qty)
  }

  method PutWord(resp: array<byte>, off: nat, v: uint16)
    requires off + 2 <= resp.Length
    modifies resp
    ensures resp[..off + 2] == old(resp[..off]) + PutBE(v, 2)
  {
    hide PutBE;
    var w := PutBE(v, 2);
    resp[off] := w[0];
    resp[off + 1] := w[1];
    assert resp[..off + 2] == resp[..off] + [w[0], w[1]];
  }

  method ReadRegs(data: Words, pdu: bytes) returns (reply: bytes)
    requires pdu != []
    ensures reply == ReadRegsReply(data, pdu)
  {
    hide GetBE, PutBE, WordAt, ToByte, At;
    var fc := pdu[0];
    if |pdu| < 5 {
      return Exception(fc, 3);
    }
    var addr, qty := WordAt(pdu, 1), WordAt(pdu, 3);
    if qty < 1 || qty > 125 {
      return Exception(fc, 3);
    }
    var resp := new byte[2 + qty * 2];
    resp[0] := fc;
    resp[1] := ToByte(qty * 2);
    for i := 0 to qty
      invariant forall j | 0 <= j < i :: At(addr, j) in data
      invariant resp[..2 + i * 2] == [fc, ToByte(qty * 2)] + WordBytes(data, addr, i)
    {
      if At(addr, i) !in data {
        return Exception(fc, 2);
      }
      PutWord(resp, 2 + i * 2, data[At(addr, i)]);
    }
    assert resp[..] == resp[..2 + qty * 2];
    reply := resp[..];
  }

  // ---- Reading bits ----

  function BitMask(j: nat): byte
    requires j < 8
  {
    if j == 0 then 1 else BitMask(j - 1) << 1
  }

  /** Bit `i` of a packed byte string, least significant bit of the first byte first. */
  predicate BitOf(s: bytes, i: nat)
    requires i < 8 * |s|
  {
    s[i / 8] & BitMask(i % 8) != 0
  }

  /** The packed reply: as many bytes as needed, the bits in order, the rest zero. */
  ghost predicate IsBitsReply(reply: bytes, fc: byte, data: Flags, addr: uint16, qty: nat) {
    var count := (qty + 7) / 8;
    && (forall i | 0 <= i < qty :: At(addr, i) in data)
    && |reply| == 2 + count && reply[0] == fc && reply[1] == ToByte(count)
    && forall i | 0 <= i < 8 * count :: BitOf(reply[2..], i) == (i < qty && data[At(addr, i)])
  }

  ghost predicate AnswersReadBits(data: Flags, pdu: bytes, reply: bytes)
    requires pdu != []
  {
    if |pdu| < 5 then reply == Exception(pdu[0], 3)
    else
      var addr, qty := WordAt(pdu, 1), WordAt(pdu, 3);
      if qty < 1 || qty > 2000 then reply == Exception(pdu[0], 3)
      else if exists i | 0 <= i < qty :: At(addr, i) !in data then reply == Exception(pdu[0], 2)
      else IsBitsReply(reply, pdu[0], data, addr, qty)
  }

  lemma BitMasks()
    ensures BitMask(0) == 0x01 && BitMask(1) == 0x02 && BitMask(2) == 0x04 && BitMask(3) == 0x08
    ensures BitMask(4) == 0x10 && BitMask(5) == 0x20 && BitMask(6) == 0x40 && BitMask(7) == 0x80
  {
    assert BitMask(3) == 0x08 && BitMask(6) == 0x40;
  }

  lemma MasksDiffer(j: nat, k: nat)
    requires j < 8 && k < 8
    ensures BitMask(j) != 0
    ensures j != k ==> BitMask(j) & BitMask(k) == 0
  {
    BitMasks();
  }

  lemma OrSets(b: byte, m: byte, n: byte)
    requires m != 0
    ensures (b | m) & m != 0
    ensures m & n == 0 ==> ((b | m) & n != 0 <==> b & n != 0)
  {}

  /** `s'` is `s` with bit `i` set. */
  ghost predicate BitSet(s: bytes, s': bytes, i: nat) {
    |s'| == |s| && forall t | 0 <= t < 8 * |s| :: BitOf(s', t) == (t == i || BitOf(s, t))
  }

  /** The first `n` bits are those of the data, the rest are zero. */
  ghost predicate Packed(s: bytes, data: Flags, addr: uint16, n: nat) {
    && (forall i | 0 <= i < n :: At(addr, i) in data)
    && forall t | 0 <= t < 8 * |s| :: BitOf(s, t) == (t < n && data[At(addr, t)])
  }

  lemma PackedMore(s: bytes, s': bytes, data: Flags, addr: uint16, i: nat)
    requires Packed(s, data, addr, i) && At(addr, i) in data
    requires if data[At(addr, i)] then BitSet(s, s', i) else s' == s
    ensures Packed(s', data, addr, i + 1)
  {
    hide BitOf, At;
  }

  /** Sets one bit of a buffer behind a two-byte head. */
  method SetBit(resp: array<byte>, i: nat)
    requires 2 + i / 8 < resp.Length
    modifies resp
    ensures resp[..2] == old(resp[..2]) && BitSet(old(resp[2..]), resp[2..], i)
  {
    ghost var before := resp[2..];
    resp[2 + i / 8] := resp[2 + i / 8] | BitMask(i % 8);
    ghost var after := resp[2..];
    forall t | 0 <= t < 8 * |after|
      ensures BitOf(after, t) == (t == i || BitOf(before, t))
    {
      if t / 8 == i / 8 {
        MasksDiffer(i % 8, t % 8);
        OrSets(before[i / 8], BitMask(i % 8), BitMask(t % 8));
      }
    }
  }

  method ReadBits(data: Flags, pdu: bytes) returns (reply: bytes)
    requires pdu != []
    ensures AnswersReadBits(data, pdu, reply)
  {
    var fc := pdu[0];
    if |pdu| < 5 {
      return Exception(fc, 3);
    }
    var addr, qty := WordAt(pdu, 1), WordAt(pdu, 3);
    if qty < 1 || qty > 2000 {
      return Exception(fc, 3);
    }
    hide BitMask, Packed, BitSet, IsBitsReply, WordAt, At, ToByte;
    var byteCount := (qty + 7) / 8;
    var resp := new byte[2 + byteCount](i => 0);
    resp[0] := fc;
    resp[1] := ToByte(byteCount);
    AllClear(resp[2..], data, addr);
    for i := 0 to qty
      invariant resp[..2] == [fc, ToByte(byteCount)]
      invariant Packed(resp[2..], data, addr, i)
    {
      if At(addr, i) !in data {
        return Exception(fc, 2);
      }
      ghost var before := resp[2..];
      if data[At(addr, i)] {
        SetBit(resp, i);
      }
      PackedMore(before, resp[2..], data, addr, i);
    }
    reply := resp[..];
    PackedReply(reply, fc, data, addr, qty);
  }

  lemma PackedReply(reply: bytes, fc: byte, data: Flags, addr: uint16, qty: nat)
    requires |reply| == 2 + (qty + 7) / 8 && reply[..2] == [fc, ToByte((qty + 7) / 8)]
    requires Packed(reply[2..], data, addr, qty)
    ensures IsBitsReply(reply, fc, data, addr, qty) && forall i | 0 <= i < qty :: At(addr, i) in data
  {
    hide BitOf, At, ToByte;
    assert reply[0] == reply[..2][0] && reply[1] == reply[..2][1];
  }

  lemma AllClear(s: bytes, data: Flags, addr: uint16)
    requires forall i | 0 <= i < |s| :: s[i] == 0
    ensures Packed(s, data, addr, 0)
  {}

  // ---- Writing ----

  /** The words of `s` stored from `addr` on, one after the other. */
  function StoreWords(hr: Words, addr: uint16, s: bytes, qty: nat): Words
    requires 2 * qty <= |s|
  {
    if qty == 0 then hr
    else StoreWords(hr, addr, s, qty - 1)[At(addr, qty - 1) := WordAt(s, 2 * (qty - 1))]
  }

  predicate MultiAccepted(pdu: bytes) {
    |pdu| >= 6 && pdu[5] as int == WordAt(pdu, 3) * 2 && |pdu| >= 6 + pdu[5] as int
  }

  /** What a request does to the device, and the reply it gets; bit replies are described by their bits. */
  ghost predicate Processed(d: Device, pdu: bytes, d': Device, reply: Option<bytes>) {
    if pdu == [] then d' == d && reply == None
    else
      var fc := pdu[0];
      if fc == FC_READ_HOLDING_REGISTERS then d' == d && reply == Some(ReadRegsReply(d.hr, pdu))
      else if fc == FC_READ_INPUT_REGISTERS then d' == d && reply == Some(ReadRegsReply(d.ir, pdu))
      else if fc == FC_READ_COILS then d' == d && reply.Some? && AnswersReadBits(d.coils, pdu, reply.value)
      else if fc == FC_READ_DISCRETE_INPUTS then d' == d && reply.Some? && AnswersReadBits(d.di, pdu, reply.value)
      else if fc == FC_WRITE_SINGLE_COIL then
        if |pdu| < 5 || WordAt(pdu, 3) !in {0x0000, 0xFF00} then d' == d && reply == Some(Exception(fc, 3))
        else d' == d.(coils := d.coils[WordAt(pdu, 1) := WordAt(pdu, 3) == 0xFF00]) && reply == Some(pdu[..5])
      else if fc == FC_WRITE_SINGLE_REGISTER then
        if |pdu| < 5 then d' == d && reply == Some(Exception(fc, 3))
        else d' == d.(hr := d.hr[WordAt(pdu, 1) := WordAt(pdu, 3)]) && reply == Some(pdu[..5])
      else if fc == FC_WRITE_MULTIPLE_REGISTERS then
        if !MultiAccepted(pdu) then d' == d && reply == Some(Exception(fc, 3))
        else d' == d.(hr := StoreWords(d.hr, WordAt(pdu, 1), pdu[6..], WordAt(pdu, 3)))
             && reply == Some([fc] + pdu[1..5])
      else d' == d && reply == Some(Exception(fc, 1))
  }

  class DeviceStore {
    var hr: Words
    var ir: Words
    var coils: Flags
    var di: Flags

    constructor (d: Device)
      ensures Contents() == d
    {
      hr, ir, coils, di := d.hr, d.ir, d.coils, d.di;
    }

    function Contents(): Device
      reads this
    {
      Device.Device(hr, ir, coils, di)
    }

    /** Total on all byte strings; only an empty request goes unanswered. */
    method ProcessPdu(pdu: bytes) returns (reply: Option<bytes>)
      modifies this
      ensures Processed(old(Contents()), pdu, Contents(), reply)
    {
      if |pdu| == 0 {
        return None;
      }
      hide ReadRegsReply, AnswersReadBits, StoreWords, MultiAccepted, WordAt;
      var resp;
      if pdu[0] == FC_READ_HOLDING_REGISTERS {
        resp := ReadRegs(hr, pdu);
      } else if pdu[0] == FC_READ_INPUT_REGISTERS {
        resp := ReadRegs(ir, pdu);
      } else if pdu[0] == FC_READ_COILS {
        resp := ReadBits(coils, pdu);
      } else if pdu[0] == FC_READ_DISCRETE_INPUTS {
        resp := ReadBits(di, pdu);
      } else if pdu[0] == FC_WRITE_SINGLE_COIL {
        resp := WriteSingleCoil(pdu);
      } else if pdu[0] == FC_WRITE_SINGLE_REGISTER {
        resp := WriteSingleReg(pdu);
      } else if pdu[0] == FC_WRITE_MULTIPLE_REGISTERS {
        resp := WriteMultiReg(pdu);
      } else {
        resp := Exception(pdu[0], 1);
      }
      reply := Some(resp);
    }

    method WriteSingleCoil(pdu: bytes) returns (resp: bytes)
      requires pdu != [] && pdu[0] == FC_WRITE_SINGLE_COIL
      modifies this`coils
      ensures if |pdu| < 5 || WordAt(pdu, 3) !in {0x0000, 0xFF00}
              then coils == old(coils) && resp == Exception(FC_WRITE_SINGLE_COIL, 3)
              else coils == old(coils)[WordAt(pdu, 1) := WordAt(pdu, 3) == 0xFF00] && resp == pdu[..5]
    {
      if |pdu| < 5 {
        return Exception(FC_WRITE_SINGLE_COIL, 3);
      }
      var addr, val := WordAt(pdu, 1), WordAt(pdu, 3);
      if val == 0x0000 {
        coils := coils[addr := false];
      } else if val == 0xFF00 {
        coils := coils[addr := true];
      } else {
        return Exception(FC_WRITE_SINGLE_COIL, 3);
      }
      resp := pdu[..5];
    }

    method WriteSingleReg(pdu: bytes) returns (resp: bytes)
      requires pdu != [] && pdu[0] == FC_WRITE_SINGLE_REGISTER
      modifies this`hr
      ensures if |pdu| < 5 then hr == old(hr) && resp == Exception(FC_WRITE_SINGLE_REGISTER, 3)
              else hr == old(hr)[WordAt(pdu, 1) := WordAt(pdu, 3)] && resp == pdu[..5]
    {
      if |pdu| < 5 {
        return Exception(FC_WRITE_SINGLE_REGISTER, 3);
      }
      hr := hr[WordAt(pdu, 1) := WordAt(pdu, 3)];
      resp := pdu[..5];
    }

    method WriteMultiReg(pdu: bytes) returns (resp: bytes)
      requires pdu != [] && pdu[0] == FC_WRITE_MULTIPLE_REGISTERS
      modifies this`hr
      ensures if !MultiAccepted(pdu) then hr == old(hr) && resp == Exception(FC_WRITE_MULTIPLE_REGISTERS, 3)
              else hr == StoreWords(old(hr), WordAt(pdu, 1), pdu[6..], WordAt(pdu, 3))
                   && resp == [FC_WRITE_MULTIPLE_REGISTERS] + pdu[1..5]
    {
      hide GetBE, PutBE, At, WordAt;
      if |pdu| < 6 {
        return Exception(FC_WRITE_MULTIPLE_REGISTERS, 3);
      }
      var addr, qty := WordAt(pdu, 1), WordAt(pdu, 3);
      var bc := pdu[5] as int;
      if bc != qty as int * 2 || |pdu| < 6 + bc {
        return Exception(FC_WRITE_MULTIPLE_REGISTERS, 3);
      }
      for i := 0 to qty
        invariant hr == StoreWords(old(hr), addr, pdu[6..], i)
      {
        WordAtDrop(pdu, 6, 2 * i);
        hr := hr[At(addr, i) := WordAt(pdu, 6 + i * 2)];
      }
      resp := [FC_WRITE_MULTIPLE_REGISTERS] + PutBE(addr, 2) + PutBE(qty, 2);
      WordBack(pdu, 1);
      WordBack(pdu, 3);
      assert pdu[1..5] == pdu[1..3] + pdu[3..5];
    }
  }

  lemma WordAtDrop(s: bytes, n: nat, i: nat)
    requires n + i + 2 <= |s|
    ensures WordAt(s[n..], i) == WordAt(s, n + i)
  {
    assert s[n..][i..i + 2] == s[n + i..n + i + 2];
  }

  // ---- What a write does to later reads ----

  lemma SameAddress(addr: uint16, i: nat, j: nat)
    requires i < 0x1_0000 && j < 0x1_0000 && At(addr, i) == At(addr, j)
    ensures i == j
  {}

  /** The first `qty` words of `s` are stored from `addr` on. */
  ghost predicate Holds(data: Words, addr: uint16, s: bytes, qty: nat) {
    2 * qty <= |s| && forall i | 0 <= i < qty :: At(addr, i) in data && data[At(addr, i)] == WordAt(s, 2 * i)
  }

  lemma HoldsLess(data: Words, addr: uint16, s: bytes, qty: nat)
    requires qty > 0 && Holds(data, addr, s, qty)
    ensures Holds(data, addr, s, qty - 1)
    ensures 2 * qty <= |s| && forall i | 0 <= i < qty :: At(addr, i) in data
    ensures data[At(addr, qty - 1)] == WordAt(s, 2 * (qty - 1))
  {
    hide At, WordAt;
  }

  /** Each word lands at its own address, wrapped around if need be, and no other register changes. */
  lemma {:induction false} StoredAt(hr: Words, addr: uint16, s: bytes, qty: nat, a: uint16)
    requires 2 * qty <= |s| && qty < 0x1_0000
    ensures Holds(StoreWords(hr, addr, s, qty), addr, s, qty)
    ensures (forall i | 0 <= i < qty :: At(addr, i) != a) ==>
              (a in StoreWords(hr, addr, s, qty) <==> a in hr) && (a in hr ==> StoreWords(hr, addr, s, qty)[a] == hr[a])
  {
    if qty > 0 {
      StoredAt(hr, addr, s, qty - 1, a);
      forall i | 0 <= i < qty - 1
        ensures At(addr, i) != At(addr, qty - 1)
      {
        if At(addr, i) == At(addr, qty - 1) {
          SameAddress(addr, i, qty - 1);
        }
      }
    }
  }

  lemma WordBack(s: bytes, i: nat)
    requires i + 2 <= |s|
    ensures PutBE(WordAt(s, i), 2) == s[i..i + 2]
  {
    hide PutBE, GetBE;
    PutGet(s[i..i + 2]);
  }

  lemma SplitAt(s: bytes, m: nat)
    requires m + 2 <= |s|
    ensures s[..m + 2] == s[..m] + s[m..m + 2]
  {}

  lemma OneMoreWord(data: Words, addr: uint16, qty: nat)
    requires qty > 0 && forall i | 0 <= i < qty :: At(addr, i) in data
    ensures WordBytes(data, addr, qty) == WordBytes(data, addr, qty - 1) + PutBE(data[At(addr, qty - 1)], 2)
  {
    hide At, PutBE;
  }

  lemma {:induction false} WordBytesBack(data: Words, addr: uint16, s: bytes, qty: nat)
    requires Holds(data, addr, s, qty)
    ensures 2 * qty <= |s| && WordBytes(data, addr, qty) == s[..2 * qty]
  {
    if qty > 0 {
      hide *;
      var k := qty - 1;
      HoldsLess(data, addr, s, qty);
      WordBytesBack(data, addr, s, k);
      OneMoreWord(data, addr, qty);
      WordBack(s, 2 * k);
      SplitAt(s, 2 * k);
    }
  }

  /** A multi-register write followed by a read of the same range returns the bytes written, for every range a read allows. */
  lemma WriteThenRead(d: Device, write: bytes, d': Device, ack: Option<bytes>, read: bytes)
    requires write != [] && write[0] == FC_WRITE_MULTIPLE_REGISTERS && MultiAccepted(write)
    requires Processed(d, write, d', ack)
    requires |read| >= 5 && read[1..5] == write[1..5]
    ensures ReadRegsReply(d'.hr, read) ==
            if 1 <= WordAt(write, 3) <= 125 then [read[0], write[5]] + write[6..6 + 2 * WordAt(write, 3)]
            else Exception(read[0], 3)
  {
    hide StoreWords, ReadRegsReply, WordAt, AnswersReadBits, ToByte;
    WriteEffect(d, write, d', ack);
    SameWords(write, read);
    ReadStored(d.hr, read, write[6..]);
    assert write[6..][..2 * WordAt(write, 3)] == write[6..6 + 2 * WordAt(write, 3)];
  }

  lemma WriteEffect(d: Device, write: bytes, d': Device, ack: Option<bytes>)
    requires write != [] && write[0] == FC_WRITE_MULTIPLE_REGISTERS && MultiAccepted(write)
    requires Processed(d, write, d', ack)
    ensures |write| >= 6 + WordAt(write, 3) * 2 && ToByte(WordAt(write, 3) * 2) == write[5]
    ensures d' == d.(hr := StoreWords(d.hr, WordAt(write, 1), write[6..], WordAt(write, 3)))
  {
    hide StoreWords, ReadRegsReply, WordAt, AnswersReadBits, ToByte;
    ToByteExact(WordAt(write, 3) * 2, write[5]);
  }

  lemma ReadStored(hr: Words, read: bytes, s: bytes)
    requires |read| >= 5 && 2 * WordAt(read, 3) <= |s|
    ensures ReadRegsReply(StoreWords(hr, WordAt(read, 1), s, WordAt(read, 3)), read) ==
            if 1 <= WordAt(read, 3) <= 125
            then [read[0], ToByte(WordAt(read, 3) * 2)] + s[..2 * WordAt(read, 3)]
            else Exception(read[0], 3)
  {
    hide At, ToByte, WordAt, WordBytes, StoreWords;
    var addr, qty := WordAt(read, 1), WordAt(read, 3);
    if 1 <= qty <= 125 {
      StoredAt(hr, addr, s, qty, 0);
      WordBytesBack(StoreWords(hr, addr, s, qty), addr, s, qty);
    }
  }

  lemma SameWords(s: bytes, t: bytes)
    requires |s| >= 5 && |t| >= 5 && s[1..5] == t[1..5]
    ensures WordAt(s, 1) == WordAt(t, 1) && WordAt(s, 3) == WordAt(t, 3)
  {
    hide GetBE;
    assert s[1..3] == s[1..5][..2] && t[1..3] == t[1..5][..2];
    assert s[3..5] == s[1..5][2..] && t[3..5] == t[1..5][2..];
  }

  /** Registers outside the written range keep their values. */
  lemma WriteElsewhere(d: Device, write: bytes, d': Device, ack: Option<bytes>, a: uint16)
    requires write != [] && write[0] == FC_WRITE_MULTIPLE_REGISTERS && MultiAccepted(write)
    requires Processed(d, write, d', ack)
    requires forall i | 0 <= i < WordAt(write, 3) :: At(WordAt(write, 1), i) != a
    ensures (a in d'.hr <==> a in d.hr) && (a in d.hr ==> d'.hr[a] == d.hr[a])
    ensures d'.ir == d.ir && d'.coils == d.coils && d'.di == d.di
  {
    StoredAt(d.hr, WordAt(write, 1), write[6..], WordAt(write, 3), a);
  }

  /** The description of a bit reply leaves no choice: it determines every byte. */
  lemma BitsReplyUnique(data: Flags, pdu: bytes, r1: bytes, r2: bytes)
    requires pdu != [] && AnswersReadBits(data, pdu, r1) && AnswersReadBits(data, pdu, r2)
    ensures r1 == r2
  {
    if |pdu| >= 5 && |r1| == |r2| && |r1| > 2 {
      forall j | 2 <= j < |r1|
        ensures r1[j] == r2[j]
      {
        SameByte(r1[2..], r2[2..], j - 2);
      }
    }
  }

  lemma SameByte(s: bytes, t: bytes, j: nat)
    requires |s| == |t| && j < |s|
    requires forall i | 0 <= i < 8 * |s| :: BitOf(s, i) == BitOf(t, i)
    ensures s[j] == t[j]
  {
    BitMasks();
    forall k | 0 <= k < 8
      ensures (s[j] & BitMask(k) != 0) == (t[j] & BitMask(k) != 0)
    {
      assert (8 * j + k) / 8 == j && (8 * j + k) % 8 == k;
      assert BitOf(s, 8 * j + k) == BitOf(t, 8 * j + k);
    }
    ByteOfBits(s[j], t[j]);
  }

  lemma ByteOfBits(x: byte, y: byte)
    requires (x & 0x01 != 0) == (y & 0x01 != 0) && (x & 0x02 != 0) == (y & 0x02 != 0)
    requires (x & 0x04 != 0) == (y & 0x04 != 0) && (x & 0x08 != 0) == (y & 0x08 != 0)
    requires (x & 0x10 != 0) == (y & 0x10 != 0) && (x & 0x20 != 0) == (y & 0x20 != 0)
    requires (x & 0x40 != 0) == (y & 0x40 != 0) && (x & 0x80 != 0) == (y & 0x80 != 0)
    ensures x == y
  {}
}
