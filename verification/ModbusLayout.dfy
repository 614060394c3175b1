/**
 What the simulator answers, byte by byte: function codes, exception codes, where the words
 and bits stand, and which register or coil each of them is.
 */
module ModbusLayout {
  import opened Bytes
  import opened Payload
  import opened Modbus

  lemma Addresses(addr: uint16, i: nat, a: uint16)
    requires i < 0x1_0000
    ensures At(addr, i) == a <==> (a - addr) % 0x1_0000 == i
    ensures At(addr, i) == (addr + i) % 0x1_0000
  {}

  /** All of the `qty` addresses from `addr` on are there. */
  lemma AllThere<T>(data: map<uint16, T>, addr: uint16, qty: nat)
    requires qty < 0x1_0000
    ensures (forall i | 0 <= i < qty :: At(addr, i) in data)
       <==> (forall a: uint16 | (a - addr) % 0x1_0000 < qty :: a in data)
  {
    hide At;
    if forall i | 0 <= i < qty :: At(addr, i) in data {
      forall a: uint16 | (a - addr) % 0x1_0000 < qty
        ensures a in data
      {
        Addresses(addr, (a - addr) % 0x1_0000, a);
      }
    }
    if forall a: uint16 | (a - addr) % 0x1_0000 < qty :: a in data {
      forall i | 0 <= i < qty
        ensures At(addr, i) in data
      {
        Addresses(addr, i, At(addr, i));
      }
    }
  }

  /** Function code 3 reads the holding registers, 4 the input registers, and neither changes anything. */
  lemma RegsAnswered(d: Device, pdu: bytes, d': Device, reply: Option<bytes>)
    requires pdu != [] && (pdu[0] == 3 || pdu[0] == 4) && Processed(d, pdu, d', reply)
    ensures d' == d && reply == Some(ReadRegsReply(if pdu[0] == 3 then d.hr else d.ir, pdu))
  {
    hide ReadRegsReply, AnswersReadBits, StoreWords, MultiAccepted, WordAt;
  }

  lemma Codes(fc: byte)
    ensures Exception(fc, 3) == [fc | 0x80, 3] && Exception(fc, 2) == [fc | 0x80, 2] && Exception(fc, 1) == [fc | 0x80, 1]
    ensures fc == 1 ==> fc | 0x80 == 0x81
    ensures fc == 2 ==> fc | 0x80 == 0x82
    ensures fc == 3 ==> fc | 0x80 == 0x83
    ensures fc == 4 ==> fc | 0x80 == 0x84
    ensures fc == 5 ==> fc | 0x80 == 0x85
    ensures fc == 6 ==> fc | 0x80 == 0x86
    ensures fc == 0x10 ==> fc | 0x80 == 0x90
  {}

  /** The reply to reading registers: malformed 3, an address that is missing 2, otherwise the words in order. */
  lemma RegsReply(data: Words, pdu: bytes, r: bytes, i: nat)
    requires pdu != [] && r == ReadRegsReply(data, pdu)
    ensures if |pdu| < 5 || GetBE(pdu[3..5]) < 1 || GetBE(pdu[3..5]) > 125 then r == [pdu[0] | 0x80, 3]
            else
              var addr, qty := GetBE(pdu[1..3]), GetBE(pdu[3..5]);
              if exists a: uint16 | (a - addr) % 0x1_0000 < qty :: a !in data then r == [pdu[0] | 0x80, 2]
              else
                && |r| == 2 + 2 * qty && r[0] == pdu[0] && GetBE(r[1..2]) == 2 * qty
                && (i < qty ==> (addr + i) % 0x1_0000 in data
                                && GetBE(r[2 + 2 * i..4 + 2 * i]) == data[(addr + i) % 0x1_0000])
  {
    hide At, GetBE, PutBE, ToByte, WordBytes;
    if |pdu| >= 5 && 1 <= WordAt(pdu, 3) <= 125 {
      var addr, qty := WordAt(pdu, 1), WordAt(pdu, 3);
      AllThere(data, addr, qty);
      if forall j | 0 <= j < qty :: At(addr, j) in data {
        WordsReply(data, addr, qty, pdu[0], r, i);
      }
    }
  }

  lemma WordsReply(data: Words, addr: uint16, qty: nat, fc: byte, r: bytes, i: nat)
    requires qty <= 125 && forall j | 0 <= j < qty :: At(addr, j) in data
    requires r == [fc, ToByte(qty * 2)] + WordBytes(data, addr, qty)
    ensures |r| == 2 + 2 * qty && r[0] == fc && GetBE(r[1..2]) == 2 * qty
    ensures i < qty ==> (addr + i) % 0x1_0000 in data && GetBE(r[2 + 2 * i..4 + 2 * i]) == data[(addr + i) % 0x1_0000]
  {
    hide At, GetBE, PutBE, ToByte, WordBytes;
    ByteBack(2 * qty, r[1]);
    assert r[1..2] == [r[1]];
    if i < qty {
      WordInReply(data, addr, qty, i);
      Addresses(addr, i, At(addr, i));
      var words := WordBytes(data, addr, qty);
      assert r[2 + 2 * i..4 + 2 * i] == words[2 * i..2 * i + 2];
    }
  }

  lemma ByteBack(n: nat, b: byte)
    requires n < 0x100 && b == ToByte(n)
    ensures GetBE([b]) == n
  {
    Powers();
    GetPutExact(n, 1);
  }

  lemma {:induction false} WordInReply(data: Words, addr: uint16, qty: nat, i: nat)
    requires i < qty && forall j | 0 <= j < qty :: At(addr, j) in data
    ensures GetBE(WordBytes(data, addr, qty)[2 * i..2 * i + 2]) == data[At(addr, i)]
  {
    hide At, GetBE, PutBE;
    var before, last := WordBytes(data, addr, qty - 1), PutBE(data[At(addr, qty - 1)], 2);
    if i < qty - 1 {
      WordInReply(data, addr, qty - 1, i);
      assert (before + last)[2 * i..2 * i + 2] == before[2 * i..2 * i + 2];
    } else {
      Powers();
      GetPutExact(data[At(addr, i)], 2);
      assert (before + last)[2 * i..2 * i + 2] == last;
    }
  }

  /** Function code 1 reads the coils, 2 the discrete inputs, and neither changes anything. */
  lemma BitsAnswered(d: Device, pdu: bytes, d': Device, reply: Option<bytes>)
    requires pdu != [] && (pdu[0] == 1 || pdu[0] == 2) && Processed(d, pdu, d', reply)
    ensures d' == d && reply.Some? && AnswersReadBits(if pdu[0] == 1 then d.coils else d.di, pdu, reply.value)
  {
    hide ReadRegsReply, AnswersReadBits, StoreWords, MultiAccepted, WordAt;
  }

  /**
   The reply to reading bits: the same exceptions; otherwise bit `i` stands in byte `2 + i / 8`, least
   significant first, and the bits beyond the quantity are zero.
   */
  lemma BitsReply(data: Flags, pdu: bytes, r: bytes, i: nat)
    requires pdu != [] && AnswersReadBits(data, pdu, r)
    ensures if |pdu| < 5 || GetBE(pdu[3..5]) < 1 || GetBE(pdu[3..5]) > 2000 then r == [pdu[0] | 0x80, 3]
            else
              var addr, qty := GetBE(pdu[1..3]), GetBE(pdu[3..5]);
              var count := (qty + 7) / 8;
              if exists a: uint16 | (a - addr) % 0x1_0000 < qty :: a !in data then r == [pdu[0] | 0x80, 2]
              else
                && |r| == 2 + count && r[0] == pdu[0] && GetBE(r[1..2]) == count
                && (i < qty ==> (addr + i) % 0x1_0000 in data)
                && (i < 8 * count ==>
                      (r[2 + i / 8] & [0x01, 0x02, 0x04, 0x08, 0x10, 0x20, 0x40, 0x80][i % 8] != 0)
                      == (i < qty && data[(addr + i) % 0x1_0000]))
  {
    hide At, GetBE, ToByte, IsBitsReply;
    if |pdu| >= 5 && 1 <= WordAt(pdu, 3) <= 2000 {
      var addr, qty := WordAt(pdu, 1), WordAt(pdu, 3);
      AllThere(data, addr, qty);
      if forall j | 0 <= j < qty :: At(addr, j) in data {
        FlagsReply(data, addr, qty, pdu[0], r, i);
      }
    }
  }

  lemma FlagsReply(data: Flags, addr: uint16, qty: nat, fc: byte, r: bytes, i: nat)
    requires qty <= 2000 && IsBitsReply(r, fc, data, addr, qty)
    ensures var count := (qty + 7) / 8;
            && |r| == 2 + count && r[0] == fc && GetBE(r[1..2]) == count
            && (i < qty ==> (addr + i) % 0x1_0000 in data)
            && (i < 8 * count ==>
                  (r[2 + i / 8] & [0x01, 0x02, 0x04, 0x08, 0x10, 0x20, 0x40, 0x80][i % 8] != 0)
                  == (i < qty && data[(addr + i) % 0x1_0000]))
  {
    hide At, GetBE, ToByte, BitOf;
    var count := (qty + 7) / 8;
    ByteBack(count, r[1]);
    assert r[1..2] == [r[1]];
    if i < 8 * count {
      Addresses(addr, i, At(addr, i));
      BitsAre(r[2..], i);
      assert r[2..][i / 8] == r[2 + i / 8];
    }
  }

  lemma BitsAre(s: bytes, i: nat)
    requires i < 8 * |s|
    ensures BitOf(s, i) <==> s[i / 8] & [0x01, 0x02, 0x04, 0x08, 0x10, 0x20, 0x40, 0x80][i % 8] != 0
  {
    BitMasks();
    hide BitMask;
  }

  /** Writing one coil, function code 5: 0xFF00 switches it on, 0 off, and nothing else is accepted. */
  lemma CoilWritten(d: Device, pdu: bytes, d': Device, reply: Option<bytes>)
    requires pdu != [] && pdu[0] == 5 && Processed(d, pdu, d', reply)
    ensures if |pdu| < 5 || (GetBE(pdu[3..5]) != 0 && GetBE(pdu[3..5]) != 0xFF00) then d' == d && reply == Some([0x85, 3])
            else d' == d.(coils := d.coils[GetBE(pdu[1..3]) := GetBE(pdu[3..5]) == 0xFF00]) && reply == Some(pdu[..5])
  {
    Codes(pdu[0]);
    hide ReadRegsReply, AnswersReadBits, StoreWords, MultiAccepted, GetBE;
  }

  /** Writing one register, function code 6. */
  lemma RegisterWritten(d: Device, pdu: bytes, d': Device, reply: Option<bytes>)
    requires pdu != [] && pdu[0] == 6 && Processed(d, pdu, d', reply)
    ensures if |pdu| < 5 then d' == d && reply == Some([0x86, 3])
            else d' == d.(hr := d.hr[GetBE(pdu[1..3]) := GetBE(pdu[3..5])]) && reply == Some(pdu[..5])
  {
    Codes(pdu[0]);
    hide ReadRegsReply, AnswersReadBits, StoreWords, MultiAccepted, GetBE;
  }

  /**
   Writing several registers, function code 16: the byte count must be twice the quantity and the bytes must be
   there; then register `a` holds the word at its distance from the address, if the request covers it.
   */
  lemma RegistersWritten(d: Device, pdu: bytes, d': Device, reply: Option<bytes>, a: uint16)
    requires pdu != [] && pdu[0] == 0x10 && Processed(d, pdu, d', reply)
    ensures if |pdu| < 6 || GetBE(pdu[5..6]) != 2 * GetBE(pdu[3..5]) || |pdu| < 6 + 2 * GetBE(pdu[3..5]) then
              d' == d && reply == Some([0x90, 3])
            else
              var addr, qty := GetBE(pdu[1..3]), GetBE(pdu[3..5]);
              var i := (a - addr) % 0x1_0000;
              && d' == d.(hr := d'.hr) && reply == Some([0x10] + pdu[1..5])
              && (i < qty ==> a in d'.hr && d'.hr[a] == GetBE(pdu[6 + 2 * i..8 + 2 * i]))
              && (i >= qty ==> (a in d'.hr <==> a in d.hr) && (a in d.hr ==> d'.hr[a] == d.hr[a]))
  {
    hide ReadRegsReply, AnswersReadBits, StoreWords, GetBE, At;
    Codes(pdu[0]);
    if |pdu| >= 6 {
      CountByte(pdu);
      if MultiAccepted(pdu) {
        StoredWord(d.hr, WordAt(pdu, 1), pdu, WordAt(pdu, 3), a);
      }
    }
  }

  lemma CountByte(pdu: bytes)
    requires |pdu| >= 6
    ensures GetBE(pdu[5..6]) == pdu[5] as int
  {
    assert pdu[5..6] == [pdu[5]];
  }

  lemma StoredWord(hr: Words, addr: uint16, pdu: bytes, qty: nat, a: uint16)
    requires |pdu| >= 6 + 2 * qty && qty < 0x1_0000
    ensures var hr', i := StoreWords(hr, addr, pdu[6..], qty), (a - addr) % 0x1_0000;
            && (i < qty ==> a in hr' && hr'[a] == GetBE(pdu[6 + 2 * i..8 + 2 * i]))
            && (i >= qty ==> (a in hr' <==> a in hr) && (a in hr ==> hr'[a] == hr[a]))
  {
    hide At, GetBE, StoreWords;
    var i := (a - addr) % 0x1_0000;
    StoredAt(hr, addr, pdu[6..], qty, a);
    Addresses(addr, i, a);
    if i < qty {
      assert pdu[6..][2 * i..2 * i + 2] == pdu[6 + 2 * i..8 + 2 * i];
    } else {
      forall j | 0 <= j < qty
        ensures At(addr, j) != a
      {
        Addresses(addr, j, a);
      }
    }
  }

  /** Any other function code is answered with exception 1, and an empty request not at all. */
  lemma NotSupported(d: Device, pdu: bytes, d': Device, reply: Option<bytes>)
    requires Processed(d, pdu, d', reply)
    ensures pdu == [] ==> d' == d && reply == None
    ensures pdu != [] && pdu[0] !in {1, 2, 3, 4, 5, 6, 0x10} ==> d' == d && reply == Some([pdu[0] | 0x80, 1])
  {
    hide ReadRegsReply, AnswersReadBits, StoreWords, MultiAccepted, WordAt;
  }
}
