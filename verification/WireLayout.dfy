/**
 Where every field stands on the wire: byte positions of the frame header and of the
 payloads, most significant byte first, and signed integers in two's complement.
 */
module WireLayout {
  import opened Bytes
  import opened Payload
  import PayloadProperties
  import Crc
  import Frame

  // ---- Integers ----

  /** The first byte weighs most. */
  lemma BigEndian(s: bytes)
    ensures |s| == 1 ==> GetBE(s) == s[0] as int
    ensures |s| == 2 ==> GetBE(s) == s[0] as int * 0x100 + s[1] as int
    ensures |s| == 4 ==> GetBE(s) == ((s[0] as int * 0x100 + s[1] as int) * 0x100 + s[2] as int) * 0x100 + s[3] as int
  {
    if |s| == 1 {
      LastDigit(s);
    } else if |s| == 2 {
      LastDigit(s);
      LastDigit(s[..1]);
    } else if |s| == 4 {
      LastDigit(s);
      LastDigit(s[..3]);
      LastDigit(s[..3][..2]);
      LastDigit(s[..3][..2][..1]);
    }
  }

  lemma LastDigit(s: bytes)
    requires s != []
    ensures GetBE(s) == (if |s| == 1 then 0 else GetBE(s[..|s| - 1])) * 0x100 + s[|s| - 1] as int
  {}

  /** Go's conversions between int64 and uint64 keep the value modulo 2^64. */
  lemma TwosComplement(i: int64)
    ensures ToUint64(i) == i % 0x1_0000_0000_0000_0000
    ensures ToInt64(ToUint64(i)) == i
    ensures GetBE(Int64Bytes(i)) == i % 0x1_0000_0000_0000_0000
  {
    Powers();
    hide PutBE, GetBE;
    GetPutExact(ToUint64(i), 8);
  }

  // ---- The frame ----

  /** Magic, version, flags, type, message id, payload length and time, then the payload, then the checksum. */
  lemma FrameLayout(f: Frame.Frame)
    ensures var e, n := Frame.Encoding(f), |f.payload|;
            && |e| == 13 + n + 2
            && GetBE(e[0..2]) == f.magic
            && e[2] == f.version && e[3] == f.flags && e[4] == f.kind
            && GetBE(e[5..7]) == f.msgId
            && GetBE(e[7..9]) == n % 0x1_0000
            && GetBE(e[9..13]) == f.timestamp
            && e[13..13 + n] == f.payload
            && ((e[13 + n] as bv16) << 8) | (e[14 + n] as bv16) == Crc.Checksum(e[..13 + n])
  {
    var h, n := Frame.Header(f), |f.payload|;
    HeaderLayout(f);
    hide Frame.Header, Crc.Checksum, Crc.CrcBytes, GetBE;
    var crc := Crc.CrcBytes(Crc.Checksum(Frame.Body(f)));
    var e := Frame.Encoding(f);
    assert e == h + f.payload + crc;
    assert e[0..2] == h[0..2] && e[5..7] == h[5..7] && e[7..9] == h[7..9] && e[9..13] == h[9..13];
    assert e[..13 + n] == Frame.Body(f);
    HighThenLow(Crc.Checksum(Frame.Body(f)), crc);
    assert e[13 + n] == crc[0] && e[14 + n] == crc[1];
  }

  lemma HeaderLayout(f: Frame.Frame)
    ensures var h := Frame.Header(f);
            && GetBE(h[0..2]) == f.magic && h[2] == f.version && h[3] == f.flags && h[4] == f.kind
            && GetBE(h[5..7]) == f.msgId && GetBE(h[7..9]) == |f.payload| % 0x1_0000 && GetBE(h[9..13]) == f.timestamp
  {
    Powers();
    GetPutExact(f.magic, 2);
    GetPutExact(f.msgId, 2);
    GetPut(|f.payload|, 2);
    GetPutExact(f.timestamp, 4);
    HeaderParts(f);
    hide *;
  }

  lemma HeaderParts(f: Frame.Frame)
    ensures var h := Frame.Header(f);
            && h[0..2] == PutBE(f.magic, 2) && h[2] == f.version && h[3] == f.flags && h[4] == f.kind
            && h[5..7] == PutBE(f.msgId, 2) && h[7..9] == PutBE(|f.payload|, 2) && h[9..13] == PutBE(f.timestamp, 4)
  {
    hide PutBE;
  }

  lemma HighThenLow(crc: bv16, s: bytes)
    requires s == Crc.CrcBytes(crc)
    ensures ((s[0] as bv16) << 8) | (s[1] as bv16) == crc
  {}

  // ---- The payloads ----

  /** The version, then serial number and token, each behind a byte of length. */
  lemma HandshakeLayout(p: Handshake)
    requires |p.sn| <= 255 && |p.token| <= 255
    ensures var b, n := HandshakeBytes(p), |p.sn|;
            && |b| == 3 + n + |p.token|
            && b[0] == p.firmwareVersion
            && GetBE(b[1..2]) == n && b[2..2 + n] == p.sn
            && GetBE(b[2 + n..3 + n]) == |p.token| && b[3 + n..] == p.token
  {
    Powers();
    GetPutExact(|p.sn|, 1);
    GetPutExact(|p.token|, 1);
    HandshakeParts([p.firmwareVersion], PutBE(|p.sn|, 1), p.sn, PutBE(|p.token|, 1), p.token);
    hide PutBE, GetBE;
  }

  lemma HandshakeParts(v: bytes, m: bytes, sn: bytes, n: bytes, token: bytes)
    requires |v| == 1 && |m| == 1 && |n| == 1
    ensures var b, k := v + ((m + sn) + (n + token)), |sn|;
            && |b| == 3 + k + |token| && b[0] == v[0]
            && b[1..2] == m && b[2..2 + k] == sn && b[2 + k..3 + k] == n && b[3 + k..] == token
  {}

  /** The message id, then the code. */
  lemma AckLayout(p: Ack)
    ensures var b := AckBytes(p); |b| == 3 && GetBE(b[0..2]) == p.msgId && b[2] == p.code
  {
    Powers();
    GetPutExact(p.msgId, 2);
    assert AckBytes(p)[0..2] == PutBE(p.msgId, 2);
  }

  /** `s` stands at `off` of `b`, behind two bytes of length. */
  predicate StringAt(b: bytes, off: nat, s: bytes) {
    off + 2 + |s| <= |b| && GetBE(b[off..off + 2]) == |s| && b[off + 2..off + 2 + |s|] == s
  }

  lemma Strung(b: bytes, pre: bytes, s: bytes, post: bytes, next: bytes)
    requires |s| < Pow256(2) && b == pre + (LString(s, 2) + post) && next == pre + LString(s, 2)
    ensures StringAt(b, |pre|, s)
    ensures b == next + post && |next| == |pre| + 2 + |s|
  {
    hide PutBE, GetBE, Pow256;
    GetPutExact(|s|, 2);
    var size := PutBE(|s|, 2);
    assert LString(s, 2) == size + s && |size| == 2;
    hide LString;
    assert b == pre + size + s + post;
    assert b[|pre|..|pre| + 2] == size && b[|pre| + 2..|pre| + 2 + |s|] == s;
  }

  /** The strings stand from `off` on, one behind the other, each behind two bytes of length. */
  predicate StringsAt(b: bytes, off: nat, strings: seq<bytes>)
    decreases strings
  {
    strings == [] || (StringAt(b, off, strings[0]) && StringsAt(b, off + 2 + |strings[0]|, strings[1..]))
  }

  /** How many bytes they take. */
  function Room(strings: seq<bytes>): nat {
    if strings == [] then 0 else 2 + |strings[0]| + Room(strings[1..])
  }

  function StringsThen(strings: seq<bytes>, rest: bytes): bytes {
    if strings == [] then rest else LString(strings[0], 2) + StringsThen(strings[1..], rest)
  }

  lemma {:induction false} AllStrung(b: bytes, pre: bytes, strings: seq<bytes>, rest: bytes)
    requires b == pre + StringsThen(strings, rest) && forall s | s in strings :: |s| < Pow256(2)
    ensures StringsAt(b, |pre|, strings)
    ensures |b| == |pre| + Room(strings) + |rest| && b[|pre| + Room(strings)..] == rest
    decreases strings
  {
    hide Pow256, LString, StringAt;
    if strings == [] {
      assert StringsThen(strings, rest) == rest;
    } else {
      hide *;
      FirstString(b, |pre|, strings, rest);
      var next := pre + LString(strings[0], 2);
      Strung(b, pre, strings[0], StringsThen(strings[1..], rest), next);
      AllStrung(b, next, strings[1..], rest);
    }
  }

  lemma FirstString(b: bytes, off: nat, strings: seq<bytes>, rest: bytes)
    requires strings != []
    ensures StringsThen(strings, rest) == LString(strings[0], 2) + StringsThen(strings[1..], rest)
    ensures Room(strings) == 2 + |strings[0]| + Room(strings[1..])
    ensures StringsAt(b, off, strings) <==> StringAt(b, off, strings[0]) && StringsAt(b, off + 2 + |strings[0]|, strings[1..])
  {
    hide LString, StringAt;
  }

  /**
   The id; device, device name, point, point name, data type and value, one behind the other; the quality;
   the unit; the timestamp.
   */
  lemma ReadingLayout(r: Reading)
    requires StringsFit(r)
    ensures var b := ReadingBytes(r);
            var named := [r.device, r.deviceName, r.point, r.pointName, r.dataType, r.value];
            var o := 8 + Room(named);
            && |b| == o + 3 + |r.unit| + 8
            && b[0..8] == Int64Bytes(r.id)
            && StringsAt(b, 8, named)
            && b[o] == r.quality
            && StringAt(b, o + 1, r.unit)
            && b[o + 3 + |r.unit|..] == Int64Bytes(r.timestamp)
  {
    hide *;
    PayloadProperties.FieldsFit(r);
    ReadingParts(r);
    var b, id, rest := ReadingBytes(r), Int64Bytes(r.id), [r.quality] + (LString(r.unit, 2) + Int64Bytes(r.timestamp));
    var named := [r.device, r.deviceName, r.point, r.pointName, r.dataType, r.value];
    AllStrung(b, id, named, rest);
    var o := 8 + Room(named);
    assert b == b[..o] + rest;
    LastFields(r, b, b[..o]);
    Begins(b, id, StringsThen(named, rest));
  }

  lemma ReadingParts(r: Reading)
    ensures ReadingBytes(r) == Int64Bytes(r.id) + StringsThen([r.device, r.deviceName, r.point, r.pointName, r.dataType, r.value],
                                                              [r.quality] + (LString(r.unit, 2) + Int64Bytes(r.timestamp)))
  {
    hide LString, Int64Bytes;
    var t := [r.quality] + (LString(r.unit, 2) + Int64Bytes(r.timestamp));
    OneMore(r.value, [], t);
    OneMore(r.dataType, [r.value], t);
    OneMore(r.pointName, [r.dataType, r.value], t);
    OneMore(r.point, [r.pointName, r.dataType, r.value], t);
    OneMore(r.deviceName, [r.point, r.pointName, r.dataType, r.value], t);
    OneMore(r.device, [r.deviceName, r.point, r.pointName, r.dataType, r.value], t);
    assert [r.value] == [r.value] + [] && [r.dataType] + [r.value] == [r.dataType, r.value];
  }

  lemma OneMore(s: bytes, strings: seq<bytes>, t: bytes)
    ensures StringsThen([s] + strings, t) == LString(s, 2) + StringsThen(strings, t)
    ensures StringsThen([], t) == t
  {
    assert ([s] + strings)[1..] == strings;
  }

  lemma LastFields(r: Reading, b: bytes, pre: bytes)
    requires |r.unit| < Pow256(2)
    requires b == pre + ([r.quality] + (LString(r.unit, 2) + Int64Bytes(r.timestamp)))
    ensures var o := |pre|;
            && |b| == o + 3 + |r.unit| + 8
            && b[o] == r.quality && StringAt(b, o + 1, r.unit) && b[o + 3 + |r.unit|..] == Int64Bytes(r.timestamp)
  {
    hide *;
    var q, time := [r.quality], Int64Bytes(r.timestamp);
    var unit := LString(r.unit, 2);
    Moved(b, pre, q, unit + time);
    Strung(b, pre + q, r.unit, time, pre + q + unit);
    Ends(b, pre, q, unit + time, pre + q + unit, time);
  }

  lemma Begins(b: bytes, first: bytes, t: bytes)
    requires b == first + t
    ensures b[0..|first|] == first
  {}

  lemma Moved(b: bytes, pre: bytes, s: bytes, post: bytes)
    requires b == pre + (s + post)
    ensures b == (pre + s) + post
  {}

  lemma Ends(b: bytes, pre: bytes, q: bytes, post: bytes, init: bytes, last: bytes)
    requires b == pre + (q + post) && |q| == 1 && b == init + last
    ensures b[|pre|] == q[0] && b[|init|..] == last
  {}

  /** The count, then the readings one behind the other. */
  lemma UploadLayout(rs: seq<Reading>)
    requires |rs| < 0x1_0000_0000
    ensures var b := UploadBytes(rs);
            |b| >= 4 && GetBE(b[0..4]) == |rs|
            && (rs != [] ==> b[4..] == ReadingBytes(rs[0]) + UploadBytes(rs[1..])[4..])
  {
    Powers();
    GetPutExact(|rs|, 4);
    hide PutBE, ReadingBytes;
    var b := UploadBytes(rs);
    assert b[0..4] == PutBE(|rs|, 4) && b[4..] == ReadingsBytes(rs);
    if rs != [] {
      assert UploadBytes(rs[1..])[4..] == ReadingsBytes(rs[1..]);
    }
  }

  /** The event code, the device hash, time and severity, the message, and the raw data behind two bytes of length. */
  lemma NotifyLayout(p: Notify)
    requires |p.deviceHash| <= 255 && |p.message| <= 255
    ensures var b, m, n := NotifyBytes(p), |p.deviceHash|, |p.message|;
            && |b| == 10 + m + n + |p.rawData|
            && b[0] == p.eventCode
            && GetBE(b[1..2]) == m && b[2..2 + m] == p.deviceHash
            && GetBE(b[2 + m..6 + m]) == p.timestamp && b[6 + m] == p.severity
            && GetBE(b[7 + m..8 + m]) == n && b[8 + m..8 + m + n] == p.message
            && GetBE(b[8 + m + n..10 + m + n]) == |p.rawData| % 0x1_0000 && b[10 + m + n..] == p.rawData
  {
    hide *;
    Powers();
    GetPutExact(p.timestamp, 4);
    GetPut(|p.rawData|, 2);
    GetPutExact(|p.deviceHash|, 1);
    GetPutExact(|p.message|, 1);
    NotifyParts(p);
    PartBytes(NotifyBytes(p), [p.eventCode], PutBE(|p.deviceHash|, 1), p.deviceHash, PutBE(p.timestamp, 4), [p.severity],
              PutBE(|p.message|, 1), p.message, PutBE(|p.rawData|, 2), p.rawData);
  }

  lemma NotifyParts(p: Notify)
    ensures NotifyBytes(p) == ([p.eventCode] + PutBE(|p.deviceHash|, 1) + p.deviceHash)
                              + ((PutBE(p.timestamp, 4) + [p.severity] + PutBE(|p.message|, 1))
                                 + (p.message + (PutBE(|p.rawData|, 2) + p.rawData)))
  {
    hide PutBE;
    Regroup([p.eventCode], PutBE(|p.deviceHash|, 1), p.deviceHash, PutBE(p.timestamp, 4), [p.severity], PutBE(|p.message|, 1),
            p.message, PutBE(|p.rawData|, 2) + p.rawData);
  }

  lemma Regroup(e: bytes, m: bytes, hash: bytes, time: bytes, v: bytes, n: bytes, message: bytes, tail: bytes)
    ensures e + ((m + hash) + (time + (v + ((n + message) + tail))))
         == (e + m + hash) + ((time + v + n) + (message + tail))
  {
    var x := time + (v + ((n + message) + tail));
    assert x == (time + v + n) + (message + tail);
    assert e + ((m + hash) + x) == (e + m + hash) + x;
  }

  lemma PartBytes(b: bytes, event: bytes, m: bytes, hash: bytes, time: bytes, severity: bytes, n: bytes, message: bytes, len: bytes, raw: bytes)
    requires |event| == 1 && |m| == 1 && |time| == 4 && |severity| == 1 && |n| == 1 && |len| == 2
    requires b == (event + m + hash) + ((time + severity + n) + (message + (len + raw)))
    ensures var h, k := |hash|, |message|;
            && |b| == 10 + h + k + |raw|
            && b[0] == event[0] && b[1..2] == m && b[2..2 + h] == hash && b[2 + h..6 + h] == time && b[6 + h] == severity[0]
            && b[7 + h..8 + h] == n && b[8 + h..8 + h + k] == message && b[8 + h + k..10 + h + k] == len && b[10 + h + k..] == raw
  {
    var head, middle, tail, h, k := event + m + hash, time + severity + n, len + raw, |hash|, |message|;
    Parts(b, head, middle, message, tail);
    assert b[0] == head[0] && b[1..2] == head[1..2] && b[2..2 + h] == head[2..];
    assert b[2 + h..6 + h] == middle[..4] && b[6 + h] == middle[4] && b[7 + h..8 + h] == middle[5..6];
    assert b[8 + h + k..10 + h + k] == tail[..2] && b[10 + h + k..] == tail[2..];
  }

  lemma Parts(b: bytes, head: bytes, middle: bytes, s: bytes, tail: bytes)
    requires b == head + (middle + (s + tail))
    ensures |b| == |head| + |middle| + |s| + |tail|
    ensures b[..|head|] == head && b[|head|..|head| + |middle|] == middle
    ensures b[|head| + |middle|..|head| + |middle| + |s|] == s && b[|head| + |middle| + |s|..] == tail
  {}

  // ---- What the decoders make of any bytes, by position ----

  lemma LStringAt(data: bytes, off: nat, w: nat, field: Field)
    requires off <= |data|
    ensures ReadLString(data[off..], w, field) ==
            if |data| < off + w then Bad(Missing(field))
            else
              var n := GetBE(data[off..off + w]);
              if |data| < off + w + n then Bad(Truncated(field))
              else Parsed(data[off + w..off + w + n], data[off + w + n..])
  {
    hide GetBE;
    var b := data[off..];
    if |b| >= w {
      assert b[..w] == data[off..off + w];
      var n := GetBE(b[..w]);
      if |b| >= w + n {
        assert b[w..w + n] == data[off + w..off + w + n] && b[w + n..] == data[off + w + n..];
      }
    }
  }

  /** Handshakes: which error for which length, and which fields an error leaves as they were. */
  lemma HandshakeReads(p: Handshake, data: bytes)
    ensures var q := HandshakeFilled(p, data);
            if |data| < 3 then DecodeHandshake(data) == Bad(TooShort) && q == p
            else
              var m := GetBE(data[1..2]);
              if |data| < 2 + m then
                DecodeHandshake(data) == Bad(Truncated(Sn)) && q == Handshake(data[0], p.sn, p.token)
              else if |data| < 3 + m then
                DecodeHandshake(data) == Bad(Missing(Token)) && q == Handshake(data[0], data[2..2 + m], p.token)
              else
                var n := GetBE(data[2 + m..3 + m]);
                if |data| < 3 + m + n then
                  DecodeHandshake(data) == Bad(Truncated(Token)) && q == Handshake(data[0], data[2..2 + m], p.token)
                else
                  q == Handshake(data[0], data[2..2 + m], data[3 + m..3 + m + n])
                  && DecodeHandshake(data) == Parsed(q, data[3 + m + n..])
  {
    hide ReadLString, GetBE;
    if |data| >= 3 {
      LStringAt(data, 1, 1, Sn);
      var m := GetBE(data[1..2]);
      if |data| >= 2 + m {
        LStringAt(data, 2 + m, 1, Token);
      }
    }
  }

  /** They refuse the first of serial number and token that is over 255 bytes, and encode everything else. */
  lemma HandshakeRefused(p: Handshake)
    ensures EncodeHandshake(p) == if |p.sn| > 255 then Refused(FieldTooLong(|p.sn|))
                                  else if |p.token| > 255 then Refused(FieldTooLong(|p.token|))
                                  else Payload.Bytes(HandshakeBytes(p))
  {
    hide HandshakeBytes;
  }

  lemma AckReads(data: bytes)
    ensures if |data| < 3 then DecodeAck(data) == Bad(TooShort)
            else GetBE(data[0..2]) < 0x1_0000 && DecodeAck(data) == Parsed(Ack(GetBE(data[0..2]), data[2]), data[3..])
  {
    assert |data| >= 3 ==> data[0..2] == data[..2];
    hide GetBE;
  }

  /** Notifications likewise: time, severity and the message's length must be there together. */
  lemma NotifyReads(p: Notify, data: bytes)
    ensures var q := NotifyFilled(p, data);
            if |data| < 10 then DecodeNotify(data) == Bad(TooShort) && q == p
            else
              var m := GetBE(data[1..2]);
              if |data| < 2 + m then
                DecodeNotify(data) == Bad(Truncated(DeviceHash)) && q == p.(eventCode := data[0])
              else if |data| < 8 + m then
                DecodeNotify(data) == Bad(Missing(Timestamp)) && q == p.(eventCode := data[0], deviceHash := data[2..2 + m])
              else
                var k := GetBE(data[7 + m..8 + m]);
                && q.eventCode == data[0] && q.deviceHash == data[2..2 + m]
                && q.timestamp == GetBE(data[2 + m..6 + m]) && q.severity == data[6 + m]
                && if |data| < 8 + m + k then
                     DecodeNotify(data) == Bad(Truncated(Message)) && q.message == p.message && q.rawData == p.rawData
                   else if |data| < 10 + m + k then
                     && DecodeNotify(data) == Bad(Missing(RawData))
                     && q.message == data[8 + m..8 + m + k] && q.rawData == p.rawData
                   else
                     var n := GetBE(data[8 + m + k..10 + m + k]);
                     if |data| < 10 + m + k + n then
                       && DecodeNotify(data) == Bad(Truncated(RawData))
                       && q.message == data[8 + m..8 + m + k] && q.rawData == p.rawData
                     else
                       && DecodeNotify(data) == Parsed(q, data[10 + m + k + n..])
                       && q.message == data[8 + m..8 + m + k] && q.rawData == data[10 + m + k..10 + m + k + n]
  {
    hide ReadLString, GetBE, DecodeNotifyTail, TailFilled;
    if |data| >= 10 {
      LStringAt(data, 1, 1, DeviceHash);
      var m := GetBE(data[1..2]);
      if |data| >= 8 + m {
        NotifyMiddle(p, data, m);
        TailReads((p.message, p.rawData), data, 7 + m);
      }
    }
  }

  lemma NotifyMiddle(p: Notify, data: bytes, m: nat)
    requires |data| >= 10 && |data| >= 8 + m
    ensures data[2 + m..][..4] == data[2 + m..6 + m] && data[2 + m..][4] == data[6 + m] && data[2 + m..][5..] == data[7 + m..]
  {}

  lemma TailReads(tail: (bytes, bytes), data: bytes, o: nat)
    requires o < |data|
    ensures var q, k := TailFilled(tail, data[o..]), GetBE(data[o..o + 1]);
            if |data| < o + 1 + k then DecodeNotifyTail(data[o..]) == Bad(Truncated(Message)) && q == tail
            else if |data| < o + 3 + k then
              DecodeNotifyTail(data[o..]) == Bad(Missing(RawData)) && q == (data[o + 1..o + 1 + k], tail.1)
            else
              var n := GetBE(data[o + 1 + k..o + 3 + k]);
              if |data| < o + 3 + k + n then
                DecodeNotifyTail(data[o..]) == Bad(Truncated(RawData)) && q == (data[o + 1..o + 1 + k], tail.1)
              else
                q == (data[o + 1..o + 1 + k], data[o + 3 + k..o + 3 + k + n])
                && DecodeNotifyTail(data[o..]) == Parsed(q, data[o + 3 + k + n..])
  {
    hide ReadLString, GetBE;
    LStringAt(data, o, 1, Message);
    var k := GetBE(data[o..o + 1]);
    if |data| >= o + 1 + k {
      LStringAt(data, o + 1 + k, 2, RawData);
    }
  }

  lemma NotifyRefused(p: Notify)
    ensures EncodeNotify(p) == if |p.deviceHash| > 255 then Refused(FieldTooLong(|p.deviceHash|))
                               else if |p.message| > 255 then Refused(FieldTooLong(|p.message|))
                               else Payload.Bytes(NotifyBytes(p))
  {
    hide NotifyBytes;
  }

  /**
   Frames: which error for which bytes, and what is left unread. Bytes that end where the header ends look like the
   end of the file, like no bytes at all.
   */
  lemma FrameReads(stream: bytes)
    ensures var d := Frame.Decode(stream);
            if |stream| < 13 then d == Frame.Rejected(if stream == [] then Frame.EndOfFile else Frame.UnexpectedEndOfFile, [])
            else if GetBE(stream[0..2]) != 0x4E59 then d == Frame.Rejected(Frame.InvalidMagic, stream[13..])
            else
              var n := GetBE(stream[7..9]);
              if |stream| < 15 + n then
                d == Frame.Rejected(if |stream| == 13 then Frame.EndOfFile else Frame.UnexpectedEndOfFile, [])
              else if Crc.Checksum(stream[..13 + n]) != Crc.CrcValue(stream[13 + n..15 + n]) then
                d == Frame.Rejected(Frame.ChecksumMismatch, stream[15 + n..])
              else
                d.Decoded? && d.rest == stream[15 + n..] && d.frame.payload == stream[13..13 + n]
                && d.checksum == Crc.Checksum(stream[..13 + n]) && IsHeader(d.frame, stream)
  {
    hide GetBE, Crc.Checksum, Crc.CrcValue, Frame.ParseHeader, IsHeader;
    if |stream| >= 13 {
      assert stream[..13][..2] == stream[0..2];
      var n := GetBE(stream[7..9]);
      assert stream[..13][7..9] == stream[7..9];
      if |stream| >= 15 + n {
        assert stream[..13] + stream[13..][..n] == stream[..13 + n];
        assert stream[13..][n..n + 2] == stream[13 + n..15 + n];
        assert stream[13..][n + 2..] == stream[15 + n..];
        HeaderRead(stream, stream[13..][..n]);
        PayloadRead(stream, stream[13..][..n]);
      }
    }
  }

  lemma PayloadRead(stream: bytes, payload: bytes)
    requires |stream| >= 13
    ensures Frame.ParseHeader(stream[..13], payload).payload == payload
  {
    hide GetBE;
  }

  /** The trailer's first byte is the high one. */
  lemma TrailerValue(a: byte, b: byte)
    ensures Crc.CrcValue([a, b]) == ((a as bv16) << 8) | (b as bv16)
  {}

  /** The fixed fields of a frame are those at their positions. */
  predicate IsHeader(f: Frame.Frame, s: bytes) {
    |s| >= 13 && GetBE(s[0..2]) == f.magic && s[2] == f.version && s[3] == f.flags && s[4] == f.kind
    && GetBE(s[5..7]) == f.msgId && GetBE(s[7..9]) == f.payloadLen && GetBE(s[9..13]) == f.timestamp
  }

  lemma HeaderRead(stream: bytes, payload: bytes)
    requires |stream| >= 13
    ensures IsHeader(Frame.ParseHeader(stream[..13], payload), stream)
  {
    hide GetBE;
    var h := stream[..13];
    assert h[..2] == stream[0..2] && h[5..7] == stream[5..7] && h[7..9] == stream[7..9] && h[9..] == stream[9..13];
  }

  /** What a refused frame leaves in the message: nothing, its magic alone, or its header, with the payload if that is whole. */
  lemma FrameFilled(stream: bytes)
    ensures var f := Frame.Filled(stream);
            if |stream| < 13 then f == Frame.Frame(0, 0, 0, 0, 0, 0, 0, [])
            else if GetBE(stream[0..2]) != 0x4E59 then f == Frame.Frame(f.magic, 0, 0, 0, 0, 0, 0, []) && f.magic == GetBE(stream[0..2])
            else
              var n := GetBE(stream[7..9]);
              IsHeader(f, stream) && f.payload == if |stream| < 15 + n then [] else stream[13..13 + n]
  {
    hide GetBE;
    if |stream| >= 13 {
      assert stream[..13][..2] == stream[0..2] && stream[..13][7..9] == stream[7..9];
      var n := GetBE(stream[7..9]);
      HeaderRead(stream, []);
      if |stream| >= 15 + n {
        HeaderRead(stream, stream[13..][..n]);
      }
    }
  }
}
