/**
 The four payload codecs. Each has a specification, as functions on byte strings, and
 a class whose Encode appends to a buffer and whose Decode advances an offset and fills
 the receiver field by field.
 */
module Payload {
  import opened Bytes

  datatype Option<+T> = None | Some(value: T)

  datatype Field = FirmwareVersion | Sn | Token | Id | Device | DeviceName | Point | PointName | DataType
                 | Value | Quality | Unit | Timestamp | DeviceHash | Message | RawData

  datatype PayloadError =
    | TooShort
    | FieldTooLong(length: nat)
    | InvalidCount(count: nat)
    | Missing(field: Field)    // the field's length, or the field itself when it has a fixed size, is cut off
    | Truncated(field: Field)  // the length is there, the content is not

  /** Result of reading a value off the front of a byte string. */
  datatype Parsed<+T> = Parsed(value: T, rest: bytes) | Bad(error: PayloadError) {
    predicate IsFailure() {
      Bad?
    }

    function PropagateFailure<U>(): Parsed<U>
      requires Bad?
    {
      Bad(error)
    }

    function Extract(): (T, bytes)
      requires Parsed?
    {
      (value, rest)
    }
  }

  datatype Encoded = Bytes(data: bytes) | Refused(error: PayloadError)

  // ---- Fields: fixed-width integers and strings behind a one- or two-byte length ----

  function ReadBytes(b: bytes, n: nat, field: Field): Parsed<bytes> {
    if |b| < n then Bad(Missing(field)) else Parsed(b[..n], b[n..])
  }

  function Int64Bytes(i: int64): (s: bytes)
    ensures |s| == 8
  {
    PutBE(ToUint64(i), 8)
  }

  function Int64Of(s: bytes): int64
    requires |s| == 8
  {
    Get8(s);
    ToInt64(GetBE(s))
  }

  /** `w` bytes of length, then the string; the length is truncated to its width. */
  function LString(s: bytes, w: nat): bytes {
    PutBE(|s|, w) + s
  }

  function ReadLString(b: bytes, w: nat, field: Field): Parsed<bytes> {
    if |b| < w then Bad(Missing(field))
    else
      var n := GetBE(b[..w]);
      if |b| < w + n then Bad(Truncated(field)) else Parsed(b[w..w + n], b[w + n..])
  }

  // ---- Handshake ----

  datatype Handshake = Handshake(firmwareVersion: byte, sn: bytes, token: bytes)

  function HandshakeBytes(p: Handshake): bytes {
    [p.firmwareVersion] + (LString(p.sn, 1) + LString(p.token, 1))
  }

  function EncodeHandshake(p: Handshake): Encoded {
    if |p.sn| > 255 then Refused(FieldTooLong(|p.sn|))
    else if |p.token| > 255 then Refused(FieldTooLong(|p.token|))
    else Bytes(HandshakeBytes(p))
  }

  function DecodeHandshake(data: bytes): Parsed<Handshake> {
    if |data| < 3 then Bad(TooShort)
    else
      var (sn, r1) :- ReadLString(data[1..], 1, Sn);
      var (token, r2) :- ReadLString(r1, 1, Token);
      Parsed(Handshake(data[0], sn, token), r2)
  }

  /** What decoding makes of a receiver: after an error it keeps the fields read before it. */
  function HandshakeFilled(p: Handshake, data: bytes): Handshake {
    if |data| < 3 then p
    else
      match ReadLString(data[1..], 1, Sn)
      case Bad(_) => p.(firmwareVersion := data[0])
      case Parsed(sn, r1) =>
        match ReadLString(r1, 1, Token)
        case Bad(_) => p.(firmwareVersion := data[0], sn := sn)
        case Parsed(token, _) => Handshake(data[0], sn, token)
  }

  lemma NothingToRead(b: bytes, w: nat, field: Field)
    requires |b| < w
    ensures ReadLString(b, w, field) == Bad(Missing(field))
  {}

  // ---- Ack ----

  datatype Ack = Ack(msgId: uint16, code: byte)

  function AckBytes(p: Ack): bytes {
    PutBE(p.msgId, 2) + [p.code]
  }

  function DecodeAck(data: bytes): Parsed<Ack> {
    if |data| < 3 then Bad(TooShort)
    else
      Get2(data[..2]);
      Parsed(Ack(GetBE(data[..2]), data[2]), data[3..])
  }

  // ---- Upload ----

  datatype Reading = Reading(id: int64, device: bytes, deviceName: bytes, point: bytes, pointName: bytes,
                             dataType: bytes, value: bytes, quality: byte, unit: bytes, timestamp: int64)

  const MIN_READING_LEN: nat := 31

  function Strings(r: Reading): seq<bytes> {
    [r.device, r.deviceName, r.point, r.pointName, r.dataType, r.value, r.unit]
  }

  predicate StringsFit(r: Reading) {
    forall s | s in Strings(r) :: |s| <= 65535
  }

  function ReadingBytes(r: Reading): bytes {
    Int64Bytes(r.id) + (LString(r.device, 2) + (LString(r.deviceName, 2) + (LString(r.point, 2)
    + (LString(r.pointName, 2) + (LString(r.dataType, 2) + (LString(r.value, 2) + ([r.quality]
    + (LString(r.unit, 2) + Int64Bytes(r.timestamp)))))))))
  }

  function ReadingsBytes(rs: seq<Reading>): bytes {
    if rs == [] then [] else ReadingBytes(rs[0]) + ReadingsBytes(rs[1..])
  }

  function UploadBytes(rs: seq<Reading>): bytes {
    PutBE(|rs|, 4) + ReadingsBytes(rs)
  }

  function DecodeReading(b: bytes): Parsed<Reading> {
    var (id, r1) :- ReadBytes(b, 8, Id);
    var (device, r2) :- ReadLString(r1, 2, Device);
    var (deviceName, r3) :- ReadLString(r2, 2, DeviceName);
    var (point, r4) :- ReadLString(r3, 2, Point);
    var (pointName, r5) :- ReadLString(r4, 2, PointName);
    var (dataType, r6) :- ReadLString(r5, 2, DataType);
    var (value, r7) :- ReadLString(r6, 2, Value);
    var (quality, r8) :- ReadBytes(r7, 1, Quality);
    var (unit, r9) :- ReadLString(r8, 2, Unit);
    var (timestamp, r10) :- ReadBytes(r9, 8, Timestamp);
    Parsed(Reading(Int64Of(id), device, deviceName, point, pointName, dataType, value, quality[0], unit,
                   Int64Of(timestamp)), r10)
  }

  /** The readings decoded before the end or the first error, the error, and what is left. */
  datatype Progress = Progress(readings: seq<Reading>, error: Option<PayloadError>, rest: bytes)

  function DecodeReadings(b: bytes, n: nat): Progress
    decreases n
  {
    if n == 0 then Progress([], None, b)
    else match DecodeReading(b)
      case Bad(error) => Progress([], Some(error), b)
      case Parsed(r, rest) =>
        var more := DecodeReadings(rest, n - 1);
        more.(readings := [r] + more.readings)
  }

  /** Decoding into a receiver that holds `before`. */
  function DecodeUpload(before: seq<Reading>, data: bytes): Progress {
    if |data| < 4 then Progress(before, Some(TooShort), data)
    else
      var count := GetBE(data[..4]);
      if count > |data| / MIN_READING_LEN + 1 then Progress(before, Some(InvalidCount(count)), data)
      else DecodeReadings(data[4..], count)
  }

  // ---- Notify ----

  datatype Notify = Notify(eventCode: byte, deviceHash: bytes, timestamp: uint32, severity: byte,
                           message: bytes, rawData: bytes)

  function NotifyBytes(p: Notify): bytes {
    [p.eventCode] + (LString(p.deviceHash, 1) + (PutBE(p.timestamp, 4) + ([p.severity]
    + (LString(p.message, 1) + LString(p.rawData, 2)))))
  }

  function EncodeNotify(p: Notify): Encoded {
    if |p.deviceHash| > 255 then Refused(FieldTooLong(|p.deviceHash|))
    else if |p.message| > 255 then Refused(FieldTooLong(|p.message|))
    else Bytes(NotifyBytes(p))
  }

  function DecodeNotify(data: bytes): Parsed<Notify> {
    if |data| < 10 then Bad(TooShort)
    else
      var (deviceHash, r1) :- ReadLString(data[1..], 1, DeviceHash);
      if |r1| < 6 then Bad(Missing(Timestamp))
      else
        var (tail, r2) :- DecodeNotifyTail(r1[5..]);
        Get4(r1[..4]);
        Parsed(Notify(data[0], deviceHash, GetBE(r1[..4]), r1[4], tail.0, tail.1), r2)
  }

  /** The message and the raw data. */
  function DecodeNotifyTail(b: bytes): Parsed<(bytes, bytes)> {
    var (message, r1) :- ReadLString(b, 1, Message);
    var (rawData, r2) :- ReadLString(r1, 2, RawData);
    Parsed((message, rawData), r2)
  }

  /** What decoding makes of the last two fields of a receiver. */
  function TailFilled(tail: (bytes, bytes), b: bytes): (bytes, bytes) {
    match ReadLString(b, 1, Message)
    case Bad(_) => tail
    case Parsed(message, r1) =>
      match ReadLString(r1, 2, RawData)
      case Bad(_) => (message, tail.1)
      case Parsed(rawData, _) => (message, rawData)
  }

  function NotifyFilled(p: Notify, data: bytes): Notify {
    if |data| < 10 then p
    else
      match ReadLString(data[1..], 1, DeviceHash)
      case Bad(_) => p.(eventCode := data[0])
      case Parsed(deviceHash, r1) =>
        if |r1| < 6 then p.(eventCode := data[0], deviceHash := deviceHash)
        else
          Get4(r1[..4]);
          var tail := TailFilled((p.message, p.rawData), r1[5..]);
          Notify(data[0], deviceHash, GetBE(r1[..4]), r1[4], tail.0, tail.1)
  }

  // ---- The imperative codecs ----

  /** A method that reported `err` and holds `value` did what the specification says. */
  ghost predicate Agrees<T>(spec: Parsed<T>, err: Option<PayloadError>, value: T) {
    match spec
    case Parsed(v, _) => err == None && value == v
    case Bad(error) => err == Some(error)
  }

  /** Reads a string with a two-byte length at `off`. */
  method ReadTlvString(data: bytes, off: nat, field: Field) returns (s: bytes, next: nat, err: Option<PayloadError>)
    requires off <= |data|
    ensures match ReadLString(data[off..], 2, field)
            case Parsed(t, rest) => err == None && s == t && next <= |data| && data[next..] == rest
            case Bad(error) => err == Some(error)
  {
    hide GetBE;
    if off + 2 > |data| {
      return [], off, Some(Missing(field));
    }
    ghost var b := data[off..];
    assert data[off..off + 2] == b[..2];
    var n := GetBE(data[off..off + 2]);
    next := off + 2;
    if next + n > |data| {
      return [], next, Some(Truncated(field));
    }
    s := data[next..next + n];
    assert s == b[2..2 + n];
    next := next + n;
    assert data[next..] == b[2 + n..];
    err := None;
  }

  /** Reads a string with a one-byte length at `off`, where a byte is known to be. */
  method ReadShortString(data: bytes, off: nat, field: Field) returns (s: bytes, next: nat, err: Option<PayloadError>)
    requires off < |data|
    ensures match ReadLString(data[off..], 1, field)
            case Parsed(t, rest) => err == None && s == t && next <= |data| && data[next..] == rest
            case Bad(error) => err == Some(error)
  {
    hide GetBE;
    ghost var b := data[off..];
    var n := data[off] as int;
    GetOne(data[off]);
    assert b[..1] == [data[off]];
    next := off + 1;
    if next + n > |data| {
      return [], next, Some(Truncated(field));
    }
    s := data[next..next + n];
    assert s == b[1..1 + n];
    next := next + n;
    assert data[next..] == b[1 + n..];
    err := None;
  }

  method ReadFixed(data: bytes, off: nat, n: nat, field: Field) returns (s: bytes, next: nat, err: Option<PayloadError>)
    requires off <= |data|
    ensures match ReadBytes(data[off..], n, field)
            case Parsed(t, rest) => err == None && s == t && |s| == n && next <= |data| && data[next..] == rest
            case Bad(error) => err == Some(error)
  {
    if off + n > |data| {
      return [], off, Some(Missing(field));
    }
    s, next, err := data[off..off + n], off + n, None;
    assert s == data[off..][..n] && data[next..] == data[off..][n..];
  }

  class HandshakePayload {
    var firmwareVersion: byte
    var sn: bytes
    var token: bytes

    constructor (p: Handshake)
      ensures Contents() == p
    {
      firmwareVersion, sn, token := p.firmwareVersion, p.sn, p.token;
    }

    function Contents(): Handshake
      reads this
    {
      Handshake(firmwareVersion, sn, token)
    }

    method Encode() returns (r: Encoded)
      ensures r == EncodeHandshake(Contents())
    {
      if |sn| > 255 {
        return Refused(FieldTooLong(|sn|));
      }
      if |token| > 255 {
        return Refused(FieldTooLong(|token|));
      }
      var buf := [firmwareVersion];
      buf := buf + [ToByte(|sn|)];
      buf := buf + sn;
      buf := buf + [ToByte(|token|)];
      buf := buf + token;
      OneByte(|sn|);
      OneByte(|token|);
      assert buf == HandshakeBytes(Contents());
      r := Bytes(buf);
    }

    method Decode(data: bytes) returns (err: Option<PayloadError>)
      modifies this
      ensures Agrees(DecodeHandshake(data), err, Contents())
      ensures Contents() == HandshakeFilled(old(Contents()), data)
    {
      hide ReadLString;
      if |data| < 3 {
        return Some(TooShort);
      }
      firmwareVersion := data[0];
      var s, off, e := ReadShortString(data, 1, Sn);
      if e.Some? {
        return e;
      }
      sn := s;
      if off >= |data| {
        NothingToRead(data[off..], 1, Token);
        return Some(Missing(Token));
      }
      s, off, e := ReadShortString(data, off, Token);
      if e.Some? {
        return e;
      }
      token := s;
      err := None;
    }
  }

  lemma OneByte(n: nat)
    ensures PutBE(n, 1) == [ToByte(n)]
  {
    assert PutBE(n / 256, 0) == [];
  }

  class AckPayload {
    var msgId: uint16
    var code: byte

    constructor (p: Ack)
      ensures Contents() == p
    {
      msgId, code := p.msgId, p.code;
    }

    function Contents(): Ack
      reads this
    {
      Ack(msgId, code)
    }

    method Encode() returns (r: Encoded)
      ensures r == Bytes(AckBytes(Contents()))
    {
      r := Bytes(PutBE(msgId, 2) + [code]);
    }

    method Decode(data: bytes) returns (err: Option<PayloadError>)
      modifies this
      ensures match DecodeAck(data)
              case Parsed(p, _) => err == None && Contents() == p
              case Bad(error) => err == Some(error) && Contents() == old(Contents())
    {
      if |data| < 3 {
        return Some(TooShort);
      }
      Get2(data[..2]);
      msgId := GetBE(data[..2]);
      code := data[2];
      err := None;
    }
  }

  class UploadPayload {
    var readings: seq<Reading>

    constructor (rs: seq<Reading>)
      ensures readings == rs
    {
      readings := rs;
    }

    /** Refused at the first oversize string; otherwise the exact bytes, filling the computed capacity. */
    method Encode() returns (r: Encoded)
      ensures match FirstOversize(readings)
              case Some(n) => r == Refused(FieldTooLong(n))
              case None => r == Bytes(UploadBytes(readings))
    {
      var total, oversize := Measure(readings);
      if oversize.Some? {
        return Refused(FieldTooLong(oversize.value));
      }
      var buf := PutBE(|readings|, 4);
      ghost var all := UploadBytes(readings);
      for i := 0 to |readings|
        invariant buf + ReadingsBytes(readings[i..]) == all
      {
        hide ReadingBytes, UploadBytes, FirstOversize;
        Assoc(buf, ReadingBytes(readings[i]), ReadingsBytes(readings[i + 1..]));
        assert readings[i..][1..] == readings[i + 1..];
        buf := AppendReading(buf, readings[i]);
      }
      assert buf + [] == buf;
      UploadLength(readings);
      assert |buf| == total;
      r := Bytes(buf);
    }

    /** The whole new state, also when decoding stops at an error. */
    method Decode(data: bytes) returns (err: Option<PayloadError>)
      modifies this
      ensures var result := DecodeUpload(old(readings), data);
              err == result.error && readings == result.readings
    {
      if |data| < 4 {
        return Some(TooShort);
      }
      var count := GetBE(data[..4]);
      if count > |data| / MIN_READING_LEN + 1 {
        return Some(InvalidCount(count));
      }
      err := DecodeMany(data, 4, count);
    }

    method DecodeMany(data: bytes, start: nat, count: nat) returns (err: Option<PayloadError>)
      requires start <= |data|
      modifies this
      ensures var result := DecodeReadings(data[start..], count);
              err == result.error && readings == result.readings
    {
      hide DecodeReading, DecodeReadings;
      var off: nat := start;
      readings := [];
      ghost var all := DecodeReadings(data[start..], count);
      assert [] + all.readings == all.readings;
      for i := 0 to count
        invariant off <= |data|
        invariant var more := DecodeReadings(data[off..], count - i);
                  all.readings == readings + more.readings && all.error == more.error
      {
        DecodeReadingsStep(data[off..], count - i);
        var r, next, e := DecodeOne(data, off);
        if e.Some? {
          assert readings + [] == readings;
          return e;
        }
        ghost var later := DecodeReadings(data[next..], count - i - 1).readings;
        assert readings + ([r] + later) == readings + [r] + later;
        readings := readings + [r];
        off := next;
      }
      DecodeReadingsStep(data[off..], 0);
      assert readings + [] == readings;
      err := None;
    }
  }

  lemma DecodeReadingsStep(b: bytes, n: nat)
    ensures n == 0 ==> DecodeReadings(b, n) == Progress([], None, b)
    ensures n > 0 ==>
              match DecodeReading(b)
              case Bad(error) => DecodeReadings(b, n) == Progress([], Some(error), b)
              case Parsed(r, rest) =>
                var more := DecodeReadings(rest, n - 1);
                DecodeReadings(b, n) == Progress([r] + more.readings, more.error, more.rest)
  {}

  /** The capacity the encoding needs, or the length of the first oversize string. */
  method Measure(rs: seq<Reading>) returns (total: nat, oversize: Option<nat>)
    ensures oversize == FirstOversize(rs)
    ensures oversize == None ==> total == 4 + TotalLength(rs)
  {
    total := 4;
    for i := 0 to |rs|
      invariant FirstOversize(rs) == FirstOversize(rs[i..])
      invariant total + TotalLength(rs[i..]) == 4 + TotalLength(rs)
    {
      hide Strings;
      var strings := Strings(rs[i]);
      ghost var before := total;
      assert rs[i..][1..] == rs[i + 1..];
      for j := 0 to |strings|
        invariant OversizeIn(strings) == OversizeIn(strings[j..])
        invariant total + StringsLength(strings[j..]) == before + StringsLength(strings)
      {
        assert strings[j..][1..] == strings[j + 1..];
        if |strings[j]| > 65535 {
          return total, Some(|strings[j]|);
        }
        total := total + 2 + |strings[j]|;
      }
      total := total + 8 + 1 + 8;
    }
    oversize := None;
  }

  method DecodeOne(data: bytes, start: nat) returns (r: Reading, off: nat, err: Option<PayloadError>)
    requires start <= |data|
    ensures match DecodeReading(data[start..])
            case Parsed(t, rest) => err == None && r == t && off <= |data| && data[off..] == rest
            case Bad(error) => err == Some(error)
  {
    hide ReadBytes, ReadLString, Int64Of;
    r, off := Reading(0, [], [], [], [], [], [], 0, [], 0), start;
    var s;
    s, off, err := ReadFixed(data, off, 8, Id);
    if err.Some? { return; }
    r := r.(id := Int64Of(s));
    s, off, err := ReadTlvString(data, off, Device);
    if err.Some? { return; }
    r := r.(device := s);
    s, off, err := ReadTlvString(data, off, DeviceName);
    if err.Some? { return; }
    r := r.(deviceName := s);
    s, off, err := ReadTlvString(data, off, Point);
    if err.Some? { return; }
    r := r.(point := s);
    s, off, err := ReadTlvString(data, off, PointName);
    if err.Some? { return; }
    r := r.(pointName := s);
    s, off, err := ReadTlvString(data, off, DataType);
    if err.Some? { return; }
    r := r.(dataType := s);
    s, off, err := ReadTlvString(data, off, Value);
    if err.Some? { return; }
    r := r.(value := s);
    s, off, err := ReadFixed(data, off, 1, Quality);
    if err.Some? { return; }
    r := r.(quality := s[0]);
    s, off, err := ReadTlvString(data, off, Unit);
    if err.Some? { return; }
    r := r.(unit := s);
    s, off, err := ReadFixed(data, off, 8, Timestamp);
    if err.Some? { return; }
    r := r.(timestamp := Int64Of(s));
  }

  method AppendTlvString(buf: bytes, s: bytes) returns (out: bytes)
    ensures out == buf + LString(s, 2)
  {
    out := buf + PutBE(|s|, 2);
    out := out + s;
  }

  method AppendReading(buf: bytes, r: Reading) returns (out: bytes)
    ensures out == buf + ReadingBytes(r)
  {
    hide LString, Int64Bytes;
    out := buf + Int64Bytes(r.id);
    out := AppendTlvString(out, r.device);
    out := AppendTlvString(out, r.deviceName);
    out := AppendTlvString(out, r.point);
    out := AppendTlvString(out, r.pointName);
    out := AppendTlvString(out, r.dataType);
    out := AppendTlvString(out, r.value);
    out := out + [r.quality];
    out := AppendTlvString(out, r.unit);
    out := out + Int64Bytes(r.timestamp);
    TenParts(buf, Int64Bytes(r.id), LString(r.device, 2), LString(r.deviceName, 2), LString(r.point, 2),
             LString(r.pointName, 2), LString(r.dataType, 2), LString(r.value, 2), [r.quality],
             LString(r.unit, 2), Int64Bytes(r.timestamp));
  }

  lemma Assoc(a: bytes, b: bytes, c: bytes)
    ensures a + (b + c) == a + b + c
  {}

  /** Appending ten parts one after the other, or all at once. */
  lemma TenParts(buf: bytes, a: bytes, b: bytes, c: bytes, d: bytes, e: bytes,
                 f: bytes, g: bytes, h: bytes, i: bytes, j: bytes)
    ensures buf + (a + (b + (c + (d + (e + (f + (g + (h + (i + j)))))))))
         == buf + a + b + c + d + e + f + g + h + i + j
  {
    Assoc(buf, a, b + (c + (d + (e + (f + (g + (h + (i + j))))))));
    Assoc(buf + a, b, c + (d + (e + (f + (g + (h + (i + j)))))));
    Assoc(buf + a + b, c, d + (e + (f + (g + (h + (i + j))))));
    Assoc(buf + a + b + c, d, e + (f + (g + (h + (i + j)))));
    Assoc(buf + a + b + c + d, e, f + (g + (h + (i + j))));
    Assoc(buf + a + b + c + d + e, f, g + (h + (i + j)));
    Assoc(buf + a + b + c + d + e + f, g, h + (i + j));
    Assoc(buf + a + b + c + d + e + f + g, h, i + j);
    Assoc(buf + a + b + c + d + e + f + g + h, i, j);
  }

  /** The length of the first string over 65535 bytes, in field order. */
  function OversizeIn(strings: seq<bytes>): Option<nat> {
    if strings == [] then None
    else if |strings[0]| > 65535 then Some(|strings[0]|)
    else OversizeIn(strings[1..])
  }

  function FirstOversize(rs: seq<Reading>): Option<nat> {
    if rs == [] then None
    else if OversizeIn(Strings(rs[0])).Some? then OversizeIn(Strings(rs[0]))
    else FirstOversize(rs[1..])
  }

  function StringsLength(strings: seq<bytes>): nat {
    if strings == [] then 0 else 2 + |strings[0]| + StringsLength(strings[1..])
  }

  function TotalLength(rs: seq<Reading>): nat {
    if rs == [] then 0 else StringsLength(Strings(rs[0])) + 8 + 1 + 8 + TotalLength(rs[1..])
  }

  lemma ReadingLength(r: Reading)
    ensures |ReadingBytes(r)| == StringsLength(Strings(r)) + 17
    ensures |ReadingBytes(r)| >= MIN_READING_LEN
  {
    var s := Strings(r);
    assert s[1..][1..] == s[2..] && s[2..][1..] == s[3..] && s[3..][1..] == s[4..];
    assert s[4..][1..] == s[5..] && s[5..][1..] == s[6..] && s[6..][1..] == [];
    assert StringsLength(s[6..]) == 2 + |r.unit|;
    assert StringsLength(s[5..]) == 4 + |r.value| + |r.unit|;
    assert StringsLength(s[4..]) == 6 + |r.dataType| + |r.value| + |r.unit|;
    assert StringsLength(s[2..]) == 4 + |r.point| + |r.pointName| + StringsLength(s[4..]);
  }

  lemma {:induction false} UploadLength(rs: seq<Reading>)
    ensures |UploadBytes(rs)| == 4 + TotalLength(rs)
    ensures |UploadBytes(rs)| >= 4 + MIN_READING_LEN * |rs|
  {
    if rs != [] {
      UploadLength(rs[1..]);
      ReadingLength(rs[0]);
    }
  }

  lemma NotifyHashBad(p: Notify, data: bytes)
    requires |data| >= 10
    ensures var h := ReadLString(data[1..], 1, DeviceHash);
            h.Bad? ==> DecodeNotify(data) == Bad(h.error) && NotifyFilled(p, data) == p.(eventCode := data[0])
  {
    hide ReadLString;
  }

  /** Once the device hash is read, the rest is decided by what follows it at `off`. */
  lemma NotifySplit(p: Notify, data: bytes, s: bytes, off: nat)
    requires |data| >= 10 && off <= |data|
    requires ReadLString(data[1..], 1, DeviceHash) == Parsed(s, data[off..])
    ensures off + 6 > |data| ==>
              DecodeNotify(data) == Bad(Missing(Timestamp))
              && NotifyFilled(p, data) == p.(eventCode := data[0], deviceHash := s)
    ensures off + 6 <= |data| ==>
              var tail := TailFilled((p.message, p.rawData), data[off + 5..]);
              GetBE(data[off..][..4]) < 0x1_0000_0000
              && NotifyFilled(p, data) == Notify(data[0], s, GetBE(data[off..][..4]), data[off..][4], tail.0, tail.1)
    ensures off + 6 <= |data| ==>
              GetBE(data[off..][..4]) < 0x1_0000_0000
              && DecodeNotify(data) ==
                 match DecodeNotifyTail(data[off + 5..])
                 case Bad(e) => Bad(e)
                 case Parsed(t, r) => Parsed(Notify(data[0], s, GetBE(data[off..][..4]), data[off..][4], t.0, t.1), r)
  {
    hide ReadLString, GetBE, DecodeNotifyTail, TailFilled;
    if off + 6 <= |data| {
      Get4(data[off..][..4]);
      assert data[off..][5..] == data[off + 5..];
    }
  }

  class NotifyPayload {
    var eventCode: byte
    var deviceHash: bytes
    var timestamp: uint32
    var severity: byte
    var message: bytes
    var rawData: bytes

    constructor (p: Notify)
      ensures Contents() == p
    {
      eventCode, deviceHash, timestamp := p.eventCode, p.deviceHash, p.timestamp;
      severity, message, rawData := p.severity, p.message, p.rawData;
    }

    function Contents(): Notify
      reads this
    {
      Notify(eventCode, deviceHash, timestamp, severity, message, rawData)
    }

    method Encode() returns (r: Encoded)
      ensures r == EncodeNotify(Contents())
    {
      if |deviceHash| > 255 {
        return Refused(FieldTooLong(|deviceHash|));
      }
      if |message| > 255 {
        return Refused(FieldTooLong(|message|));
      }
      var ts, rdLen := PutBE(timestamp, 4), PutBE(|rawData|, 2);
      var buf := [eventCode];
      buf := buf + [ToByte(|deviceHash|)];
      buf := buf + deviceHash;
      buf := buf + ts;
      buf := buf + [severity];
      buf := buf + [ToByte(|message|)];
      buf := buf + message;
      buf := buf + rdLen;
      buf := buf + rawData;
      OneByte(|deviceHash|);
      OneByte(|message|);
      hide PutBE;
      TenParts([], [eventCode], [ToByte(|deviceHash|)], deviceHash, ts, [severity], [ToByte(|message|)], message, rdLen, rawData, []);
      Assoc([ToByte(|deviceHash|)], deviceHash, ts + ([severity] + (([ToByte(|message|)] + message) + (rdLen + rawData))));
      Assoc([ToByte(|message|)], message, rdLen + rawData);
      assert rawData + [] == rawData && [] + [eventCode] == [eventCode] && buf + [] == buf;
      assert buf == NotifyBytes(Contents());
      r := Bytes(buf);
    }

    method Decode(data: bytes) returns (err: Option<PayloadError>)
      modifies this
      ensures Agrees(DecodeNotify(data), err, Contents())
      ensures Contents() == NotifyFilled(old(Contents()), data)
    {
      if |data| < 10 {
        return Some(TooShort);
      }
      eventCode := data[0];
      hide *;
      var s, off, e := ReadShortString(data, 1, DeviceHash);
      NotifyHashBad(old(Contents()), data);
      if e.Some? {
        return e;
      }
      deviceHash := s;
      err := DecodeRest(data, off, old(Contents()));
    }

    /** What follows the device hash, from `off` on; `p` is the receiver as it was. */
    method DecodeRest(data: bytes, off: nat, ghost p: Notify) returns (err: Option<PayloadError>)
      requires |data| >= 10 && off <= |data| && ReadLString(data[1..], 1, DeviceHash) == Parsed(deviceHash, data[off..])
      requires Contents() == p.(eventCode := data[0], deviceHash := deviceHash)
      modifies this
      ensures Agrees(DecodeNotify(data), err, Contents())
      ensures Contents() == NotifyFilled(p, data)
    {
      hide DecodeNotify, NotifyFilled, TailFilled, DecodeNotifyTail, ReadLString, GetBE;
      NotifySplit(p, data, deviceHash, off);
      if off + 6 > |data| {
        return Some(Missing(Timestamp));
      }
      DecodeBlock(data, off);
      err := DecodeTail(data, off + 5);
    }

    method DecodeBlock(data: bytes, off: nat)
      requires off + 6 <= |data|
      modifies this`timestamp, this`severity
      ensures timestamp == GetBE(data[off..][..4]) && severity == data[off..][4]
    {
      Get4(data[off..off + 4]);
      assert data[off..off + 4] == data[off..][..4];
      timestamp := GetBE(data[off..off + 4]);
      severity := data[off + 4];
    }

    /** The message and the raw data, from `off` on. */
    method DecodeTail(data: bytes, off: nat) returns (err: Option<PayloadError>)
      requires off < |data|
      modifies this`message, this`rawData
      ensures Agrees(DecodeNotifyTail(data[off..]), err, (message, rawData))
      ensures (message, rawData) == TailFilled(old((message, rawData)), data[off..])
    {
      hide ReadLString;
      var s, next, e := ReadShortString(data, off, Message);
      if e.Some? {
        return e;
      }
      message := s;
      s, next, e := ReadTlvString(data, next, RawData);
      if e.Some? {
        return e;
      }
      rawData := s;
      err := None;
    }
  }
}
