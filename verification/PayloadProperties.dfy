/**
 Round trips, canonical decoding and prefix-freeness of the four payload codecs,
 on every input: where a length field truncates, the lemma says what comes back.
 */
module PayloadProperties {
  import opened Bytes
  import opened Payload

  // ---- Length-prefixed strings ----

  /** As much of a length as a field of `w` bytes can count. */
  function Kept(length: nat, w: nat): (n: nat)
    ensures n <= length && n < Pow256(w)
    ensures length < Pow256(w) ==> n == length
  {
    ModAtMost(length, Pow256(w));
    length % Pow256(w)
  }

  /** Reading back a string keeps as many bytes as its length field could count. */
  lemma LStringReadsBack(s: bytes, w: nat, rest: bytes, field: Field)
    ensures var n := Kept(|s|, w);
            ReadLString(LString(s, w) + rest, w, field) == Parsed(s[..n], s[n..] + rest)
  {
    var n := Kept(|s|, w);
    GetPut(|s|, w);
    LengthThenContent(PutBE(|s|, w), s, rest, n);
  }

  lemma LengthThenContent(len: bytes, s: bytes, rest: bytes, n: nat)
    requires n <= |s|
    ensures var b := len + s + rest;
            b[..|len|] == len && b[|len|..|len| + n] == s[..n] && b[|len| + n..] == s[n..] + rest
  {}

  lemma ModAtMost(n: nat, m: nat)
    requires m > 0
    ensures n % m <= n
    ensures n < m ==> n % m == n
  {
    if n < m {
      DivModUnique(n, m, 0, n);
    }
  }

  lemma LStringRoundTrip(s: bytes, w: nat, rest: bytes, field: Field)
    requires |s| < Pow256(w)
    ensures ReadLString(LString(s, w) + rest, w, field) == Parsed(s, rest)
  {
    LStringReadsBack(s, w, rest, field);
    assert s[..|s|] == s && s[|s|..] + rest == rest;
  }

  lemma LStringCanonical(b: bytes, w: nat, field: Field)
    requires ReadLString(b, w, field).Parsed?
    ensures var r := ReadLString(b, w, field);
            |r.value| < Pow256(w) && LString(r.value, w) + r.rest == b
  {
    hide PutBE, GetBE;
    var n := GetBE(b[..w]);
    PutGet(b[..w]);
    ThreeSlices(b, w, w + n);
  }

  lemma ThreeSlices(b: bytes, i: nat, j: nat)
    requires i <= j <= |b|
    ensures b[..i] + b[i..j] + b[j..] == b
  {}

  lemma Int64RoundTrip(i: int64)
    ensures Int64Of(Int64Bytes(i)) == i
  {
    Powers();
    GetPutExact(ToUint64(i), 8);
  }

  lemma Int64Canonical(s: bytes)
    requires |s| == 8
    ensures Int64Bytes(Int64Of(s)) == s
  {
    Get8(s);
    PutGet(s);
  }

  lemma FixedReadsBack(s: bytes, rest: bytes, field: Field)
    ensures ReadBytes(s + rest, |s|, field) == Parsed(s, rest)
  {
    assert (s + rest)[..|s|] == s && (s + rest)[|s|..] == rest;
  }

  // ---- Handshake ----

  lemma HandshakeRoundTrip(p: Handshake, rest: bytes)
    requires EncodeHandshake(p).Bytes?
    ensures DecodeHandshake(EncodeHandshake(p).data + rest) == Parsed(p, rest)
  {
    var sn, token := LString(p.sn, 1), LString(p.token, 1);
    var b := HandshakeBytes(p) + rest;
    Powers();
    assert b[1..] == sn + (token + rest);
    LStringRoundTrip(p.sn, 1, token + rest, Sn);
    LStringRoundTrip(p.token, 1, rest, Token);
  }

  lemma HandshakeCanonical(data: bytes)
    requires DecodeHandshake(data).Parsed?
    ensures var r := DecodeHandshake(data);
            EncodeHandshake(r.value).Bytes? && EncodeHandshake(r.value).data + r.rest == data
  {
    Powers();
    hide PutBE, GetBE;
    LStringCanonical(data[1..], 1, Sn);
    var first := ReadLString(data[1..], 1, Sn);
    LStringCanonical(first.rest, 1, Token);
    var second := ReadLString(first.rest, 1, Token);
    var sn, token := LString(first.value, 1), LString(second.value, 1);
    assert data == [data[0]] + (sn + (token + second.rest));
    assert [data[0]] + (sn + token) + second.rest == [data[0]] + (sn + (token + second.rest));
  }

  /** The decoder accepts exactly the byte strings that begin with an encoding. */
  lemma HandshakeAcceptedIff(data: bytes)
    ensures DecodeHandshake(data).Parsed? <==>
            exists p :: EncodeHandshake(p).Bytes? && EncodeHandshake(p).data <= data
  {
    if DecodeHandshake(data).Parsed? {
      HandshakeCanonical(data);
      assert EncodeHandshake(DecodeHandshake(data).value).data <= data;
    }
    forall p | EncodeHandshake(p).Bytes? && EncodeHandshake(p).data <= data
      ensures DecodeHandshake(data).Parsed?
    {
      var e := EncodeHandshake(p).data;
      HandshakeRoundTrip(p, data[|e|..]);
      assert e + data[|e|..] == data;
    }
  }

  lemma HandshakeExtends(data: bytes, tail: bytes)
    requires DecodeHandshake(data).Parsed?
    ensures DecodeHandshake(data + tail) == DecodeHandshake(data).(rest := DecodeHandshake(data).rest + tail)
  {
    hide EncodeHandshake, DecodeHandshake;
    var r := DecodeHandshake(data);
    HandshakeCanonical(data);
    HandshakeRoundTrip(r.value, r.rest + tail);
    Assoc(EncodeHandshake(r.value).data, r.rest, tail);
  }

  lemma HandshakePrefixRejected(p: Handshake, k: nat)
    requires EncodeHandshake(p).Bytes? && k < |EncodeHandshake(p).data|
    ensures DecodeHandshake(EncodeHandshake(p).data[..k]).Bad?
  {
    hide EncodeHandshake, DecodeHandshake;
    var e := EncodeHandshake(p).data;
    assert e[..k] + e[k..] == e && e + [] == e;
    HandshakeRoundTrip(p, []);
    if DecodeHandshake(e[..k]).Parsed? {
      HandshakeExtends(e[..k], e[k..]);
    }
  }

  // ---- Ack ----

  lemma AckRoundTrip(p: Ack, rest: bytes)
    ensures DecodeAck(AckBytes(p) + rest) == Parsed(p, rest)
  {
    var b := AckBytes(p) + rest;
    Powers();
    assert b[..2] == PutBE(p.msgId, 2) && b[3..] == rest;
    GetPutExact(p.msgId, 2);
  }

  lemma AckCanonical(data: bytes)
    requires DecodeAck(data).Parsed?
    ensures AckBytes(DecodeAck(data).value) + DecodeAck(data).rest == data
  {
    PutGet(data[..2]);
  }

  // ---- Upload ----

  lemma ReadingThen(r: Reading, rest: bytes)
    ensures ReadingBytes(r) + rest ==
            Int64Bytes(r.id) + (LString(r.device, 2) + (LString(r.deviceName, 2) + (LString(r.point, 2)
            + (LString(r.pointName, 2) + (LString(r.dataType, 2) + (LString(r.value, 2) + ([r.quality]
            + (LString(r.unit, 2) + (Int64Bytes(r.timestamp) + rest)))))))))
  {
    hide LString, Int64Bytes;
    var s1, s2, s3, s4 := LString(r.device, 2), LString(r.deviceName, 2), LString(r.point, 2), LString(r.pointName, 2);
    var s5, s6, s7 := LString(r.dataType, 2), LString(r.value, 2), LString(r.unit, 2);
    var id, time := Int64Bytes(r.id), Int64Bytes(r.timestamp);
    TenParts([], id, s1, s2, s3, s4, s5, s6, [r.quality], s7, time);
    TenParts([], id, s1, s2, s3, s4, s5, s6, [r.quality], s7, time + rest);
    Empty(ReadingBytes(r));
    Empty(id + (s1 + (s2 + (s3 + (s4 + (s5 + (s6 + ([r.quality] + (s7 + (time + rest))))))))));
    Assoc([] + id + s1 + s2 + s3 + s4 + s5 + s6 + [r.quality] + s7, time, rest);
  }

  lemma Empty(b: bytes)
    ensures [] + b == b
  {}

  /** The reader, field by field, on byte strings that start with the right fields. */
  lemma ReadingFields(r: Reading, b0: bytes, b1: bytes, b2: bytes, b3: bytes, b4: bytes, b5: bytes,
                      b6: bytes, b7: bytes, b8: bytes, b9: bytes, b10: bytes)
    requires ReadBytes(b0, 8, Id) == Parsed(Int64Bytes(r.id), b1)
    requires ReadLString(b1, 2, Device) == Parsed(r.device, b2)
    requires ReadLString(b2, 2, DeviceName) == Parsed(r.deviceName, b3)
    requires ReadLString(b3, 2, Point) == Parsed(r.point, b4)
    requires ReadLString(b4, 2, PointName) == Parsed(r.pointName, b5)
    requires ReadLString(b5, 2, DataType) == Parsed(r.dataType, b6)
    requires ReadLString(b6, 2, Value) == Parsed(r.value, b7)
    requires ReadBytes(b7, 1, Quality) == Parsed([r.quality], b8)
    requires ReadLString(b8, 2, Unit) == Parsed(r.unit, b9)
    requires ReadBytes(b9, 8, Timestamp) == Parsed(Int64Bytes(r.timestamp), b10)
    ensures DecodeReading(b0) == Parsed(r, b10)
  {
    hide ReadBytes, ReadLString, Int64Bytes, Int64Of;
    Int64RoundTrip(r.id);
    Int64RoundTrip(r.timestamp);
  }

  lemma FieldsFit(r: Reading)
    requires StringsFit(r)
    ensures |r.device| < Pow256(2) && |r.deviceName| < Pow256(2) && |r.point| < Pow256(2) && |r.pointName| < Pow256(2)
    ensures |r.dataType| < Pow256(2) && |r.value| < Pow256(2) && |r.unit| < Pow256(2)
  {
    var s := Strings(r);
    assert s[0] in s && s[1] in s && s[2] in s && s[3] in s && s[4] in s && s[5] in s && s[6] in s;
    Powers();
  }

  /** A reading whose strings fit comes back, with whatever follows it. */
  lemma ReadingRoundTrip(r: Reading, rest: bytes)
    requires StringsFit(r)
    ensures DecodeReading(ReadingBytes(r) + rest) == Parsed(r, rest)
  {
    FieldsFit(r);
    ReadingThen(r, rest);
    hide *;
    var b10 := Int64Bytes(r.timestamp) + rest;
    var b9 := LString(r.unit, 2) + b10;
    var b8 := [r.quality] + b9;
    var b7 := LString(r.value, 2) + b8;
    var b6 := LString(r.dataType, 2) + b7;
    var b5 := LString(r.pointName, 2) + b6;
    var b4 := LString(r.point, 2) + b5;
    var b3 := LString(r.deviceName, 2) + b4;
    var b2 := LString(r.device, 2) + b3;
    FixedReadsBack(Int64Bytes(r.id), b2, Id);
    LStringRoundTrip(r.device, 2, b3, Device);
    LStringRoundTrip(r.deviceName, 2, b4, DeviceName);
    LStringRoundTrip(r.point, 2, b5, Point);
    LStringRoundTrip(r.pointName, 2, b6, PointName);
    LStringRoundTrip(r.dataType, 2, b7, DataType);
    LStringRoundTrip(r.value, 2, b8, Value);
    FixedReadsBack([r.quality], b9, Quality);
    LStringRoundTrip(r.unit, 2, b10, Unit);
    FixedReadsBack(Int64Bytes(r.timestamp), rest, Timestamp);
    ReadingFields(r, Int64Bytes(r.id) + b2, b2, b3, b4, b5, b6, b7, b8, b9, b10, rest);
  }

  lemma ReadingCanonical(b: bytes)
    requires DecodeReading(b).Parsed?
    ensures var r := DecodeReading(b); StringsFit(r.value) && ReadingBytes(r.value) + r.rest == b
  {
    Powers();
    hide ReadBytes, ReadLString, LString, Int64Bytes, Int64Of;
    var id := ReadBytes(b, 8, Id);
    var s1 := ReadLString(id.rest, 2, Device);
    var s2 := ReadLString(s1.rest, 2, DeviceName);
    var s3 := ReadLString(s2.rest, 2, Point);
    var s4 := ReadLString(s3.rest, 2, PointName);
    var s5 := ReadLString(s4.rest, 2, DataType);
    var s6 := ReadLString(s5.rest, 2, Value);
    var q := ReadBytes(s6.rest, 1, Quality);
    var s7 := ReadLString(q.rest, 2, Unit);
    var time := ReadBytes(s7.rest, 8, Timestamp);
    FixedCanonical(b, 8, Id);
    LStringCanonical(id.rest, 2, Device);
    LStringCanonical(s1.rest, 2, DeviceName);
    LStringCanonical(s2.rest, 2, Point);
    LStringCanonical(s3.rest, 2, PointName);
    LStringCanonical(s4.rest, 2, DataType);
    LStringCanonical(s5.rest, 2, Value);
    FixedCanonical(s6.rest, 1, Quality);
    LStringCanonical(q.rest, 2, Unit);
    FixedCanonical(s7.rest, 8, Timestamp);
    Int64Canonical(id.value);
    Int64Canonical(time.value);
    assert [q.value[0]] == q.value;
    ReadingThen(DecodeReading(b).value, time.rest);
  }

  lemma FixedCanonical(b: bytes, n: nat, field: Field)
    requires ReadBytes(b, n, field).Parsed?
    ensures |ReadBytes(b, n, field).value| == n
    ensures ReadBytes(b, n, field).value + ReadBytes(b, n, field).rest == b
  {}

  predicate AllFit(rs: seq<Reading>) {
    forall r | r in rs :: StringsFit(r)
  }

  lemma {:induction false} ReadingsRoundTrip(rs: seq<Reading>, n: nat, rest: bytes)
    requires AllFit(rs) && n <= |rs|
    ensures DecodeReadings(ReadingsBytes(rs) + rest, n) == Progress(rs[..n], None, ReadingsBytes(rs[n..]) + rest)
    decreases rs
  {
    hide ReadingBytes, DecodeReading, StringsFit;
    if n > 0 {
      Assoc(ReadingBytes(rs[0]), ReadingsBytes(rs[1..]), rest);
      ReadingRoundTrip(rs[0], ReadingsBytes(rs[1..]) + rest);
      ReadingsRoundTrip(rs[1..], n - 1, rest);
      assert rs[1..][n - 1..] == rs[n..];
      assert rs[..n] == [rs[0]] + rs[1..][..n - 1];
    } else {
      assert rs[0..] == rs && rs[..0] == [];
    }
  }

  lemma {:induction false} ReadingsCanonical(b: bytes, n: nat)
    requires DecodeReadings(b, n).error == None
    ensures var r := DecodeReadings(b, n);
            |r.readings| == n && AllFit(r.readings) && ReadingsBytes(r.readings) + r.rest == b
    decreases n
  {
    hide ReadingBytes, DecodeReading, StringsFit;
    if n == 0 {
      assert [] + b == b;
    } else {
      ReadingCanonical(b);
      var first := DecodeReading(b);
      ReadingsCanonical(first.rest, n - 1);
      var more := DecodeReadings(first.rest, n - 1);
      assert ([first.value] + more.readings)[1..] == more.readings;
      Assoc(ReadingBytes(first.value), ReadingsBytes(more.readings), more.rest);
    }
  }

  lemma {:induction false} FitsIff(rs: seq<Reading>)
    ensures FirstOversize(rs) == None <==> AllFit(rs)
  {
    if rs != [] {
      FitsIff(rs[1..]);
      OversizeIff(Strings(rs[0]));
      if AllFit(rs) {
        assert rs[0] in rs;
      }
      if StringsFit(rs[0]) && AllFit(rs[1..]) {
        assert forall r | r in rs :: r == rs[0] || r in rs[1..];
      }
    }
  }

  /** The encoder refuses the first string over 65535 bytes, reading by reading, in the order of the fields. */
  lemma {:induction false} FirstIsRefused(rs: seq<Reading>, i: nat, k: nat)
    requires i < |rs| && k < 7
    requires forall j | 0 <= j < i :: StringsFit(rs[j])
    requires var r := rs[i];
             var strings := [r.device, r.deviceName, r.point, r.pointName, r.dataType, r.value, r.unit];
             |strings[k]| > 65535 && forall j | 0 <= j < k :: |strings[j]| <= 65535
    ensures var r := rs[i];
            FirstOversize(rs) == Some(|[r.device, r.deviceName, r.point, r.pointName, r.dataType, r.value, r.unit][k]|)
    decreases i
  {
    if i == 0 {
      OversizeAt(Strings(rs[0]), k);
    } else {
      OversizeIff(Strings(rs[0]));
      FirstIsRefused(rs[1..], i - 1, k);
    }
  }

  lemma {:induction false} OversizeAt(strings: seq<bytes>, k: nat)
    requires k < |strings| && |strings[k]| > 65535 && forall j | 0 <= j < k :: |strings[j]| <= 65535
    ensures OversizeIn(strings) == Some(|strings[k]|)
    decreases k
  {
    if k > 0 {
      OversizeAt(strings[1..], k - 1);
    }
  }

  /** What the strings of a reading must fit into. */
  lemma StringsFitIff(r: Reading)
    ensures StringsFit(r) <==> |r.device| <= 65535 && |r.deviceName| <= 65535 && |r.point| <= 65535 && |r.pointName| <= 65535
                               && |r.dataType| <= 65535 && |r.value| <= 65535 && |r.unit| <= 65535
  {
    var s := Strings(r);
    assert s[0] in s && s[1] in s && s[2] in s && s[3] in s && s[4] in s && s[5] in s && s[6] in s;
  }

  /** The count is refused before anything is read exactly when so many readings of 31 bytes cannot follow. */
  lemma CountRefusedIff(before: seq<Reading>, data: bytes)
    ensures |data| < 4 ==> DecodeUpload(before, data) == Progress(before, Some(TooShort), data)
    ensures |data| >= 4 ==>
              var p := DecodeUpload(before, data);
              GetBE(data[..4]) > |data| / 31 + 1 <==> p.error.Some? && p.error.value.InvalidCount?
    ensures |data| >= 4 && GetBE(data[..4]) > |data| / 31 + 1 ==>
              DecodeUpload(before, data) == Progress(before, Some(InvalidCount(GetBE(data[..4]))), data)
  {
    if |data| >= 4 && GetBE(data[..4]) <= |data| / 31 + 1 {
      NeverCount(data[4..], GetBE(data[..4]));
    }
  }

  lemma {:induction false} NeverCount(b: bytes, n: nat)
    ensures var e := DecodeReadings(b, n).error; e.Some? ==> !e.value.InvalidCount?
    decreases n
  {
    hide *;
    ReadingsNext(b, n);
    if n > 0 {
      FirstError(b);
      ErrorKind(b, 0);
      if DecodeReading(b).Parsed? {
        NeverCount(DecodeReading(b).rest, n - 1);
      }
    }
  }

  lemma ReadingsNext(b: bytes, n: nat)
    ensures DecodeReadings(b, n).error == if n == 0 then None
                                          else match DecodeReading(b)
                                            case Bad(e) => Some(e)
                                            case Parsed(_, rest) => DecodeReadings(rest, n - 1).error
  {
    hide DecodeReading;
  }

  // ---- Which field a broken reading is broken in ----

  const READING_FIELDS: seq<Field> := [Id, Device, DeviceName, Point, PointName, DataType, Value, Quality, Unit, Timestamp]

  /** The fields that are not strings have a fixed number of bytes. */
  function FixedSize(j: nat): Option<nat> {
    if j == 0 || j == 9 then Some(8) else if j == 7 then Some(1) else None
  }

  function ReadField(b: bytes, j: nat): Parsed<bytes>
    requires j < 10
  {
    match FixedSize(j)
    case Some(n) => ReadBytes(b, n, READING_FIELDS[j])
    case None => ReadLString(b, 2, READING_FIELDS[j])
  }

  /** The first error of reading the fields from the `j`-th on. */
  function ErrorFrom(b: bytes, j: nat): Option<PayloadError>
    requires j <= 10
    decreases 10 - j
  {
    if j == 10 then None
    else match ReadField(b, j)
      case Bad(e) => Some(e)
      case Parsed(_, rest) => ErrorFrom(rest, j + 1)
  }

  lemma {:induction false} ErrorKind(b: bytes, j: nat)
    requires j <= 10
    ensures ErrorFrom(b, j).Some? ==> ErrorFrom(b, j).value.Missing? || ErrorFrom(b, j).value.Truncated?
    decreases 10 - j
  {
    if j < 10 && ReadField(b, j).Parsed? {
      ErrorKind(ReadField(b, j).rest, j + 1);
    }
  }

  lemma ErrorNext(b: bytes, j: nat)
    requires j < 10
    ensures ErrorFrom(b, j) == match ReadField(b, j) case Bad(e) => Some(e) case Parsed(_, rest) => ErrorFrom(rest, j + 1)
    ensures ReadField(b, j) == if j == 0 || j == 9 then ReadBytes(b, 8, READING_FIELDS[j])
                               else if j == 7 then ReadBytes(b, 1, READING_FIELDS[j])
                               else ReadLString(b, 2, READING_FIELDS[j])
  {
    hide ReadBytes, ReadLString;
  }

  /** Reading stops at the first field that cannot be read. */
  lemma FirstError(b: bytes)
    ensures match DecodeReading(b)
            case Bad(e) => ErrorFrom(b, 0) == Some(e)
            case Parsed(_, _) => ErrorFrom(b, 0) == None
  {
    hide ReadBytes, ReadLString, Int64Of, ReadField, ErrorFrom;
    ErrorNext(b, 0);
    var f0 := ReadBytes(b, 8, Id);
    if f0.Bad? { return; }
    ErrorNext(f0.rest, 1);
    var f1 := ReadLString(f0.rest, 2, Device);
    if f1.Bad? { return; }
    ErrorNext(f1.rest, 2);
    var f2 := ReadLString(f1.rest, 2, DeviceName);
    if f2.Bad? { return; }
    ErrorNext(f2.rest, 3);
    var f3 := ReadLString(f2.rest, 2, Point);
    if f3.Bad? { return; }
    ErrorNext(f3.rest, 4);
    var f4 := ReadLString(f3.rest, 2, PointName);
    if f4.Bad? { return; }
    ErrorNext(f4.rest, 5);
    var f5 := ReadLString(f4.rest, 2, DataType);
    if f5.Bad? { return; }
    ErrorNext(f5.rest, 6);
    var f6 := ReadLString(f5.rest, 2, Value);
    if f6.Bad? { return; }
    ErrorNext(f6.rest, 7);
    var f7 := ReadBytes(f6.rest, 1, Quality);
    if f7.Bad? { return; }
    ErrorNext(f7.rest, 8);
    var f8 := ReadLString(f7.rest, 2, Unit);
    if f8.Bad? { return; }
    ErrorNext(f8.rest, 9);
    var f9 := ReadBytes(f8.rest, 8, Timestamp);
    if f9.Bad? { return; }
    assert ErrorFrom(f9.rest, 10) == None by { ErrorsEnd(f9.rest); }
  }

  lemma ErrorsEnd(b: bytes)
    ensures ErrorFrom(b, 10) == None
  {}

  /** The bytes of the `j`-th field. */
  function Piece(r: Reading, j: nat): bytes
    requires j < 10
  {
    match j
    case 0 => Int64Bytes(r.id)
    case 7 => [r.quality]
    case 9 => Int64Bytes(r.timestamp)
    case _ => LString([r.device, r.deviceName, r.point, r.pointName, r.dataType, r.value, [], r.unit][j - 1], 2)
  }

  /** The fields from the `j`-th up to the `k`-th, then `tail`. */
  function Pieces(r: Reading, j: nat, k: nat, tail: bytes): bytes
    requires j <= k <= 10
    decreases k - j
  {
    if j == k then tail else Piece(r, j) + Pieces(r, j + 1, k, tail)
  }

  lemma AllPieces(r: Reading)
    ensures Pieces(r, 0, 10, []) == ReadingBytes(r)
  {
    hide LString, Int64Bytes;
    assert Int64Bytes(r.timestamp) + [] == Int64Bytes(r.timestamp);
    assert Pieces(r, 7, 10, []) == [r.quality] + (LString(r.unit, 2) + Int64Bytes(r.timestamp)) by {
      PiecesNext(r, 7, 10, []);
      PiecesNext(r, 8, 10, []);
      PiecesNext(r, 9, 10, []);
    }
    PiecesNext(r, 0, 10, []);
    PiecesNext(r, 1, 10, []);
    PiecesNext(r, 2, 10, []);
    PiecesNext(r, 3, 10, []);
    PiecesNext(r, 4, 10, []);
    PiecesNext(r, 5, 10, []);
    PiecesNext(r, 6, 10, []);
    hide Pieces, Piece;
  }

  lemma PiecesNext(r: Reading, j: nat, k: nat, tail: bytes)
    requires j < k <= 10
    ensures Pieces(r, j, k, tail) == Piece(r, j) + Pieces(r, j + 1, k, tail)
    ensures Pieces(r, k, k, tail) == tail
  {
    hide Piece;
  }

  lemma PieceReadsBack(r: Reading, j: nat, rest: bytes)
    requires j < 10 && StringsFit(r)
    ensures ReadField(Piece(r, j) + rest, j) .Parsed? && ReadField(Piece(r, j) + rest, j).rest == rest
  {
    FieldsFit(r);
    hide LString, Int64Bytes, ReadBytes, ReadLString;
    if FixedSize(j).Some? {
      FixedReadsBack(Piece(r, j), rest, READING_FIELDS[j]);
    } else {
      LStringRoundTrip([r.device, r.deviceName, r.point, r.pointName, r.dataType, r.value, [], r.unit][j - 1], 2, rest,
                       READING_FIELDS[j]);
    }
  }

  lemma {:induction false} SkipPieces(r: Reading, j: nat, k: nat, tail: bytes)
    requires j <= k <= 10 && StringsFit(r)
    ensures ErrorFrom(Pieces(r, j, k, tail), j) == ErrorFrom(tail, k)
    decreases k - j
  {
    hide Piece, ReadField, StringsFit;
    if j < k {
      PieceReadsBack(r, j, Pieces(r, j + 1, k, tail));
      SkipPieces(r, j + 1, k, tail);
    }
  }

  /**
   A reading cut off within its `k`-th field is rejected with that field's name: as missing when its length, or a
   field of fixed size, is incomplete, and as truncated when only its content is.
   */
  lemma CutFieldIsNamed(r: Reading, k: nat, cut: bytes)
    requires k < 10 && StringsFit(r) && cut < Piece(r, k)
    ensures var field := [Id, Device, DeviceName, Point, PointName, DataType, Value, Quality, Unit, Timestamp][k];
            DecodeReading(Pieces(r, 0, k, cut)) ==
            Bad(if k == 0 || k == 7 || k == 9 || |cut| < 2 then Missing(field) else Truncated(field))
  {
    SkipPieces(r, 0, k, cut);
    FirstError(Pieces(r, 0, k, cut));
    ErrorNext(cut, k);
    CutPiece(r, k, cut);
    hide DecodeReading, Pieces, Piece, ErrorFrom, ReadField, StringsFit, ReadBytes, ReadLString;
  }

  /** An upload cut off within a reading leaves the readings before it, and no others. */
  lemma CutUploadKeeps(before: seq<Reading>, rs: seq<Reading>, n: nat, r: Reading, k: nat, cut: bytes)
    requires AllFit(rs) && StringsFit(r) && k < 10 && cut < Piece(r, k)
    requires |rs| < n < 0x1_0000_0000
    ensures var data := PutBE(n, 4) + (ReadingsBytes(rs) + Pieces(r, 0, k, cut));
            var field := [Id, Device, DeviceName, Point, PointName, DataType, Value, Quality, Unit, Timestamp][k];
            n <= |data| / 31 + 1 ==>
              DecodeUpload(before, data) ==
              Progress(rs, Some(if k == 0 || k == 7 || k == 9 || |cut| < 2 then Missing(field) else Truncated(field)),
                       Pieces(r, 0, k, cut))
  {
    var broken := Pieces(r, 0, k, cut);
    var data := PutBE(n, 4) + (ReadingsBytes(rs) + broken);
    Powers();
    GetPutExact(n, 4);
    assert data[..4] == PutBE(n, 4) && data[4..] == ReadingsBytes(rs) + broken;
    CutFieldIsNamed(r, k, cut);
    hide *;
    UploadGuard(before, data);
    CutReadings(rs, n, broken);
  }

  lemma UploadGuard(before: seq<Reading>, data: bytes)
    ensures |data| >= 4 && GetBE(data[..4]) <= |data| / 31 + 1 ==>
              DecodeUpload(before, data) == DecodeReadings(data[4..], GetBE(data[..4]))
  {
    hide DecodeReadings, GetBE;
  }

  lemma {:induction false} CutReadings(rs: seq<Reading>, n: nat, broken: bytes)
    requires AllFit(rs) && |rs| < n && DecodeReading(broken).Bad?
    ensures DecodeReadings(ReadingsBytes(rs) + broken, n) == Progress(rs, Some(DecodeReading(broken).error), broken)
    decreases rs
  {
    hide ReadingBytes, DecodeReading, StringsFit;
    if rs == [] {
      assert ReadingsBytes(rs) + broken == broken;
    } else {
      Assoc(ReadingBytes(rs[0]), ReadingsBytes(rs[1..]), broken);
      ReadingRoundTrip(rs[0], ReadingsBytes(rs[1..]) + broken);
      CutReadings(rs[1..], n - 1, broken);
      assert rs == [rs[0]] + rs[1..];
    }
  }

  lemma CutPiece(r: Reading, k: nat, cut: bytes)
    requires k < 10 && StringsFit(r) && cut < Piece(r, k)
    ensures ReadField(cut, k) == Bad(if k == 0 || k == 7 || k == 9 || |cut| < 2 then Missing(READING_FIELDS[k])
                                     else Truncated(READING_FIELDS[k]))
  {
    FieldsFit(r);
    if FixedSize(k) == None && |cut| >= 2 {
      var s := [r.device, r.deviceName, r.point, r.pointName, r.dataType, r.value, [], r.unit][k - 1];
      assert |s| < Pow256(2);
      GetPutExact(|s|, 2);
      hide PutBE, GetBE;
      assert cut[..2] == PutBE(|s|, 2) by {
        assert LString(s, 2)[..2] == PutBE(|s|, 2);
        assert cut[..2] == LString(s, 2)[..2];
      }
    }
  }

  lemma {:induction false} OversizeIff(strings: seq<bytes>)
    ensures OversizeIn(strings) == None <==> forall s | s in strings :: |s| <= 65535
  {
    if strings != [] {
      OversizeIff(strings[1..]);
      assert strings == [strings[0]] + strings[1..];
    }
  }

  /**
   Decoding an encoded upload never trips the count guard and returns the readings in order:
   all of them, or for 2^32 and more as many as the 32-bit count could say.
   */
  lemma UploadRoundTrip(before: seq<Reading>, rs: seq<Reading>, rest: bytes)
    requires AllFit(rs)
    ensures var n := Kept(|rs|, 4);
            DecodeUpload(before, UploadBytes(rs) + rest) == Progress(rs[..n], None, ReadingsBytes(rs[n..]) + rest)
  {
    hide PutBE, GetBE, ReadingsBytes, DecodeReadings;
    var n := Kept(|rs|, 4);
    var data := UploadBytes(rs) + rest;
    GetPut(|rs|, 4);
    UploadLength(rs);
    CountGuard(|data|, |rs|, n);
    assert data[..4] == PutBE(|rs|, 4);
    assert data[4..] == ReadingsBytes(rs) + rest;
    ReadingsRoundTrip(rs, n, rest);
  }

  lemma CountGuard(length: nat, readings: nat, n: nat)
    requires length >= 4 + MIN_READING_LEN * readings && n <= readings
    ensures n <= length / MIN_READING_LEN + 1
  {}

  /** Decoding is the inverse of encoding exactly below 2^32 readings. */
  lemma UploadRoundTripIff(before: seq<Reading>, rs: seq<Reading>)
    requires AllFit(rs)
    ensures DecodeUpload(before, UploadBytes(rs)) == Progress(rs, None, []) <==> |rs| < 0x1_0000_0000
  {
    hide UploadBytes, DecodeUpload, AllFit;
    Powers();
    UploadRoundTrip(before, rs, []);
    assert UploadBytes(rs) + [] == UploadBytes(rs);
    if |rs| < 0x1_0000_0000 {
      assert rs[..|rs|] == rs && ReadingsBytes(rs[|rs|..]) + [] == [];
    }
  }

  /** What was decoded encodes to exactly the bytes consumed. */
  lemma UploadCanonical(before: seq<Reading>, data: bytes)
    requires DecodeUpload(before, data).error == None
    ensures var r := DecodeUpload(before, data);
            AllFit(r.readings) && |r.readings| < 0x1_0000_0000 && UploadBytes(r.readings) + r.rest == data
  {
    hide PutBE, GetBE, ReadingsBytes, DecodeReadings, AllFit;
    var count := GetBE(data[..4]);
    Get4(data[..4]);
    PutGet(data[..4]);
    ReadingsCanonical(data[4..], count);
    var r := DecodeReadings(data[4..], count);
    assert data == data[..4] + data[4..];
    Assoc(data[..4], ReadingsBytes(r.readings), r.rest);
  }

  /** The decoder accepts exactly the byte strings that begin with an encoding. */
  lemma UploadAcceptedIff(before: seq<Reading>, data: bytes)
    ensures DecodeUpload(before, data).error == None <==>
            exists rs :: AllFit(rs) && |rs| < 0x1_0000_0000 && UploadBytes(rs) <= data
  {
    hide UploadBytes, DecodeUpload, AllFit;
    if DecodeUpload(before, data).error == None {
      UploadCanonical(before, data);
      assert UploadBytes(DecodeUpload(before, data).readings) <= data;
    }
    forall rs | AllFit(rs) && |rs| < 0x1_0000_0000 && UploadBytes(rs) <= data
      ensures DecodeUpload(before, data).error == None
    {
      var rest := data[|UploadBytes(rs)|..];
      UploadRoundTrip(before, rs, rest);
      assert UploadBytes(rs) + rest == data;
    }
  }

  lemma UploadExtends(before: seq<Reading>, data: bytes, tail: bytes)
    requires DecodeUpload(before, data).error == None
    ensures var r := DecodeUpload(before, data);
            DecodeUpload(before, data + tail) == Progress(r.readings, None, r.rest + tail)
  {
    hide UploadBytes, DecodeUpload, AllFit;
    var r := DecodeUpload(before, data);
    Powers();
    UploadCanonical(before, data);
    UploadRoundTrip(before, r.readings, r.rest + tail);
    var n := |r.readings|;
    assert r.readings[..n] == r.readings && ReadingsBytes(r.readings[n..]) + (r.rest + tail) == r.rest + tail;
    Assoc(UploadBytes(r.readings), r.rest, tail);
  }

  lemma UploadPrefixRejected(before: seq<Reading>, rs: seq<Reading>, k: nat)
    requires AllFit(rs) && |rs| < 0x1_0000_0000 && k < |UploadBytes(rs)|
    ensures DecodeUpload(before, UploadBytes(rs)[..k]).error.Some?
  {
    hide UploadBytes, DecodeUpload, AllFit;
    var e := UploadBytes(rs);
    assert e[..k] + e[k..] == e;
    UploadRoundTripIff(before, rs);
    if DecodeUpload(before, e[..k]).error == None {
      UploadExtends(before, e[..k], e[k..]);
    }
  }

  /** Equal upload payloads carry equal readings. */
  lemma UploadInjective(rs: seq<Reading>, ps: seq<Reading>)
    requires AllFit(rs) && AllFit(ps) && |rs| < 0x1_0000_0000 && |ps| < 0x1_0000_0000
    requires UploadBytes(rs) == UploadBytes(ps)
    ensures rs == ps
  {
    UploadRoundTripIff([], rs);
    UploadRoundTripIff([], ps);
  }

  // ---- Notify ----

  /** The fixed block behind the device hash. */
  lemma NotifyBlock(timestamp: uint32, severity: byte, rest: bytes)
    ensures var b := PutBE(timestamp, 4) + ([severity] + rest);
            |b| == 5 + |rest| && GetBE(b[..4]) == timestamp && b[4] == severity && b[5..] == rest
  {
    var b := PutBE(timestamp, 4) + ([severity] + rest);
    assert b[..4] == PutBE(timestamp, 4);
    Powers();
    GetPutExact(timestamp, 4);
  }

  lemma NotifyTailReadsBack(p: Notify, rest: bytes)
    requires |p.message| <= 255
    ensures var n := Kept(|p.rawData|, 2);
            DecodeNotifyTail(LString(p.message, 1) + (LString(p.rawData, 2) + rest))
            == Parsed((p.message, p.rawData[..n]), p.rawData[n..] + rest)
  {
    Powers();
    LStringRoundTrip(p.message, 1, LString(p.rawData, 2) + rest, Message);
    LStringReadsBack(p.rawData, 2, rest, RawData);
  }

  lemma NotifyThen(p: Notify, rest: bytes)
    ensures var b := LString(p.message, 1) + (LString(p.rawData, 2) + rest);
            (NotifyBytes(p) + rest)[1..] == LString(p.deviceHash, 1) + (PutBE(p.timestamp, 4) + ([p.severity] + b))
            && (NotifyBytes(p) + rest)[0] == p.eventCode && |b| >= 1
  {
    assert |LString(p.message, 1)| >= 1;
    hide LString, PutBE;
    var h, t, v, m, d := LString(p.deviceHash, 1), PutBE(p.timestamp, 4), [p.severity], LString(p.message, 1), LString(p.rawData, 2);
    assert NotifyBytes(p) == [p.eventCode] + (h + (t + (v + (m + d))));
    hide NotifyBytes;
    Assoc(m, d, rest);
    Assoc(v, m + d, rest);
    Assoc(t, v + (m + d), rest);
    Assoc(h, t + (v + (m + d)), rest);
    Assoc([p.eventCode], h + (t + (v + (m + d))), rest);
  }

  /** Everything comes back, except raw data beyond what its 16-bit length can count. */
  lemma NotifyReadsBack(p: Notify, rest: bytes)
    requires EncodeNotify(p).Bytes?
    ensures var n := Kept(|p.rawData|, 2);
            DecodeNotify(EncodeNotify(p).data + rest)
            == Parsed(p.(rawData := p.rawData[..n]), p.rawData[n..] + rest)
  {
    Powers();
    NotifyThen(p, rest);
    NotifyLength(p);
    hide ReadLString, LString, PutBE, GetBE, DecodeNotifyTail, NotifyBytes, Kept;
    var b := LString(p.message, 1) + (LString(p.rawData, 2) + rest);
    LStringRoundTrip(p.deviceHash, 1, PutBE(p.timestamp, 4) + ([p.severity] + b), DeviceHash);
    NotifyBlock(p.timestamp, p.severity, b);
    NotifyTailReadsBack(p, rest);
  }

  lemma NotifyLength(p: Notify)
    ensures |NotifyBytes(p)| >= 10
  {}

  lemma NotifyRoundTripIff(p: Notify)
    requires EncodeNotify(p).Bytes?
    ensures DecodeNotify(EncodeNotify(p).data) == Parsed(p, []) <==> |p.rawData| <= 65535
  {
    hide EncodeNotify, DecodeNotify;
    Powers();
    NotifyReadsBack(p, []);
    var data, n := EncodeNotify(p).data, |p.rawData|;
    assert data + [] == data;
    if n <= 65535 {
      assert p.rawData[..n] == p.rawData && p.rawData[n..] + [] == [];
    }
  }

  lemma NotifyCanonical(data: bytes)
    requires DecodeNotify(data).Parsed?
    ensures var r := DecodeNotify(data);
            EncodeNotify(r.value).Bytes? && |r.value.rawData| <= 65535
            && EncodeNotify(r.value).data + r.rest == data
  {
    Powers();
    hide ReadLString, LString, PutBE, GetBE;
    var first := ReadLString(data[1..], 1, DeviceHash);
    LStringCanonical(data[1..], 1, DeviceHash);
    var r1 := first.rest;
    PutGet(r1[..4]);
    LStringCanonical(r1[5..], 1, Message);
    var second := ReadLString(r1[5..], 1, Message);
    LStringCanonical(second.rest, 2, RawData);
    var third := ReadLString(second.rest, 2, RawData);
    var hash, message, raw := LString(first.value, 1), LString(second.value, 1), LString(third.value, 2);
    assert data == [data[0]] + (hash + (r1[..4] + ([r1[4]] + (message + (raw + third.rest)))));
    assert [data[0]] + (hash + (r1[..4] + ([r1[4]] + (message + raw)))) + third.rest
        == [data[0]] + (hash + (r1[..4] + ([r1[4]] + (message + (raw + third.rest)))));
  }

  lemma NotifyExtends(data: bytes, tail: bytes)
    requires DecodeNotify(data).Parsed?
    ensures DecodeNotify(data + tail) == DecodeNotify(data).(rest := DecodeNotify(data).rest + tail)
  {
    hide EncodeNotify, DecodeNotify;
    var r := DecodeNotify(data);
    var n := |r.value.rawData|;
    Powers();
    NotifyCanonical(data);
    NotifyReadsBack(r.value, r.rest + tail);
    assert r.value.rawData[..n] == r.value.rawData && r.value.rawData[n..] + (r.rest + tail) == r.rest + tail;
    Assoc(EncodeNotify(r.value).data, r.rest, tail);
  }

  lemma NotifyPrefixRejected(p: Notify, k: nat)
    requires EncodeNotify(p).Bytes? && |p.rawData| <= 65535 && k < |EncodeNotify(p).data|
    ensures DecodeNotify(EncodeNotify(p).data[..k]).Bad?
  {
    hide EncodeNotify, DecodeNotify;
    var e := EncodeNotify(p).data;
    assert e[..k] + e[k..] == e;
    NotifyRoundTripIff(p);
    if DecodeNotify(e[..k]).Parsed? {
      NotifyExtends(e[..k], e[k..]);
    }
  }
}
