/**
 The wire frame: a 13-byte header, the payload and a two-byte checksum over both,
 all big-endian. Encoding, decoding from a connection that returns arbitrary chunks,
 and what decoding a stream of frames, a cut stream or a corrupted frame gives.
 */
module Frame {
  import opened Bytes
  import opened Crc
  import Payload

  const MAGIC: uint16 := 0x4E59
  const VERSION: byte := 1
  const HEADER_SIZE: nat := 13
  const CRC_SIZE: nat := 2

  datatype Frame = Frame(magic: uint16, version: byte, flags: byte, kind: byte, msgId: uint16,
                         payloadLen: uint16, timestamp: uint32, payload: bytes)

  datatype FrameError = EndOfFile | UnexpectedEndOfFile | InvalidMagic | ChecksumMismatch

  /** Go's error result: nil, or what went wrong. */
  datatype Outcome = NoError | Failed(error: FrameError)

  datatype Decoded =
    | Decoded(frame: Frame, checksum: bv16, rest: bytes)
    | Rejected(error: FrameError, rest: bytes)

  // ---- What the bytes of a frame are ----

  function Header(f: Frame): (h: bytes)
    ensures |h| == HEADER_SIZE
  {
    PutBE(f.magic, 2) + [f.version, f.flags, f.kind] + PutBE(f.msgId, 2)
    + PutBE(|f.payload|, 2) + PutBE(f.timestamp, 4)
  }

  function Body(f: Frame): bytes {
    Header(f) + f.payload
  }

  function Encoding(f: Frame): bytes {
    Body(f) + CrcBytes(Checksum(Body(f)))
  }

  /** A frame the sender can deliver: right magic, and a payload its length field can count. */
  predicate Sendable(f: Frame) {
    f.magic == MAGIC && f.payloadLen == |f.payload|
  }

  // ---- What a reader makes of a byte stream ----

  /** How a full read of `n` bytes fails on a stream that holds fewer. */
  function ShortRead(stream: bytes): FrameError {
    if stream == [] then EndOfFile else UnexpectedEndOfFile
  }

  function LengthField(header: bytes): (n: uint16)
    requires |header| >= HEADER_SIZE
  {
    Get2(header[7..9]);
    GetBE(header[7..9])
  }

  function ParseHeader(header: bytes, payload: bytes): Frame
    requires |header| == HEADER_SIZE
  {
    Get2(header[..2]);
    Get2(header[5..7]);
    Get4(header[9..]);
    Frame(GetBE(header[..2]), header[2], header[3], header[4], GetBE(header[5..7]),
          LengthField(header), GetBE(header[9..]), payload)
  }

  lemma ParseHeaderFields(header: bytes, p: bytes, q: bytes)
    requires |header| == HEADER_SIZE
    ensures var f := ParseHeader(header, p);
            f.payloadLen == LengthField(header) && f.(payload := q) == ParseHeader(header, q)
  {}

  function Decode(stream: bytes): Decoded {
    if |stream| < HEADER_SIZE then Rejected(ShortRead(stream), [])
    else
      var header, after := stream[..HEADER_SIZE], stream[HEADER_SIZE..];
      if GetBE(header[..2]) != MAGIC then Rejected(InvalidMagic, after)
      else
        var n := LengthField(header);
        if |after| < n + CRC_SIZE then Rejected(ShortRead(after), [])
        else
          var payload, trailer, rest := after[..n], after[n..n + CRC_SIZE], after[n + CRC_SIZE..];
          if Checksum(header + payload) != CrcValue(trailer) then Rejected(ChecksumMismatch, rest)
          else Decoded(ParseHeader(header, payload), CrcValue(trailer), rest)
  }

  const BLANK := Frame(0, 0, 0, 0, 0, 0, 0, [])

  /** The message returned: whole, or with an error as far as it was filled. */
  function Filled(stream: bytes): Frame {
    if |stream| < HEADER_SIZE then BLANK
    else
      var header, after := stream[..HEADER_SIZE], stream[HEADER_SIZE..];
      Get2(header[..2]);
      if GetBE(header[..2]) != MAGIC then BLANK.(magic := GetBE(header[..2]))
      else
        var n := LengthField(header);
        ParseHeader(header, if |after| < n + CRC_SIZE then [] else after[..n])
  }

  // ---- The imperative encoder ----

  class Msg {
    var magic: uint16
    var version: byte
    var flags: byte
    var kind: byte
    var msgId: uint16
    var payloadLen: uint16
    var timestamp: uint32
    var payload: bytes
    var checksum: bv16

    constructor (f: Frame, checksum: bv16)
      ensures Value() == f && this.checksum == checksum
    {
      magic, version, flags, kind := f.magic, f.version, f.flags, f.kind;
      msgId, payloadLen, timestamp := f.msgId, f.payloadLen, f.timestamp;
      payload, this.checksum := f.payload, checksum;
    }

    function Value(): Frame
      reads this
    {
      Frame(magic, version, flags, kind, msgId, payloadLen, timestamp, payload)
    }

    method Encode(table: array<bv16>) returns (buf: array<byte>)
      requires IsTable(table)
      modifies this`checksum
      ensures Value() == old(Value())
      ensures fresh(buf) && buf[..] == Encoding(Value())
      ensures checksum == Checksum(Body(Value()))
    {
      hide Header, Checksum, CrcBytes;
      var bodyLen := HEADER_SIZE + |payload|;
      buf := new byte[bodyLen + CRC_SIZE];
      PutHeader(buf, Value());
      PutBytes(buf, HEADER_SIZE, payload);
      checksum := CalChecksum(table, buf[..bodyLen]);
      PutBytes(buf, bodyLen, CrcBytes(checksum));
      assert buf[..] == buf[..bodyLen + CRC_SIZE];
    }

    method FillHeader(header: bytes)
      requires |header| == HEADER_SIZE && magic == GetBE(header[..2])
      modifies this
      ensures Value() == ParseHeader(header, old(payload))
    {
      Get2(header[5..7]);
      Get4(header[9..]);
      version, flags, kind := header[2], header[3], header[4];
      msgId := GetBE(header[5..7]);
      payloadLen := LengthField(header);
      timestamp := GetBE(header[9..]);
    }

    method FillRest(rest: bytes, ghost after: bytes)
      requires |rest| == payloadLen + CRC_SIZE && rest <= after
      modifies this`payload, this`checksum
      ensures payload == after[..payloadLen]
      ensures checksum == CrcValue(after[payloadLen..payloadLen + CRC_SIZE])
    {
      assert rest[payloadLen..] == after[payloadLen..payloadLen + CRC_SIZE];
      payload := rest[..payloadLen];
      checksum := CrcValue(rest[payloadLen..]);
    }
  }

  method PutHeader(buf: array<byte>, f: Frame)
    requires buf.Length >= HEADER_SIZE
    modifies buf
    ensures buf[..HEADER_SIZE] == Header(f)
  {
    var magic, kind, id := PutBE(f.magic, 2), [f.version, f.flags, f.kind], PutBE(f.msgId, 2);
    var len, time := PutBE(|f.payload|, 2), PutBE(f.timestamp, 4);
    PutBytes(buf, 0, magic);
    PutBytes(buf, 2, kind);
    PutBytes(buf, 5, id);
    PutBytes(buf, 7, len);
    PutBytes(buf, 9, time);
    assert buf[..HEADER_SIZE] == [] + magic + kind + id + len + time;
    assert [] + magic == magic;
  }

  /** Writes `s` into `buf` from `off` on; what lies before stays. */
  method PutBytes(buf: array<byte>, off: nat, s: bytes)
    requires off + |s| <= buf.Length
    modifies buf
    ensures buf[..off + |s|] == old(buf[..off]) + s
    ensures buf[off + |s|..] == old(buf[off + |s|..])
  {
    for i := 0 to |s|
      invariant buf[..off + i] == old(buf[..off]) + s[..i]
      invariant buf[off + i..] == old(buf[off + i..])
    {
      buf[off + i] := s[i];
      assert buf[..off + i + 1] == buf[..off + i] + [s[i]];
      assert s[..i + 1] == s[..i] + [s[i]];
    }
    assert s[..|s|] == s;
  }

  /** The message counter: 32 bits wide, read modulo 2^16. */
  class IdGenerator {
    var current: uint32
    ghost var issued: nat

    ghost predicate Valid()
      reads this
    {
      current == issued % 0x1_0000_0000
    }

    constructor ()
      ensures Valid() && issued == 0
    {
      current, issued := 0, 0;
    }

    /** The n-th id is n mod 65536, also after the 32-bit counter wraps. */
    method Next() returns (id: uint16)
      requires Valid()
      modifies this
      ensures Valid() && issued == old(issued) + 1
      ensures id == issued % 0x1_0000
    {
      current := (current + 1) % 0x1_0000_0000;
      issued := issued + 1;
      id := current % 0x1_0000;
    }
  }

  class MsgFactory {
    const idGen: IdGenerator

    constructor ()
      ensures idGen.Valid() && idGen.issued == 0 && fresh(idGen)
    {
      idGen := new IdGenerator();
    }

    /** No message, and no id taken, when the packet refused to be encoded. */
    method NewMsg(t: byte, packet: Payload.Encoded, now: uint32) returns (m: Msg?)
      requires idGen.Valid()
      modifies idGen
      ensures idGen.Valid()
      ensures packet.Refused? ==> m == null && idGen.issued == old(idGen.issued)
      ensures packet.Bytes? ==>
                && m != null && fresh(m) && m.checksum == 0 && idGen.issued == old(idGen.issued) + 1
                && m.Value() == Frame(MAGIC, VERSION, 0, t, idGen.issued % 0x1_0000, |packet.data| % 0x1_0000, now, packet.data)
    {
      match packet
      case Refused(_) =>
        m := null;
      case Bytes(payload) =>
        var id := idGen.Next();
        m := new Msg(Frame(MAGIC, VERSION, 0, t, id, |payload| % 0x1_0000, now, payload), 0);
    }
  }

  // ---- The imperative decoder ----

  /** A connection holding the bytes still to arrive; each read returns a chunk of arbitrary size. */
  class Conn {
    var pending: bytes

    constructor (stream: bytes)
      ensures pending == stream
    {
      pending := stream;
    }

    method Read(buf: array<byte>, from: nat) returns (n: nat, eof: bool)
      requires from < buf.Length
      modifies this, buf
      ensures eof == (old(pending) == [])
      ensures n <= |old(pending)| && from + n <= buf.Length && (eof || n > 0)
      ensures pending == old(pending)[n..]
      ensures buf[..from + n] == old(buf[..from]) + old(pending)[..n]
    {
      n, eof := 0, pending == [];
      if !eof {
        n :| 0 < n <= |pending| && from + n <= buf.Length;
        PutBytes(buf, from, pending[..n]);
        pending := pending[n..];
      }
    }

    /** Reads until the buffer is full or the stream ends, whatever the chunk sizes. */
    method ReadFull(buf: array<byte>) returns (total: nat, ok: bool)
      modifies this, buf
      ensures ok == (|old(pending)| >= buf.Length)
      ensures ok ==> buf[..] == old(pending)[..buf.Length] && pending == old(pending)[buf.Length..]
      ensures !ok ==> total == |old(pending)| && pending == []
    {
      total := 0;
      while total < buf.Length
        invariant total <= |old(pending)| && total <= buf.Length
        invariant pending == old(pending)[total..]
        invariant buf[..total] == old(pending)[..total]
      {
        var n, eof := Read(buf, total);
        if eof {
          return total, false;
        }
        total := total + n;
      }
      assert buf[..] == buf[..total];
      ok := true;
    }

    method DecodeFrame(table: array<bv16>) returns (m: Msg, err: Outcome)
      requires IsTable(table)
      modifies this
      ensures fresh(m) && m.Value() == Filled(old(pending))
      ensures match Decode(old(pending))
              case Decoded(frame, checksum, rest) =>
                err == NoError && m.Value() == frame && m.checksum == checksum && pending == rest
              case Rejected(error, rest) => err == Failed(error) && pending == rest
    {
      hide GetBE, PutBE, Checksum, CrcValue, ParseHeader;
      m := new Msg(BLANK, 0);
      var headerBuf := new byte[HEADER_SIZE];
      var total, ok := ReadFull(headerBuf);
      if !ok {
        return m, Failed(if total == 0 then EndOfFile else UnexpectedEndOfFile);
      }
      var header := headerBuf[..];
      Get2(header[..2]);
      m.magic := GetBE(header[..2]);
      if m.magic != MAGIC {
        return m, Failed(InvalidMagic);
      }
      m.FillHeader(header);
      ParseHeaderFields(header, [], []);

      ghost var after := pending;
      var restBuf := new byte[m.payloadLen + CRC_SIZE];
      total, ok := ReadFull(restBuf);
      if !ok {
        return m, Failed(if total == 0 then EndOfFile else UnexpectedEndOfFile);
      }
      m.FillRest(restBuf[..], after);
      ParseHeaderFields(header, [], m.payload);
      var checksum := CalChecksum(table, header + m.payload);
      if checksum != m.checksum {
        return m, Failed(ChecksumMismatch);
      }
      return m, NoError;
    }
  }

  lemma DecodeAllStep(stream: bytes)
    requires Decode(stream).Decoded?
    ensures var d := Decode(stream);
            DecodeAll(stream) == ([d.frame] + DecodeAll(d.rest).0, DecodeAll(d.rest).1)
  {}

  /** Receives frames until the first error, as a connection handler does. */
  method ReceiveAll(conn: Conn, table: array<bv16>) returns (frames: seq<Frame>, err: FrameError)
    requires IsTable(table)
    modifies conn
    ensures (frames, err) == DecodeAll(old(conn.pending))
  {
    hide Decode;
    frames := [];
    ghost var stream := conn.pending;
    assert [] + DecodeAll(stream).0 == DecodeAll(stream).0;
    while true
      invariant DecodeAll(stream) == (frames + DecodeAll(conn.pending).0, DecodeAll(conn.pending).1)
      decreases |conn.pending|
    {
      ghost var before := conn.pending;
      var m, outcome := conn.DecodeFrame(table);
      if outcome.Failed? {
        assert frames + [] == frames;
        return frames, outcome.error;
      }
      DecodeAllStep(before);
      DecodeShrinks(before);
      assert frames + ([m.Value()] + DecodeAll(conn.pending).0) == frames + [m.Value()] + DecodeAll(conn.pending).0;
      frames := frames + [m.Value()];
    }
  }

  lemma DecodeShrinks(stream: bytes)
    requires Decode(stream).Decoded?
    ensures |Decode(stream).rest| < |stream|
  {}

  /** All frames before the first error of a stream, and that error. */
  function DecodeAll(stream: bytes): (seq<Frame>, FrameError)
    decreases |stream|
  {
    match Decode(stream)
    case Rejected(error, _) => ([], error)
    case Decoded(frame, _, rest) =>
      var (frames, error) := DecodeAll(rest);
      ([frame] + frames, error)
  }
}
