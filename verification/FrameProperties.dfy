/**
 What the frame format guarantees: exact round trips, canonical decoding, streams of
 frames however they are chunked or cut, and detection of corrupted frames.
 */
module FrameProperties {
  import opened Bytes
  import opened Crc
  import CrcDivision
  import opened Frame

  /** The frame as the receiver sees it: the length field holds what was written on the wire. */
  function Received(f: Frame): Frame {
    f.(payloadLen := |f.payload| % 0x1_0000)
  }

  predicate Fits(f: Frame) {
    f.magic == MAGIC && |f.payload| < 0x1_0000
  }

  lemma HeaderFields(f: Frame)
    ensures GetBE(Header(f)[..2]) == f.magic
    ensures LengthField(Header(f)) == |f.payload| % 0x1_0000
    ensures ParseHeader(Header(f), f.payload) == Received(f)
  {
    var h := Header(f);
    assert h[..2] == PutBE(f.magic, 2);
    assert h[5..7] == PutBE(f.msgId, 2);
    assert h[7..9] == PutBE(|f.payload|, 2);
    assert h[9..] == PutBE(f.timestamp, 4);
    Powers();
    GetPutExact(f.magic, 2);
    GetPutExact(f.msgId, 2);
    GetPut(|f.payload|, 2);
    GetPutExact(f.timestamp, 4);
  }

  lemma Slices(a: bytes, b: bytes, c: bytes, d: bytes)
    ensures (a + b + c + d)[..|a|] == a && (a + b + c + d)[|a|..] == b + c + d
    ensures (b + c + d)[..|b|] == b && (b + c + d)[|b|..|b| + |c|] == c && (b + c + d)[|b| + |c|..] == d
  {}

  /** What a full header, payload and trailer in front of `rest` decode to. */
  lemma DecodeParts(header: bytes, payload: bytes, trailer: bytes, rest: bytes)
    requires |header| == HEADER_SIZE && |trailer| == CRC_SIZE
    requires GetBE(header[..2]) == MAGIC && LengthField(header) == |payload|
    ensures Decode(header + payload + trailer + rest) ==
            if Checksum(header + payload) == CrcValue(trailer)
            then Decoded(ParseHeader(header, payload), CrcValue(trailer), rest)
            else Rejected(ChecksumMismatch, rest)
  {
    Slices(header, payload, trailer, rest);
  }

  /** A frame comes back unchanged, and nothing behind it is consumed. */
  lemma RoundTrip(f: Frame, rest: bytes)
    requires Fits(f)
    ensures Decode(Encoding(f) + rest) == Decoded(Received(f), Checksum(Body(f)), rest)
  {
    hide Header, GetBE, PutBE, Checksum, CrcBytes, CrcValue, Decode, ParseHeader, LengthField, Received;
    HeaderFields(f);
    var trailer := CrcBytes(Checksum(Body(f)));
    CrcBytesInverse(Checksum(Body(f)), trailer);
    DecodeParts(Header(f), f.payload, trailer, rest);
    assert Encoding(f) + rest == Header(f) + f.payload + trailer + rest;
  }

  /** The round trip works for exactly the frames with the right magic and a payload below 64 KiB. */
  lemma RoundTripIff(f: Frame, rest: bytes)
    ensures (Decode(Encoding(f) + rest).Decoded? && Decode(Encoding(f) + rest).frame == Received(f)) <==> Fits(f)
  {
    hide Header, GetBE, PutBE, Checksum, CrcBytes, CrcValue, LengthField;
    if Fits(f) {
      RoundTrip(f, rest);
    } else {
      HeaderFields(f);
      assert (Encoding(f) + rest)[..HEADER_SIZE] == Header(f);
    }
  }

  /** Decoding is canonical: an accepted prefix is the one encoding of what was decoded. */
  lemma Canonical(stream: bytes)
    requires Decode(stream).Decoded?
    ensures var d := Decode(stream);
            Fits(d.frame) && Sendable(d.frame) && Encoding(d.frame) + d.rest == stream
            && d.checksum == Checksum(Body(d.frame))
  {
    hide GetBE, PutBE, Checksum, CrcBytes, CrcValue;
    var header, after := stream[..HEADER_SIZE], stream[HEADER_SIZE..];
    var n := LengthField(header);
    var payload, trailer, rest := after[..n], after[n..n + CRC_SIZE], after[n + CRC_SIZE..];
    var f := ParseHeader(header, payload);
    PutGet(header[..2]);
    PutGet(header[5..7]);
    PutGet(header[7..9]);
    PutGet(header[9..]);
    assert header == header[..2] + [header[2], header[3], header[4]] + header[5..7] + header[7..9] + header[9..];
    assert Header(f) == header;
    CrcBytesInverse(CrcValue(trailer), trailer);
    assert stream == header + payload + trailer + rest;
  }

  /** A frame is accepted exactly when it is complete, has the magic, and leaves residue zero as a whole. */
  lemma AcceptedIff(stream: bytes)
    requires |stream| >= HEADER_SIZE
    ensures var total := HEADER_SIZE + LengthField(stream) + CRC_SIZE;
            Decode(stream).Decoded? <==>
            GetBE(stream[..2]) == MAGIC && total <= |stream| && Checksum(stream[..total]) == 0
  {
    var header, after := stream[..HEADER_SIZE], stream[HEADER_SIZE..];
    var n := LengthField(header);
    assert header[..2] == stream[..2] && header[7..9] == stream[7..9];
    if n + CRC_SIZE <= |after| {
      var payload, trailer := after[..n], after[n..n + CRC_SIZE];
      assert stream[..HEADER_SIZE + n + CRC_SIZE] == header + payload + trailer;
      ResidueZero(header + payload, trailer);
    }
  }

  // ---- Streams ----

  function Concat(frames: seq<Frame>): bytes {
    if frames == [] then [] else Encoding(frames[0]) + Concat(frames[1..])
  }

  function ReceivedAll(frames: seq<Frame>): (r: seq<Frame>)
    ensures |r| == |frames| && forall i | 0 <= i < |frames| :: r[i] == Received(frames[i])
  {
    seq(|frames|, i requires 0 <= i < |frames| => Received(frames[i]))
  }

  lemma FirstFrame(f: Frame, rest: bytes)
    requires Fits(f)
    ensures DecodeAll(Encoding(f) + rest) == ([Received(f)] + DecodeAll(rest).0, DecodeAll(rest).1)
  {
    RoundTrip(f, rest);
    DecodeAllStep(Encoding(f) + rest);
  }

  /** A concatenation of frames decodes to exactly those frames, then to whatever follows. */
  lemma {:induction false} StreamRoundTrip(frames: seq<Frame>, tail: bytes)
    requires forall f | f in frames :: Fits(f)
    ensures DecodeAll(Concat(frames) + tail) == (ReceivedAll(frames) + DecodeAll(tail).0, DecodeAll(tail).1)
    decreases frames
  {
    hide Encoding, DecodeAll, Received;
    if frames == [] {
      assert [] + tail == tail;
      assert ReceivedAll(frames) + DecodeAll(tail).0 == DecodeAll(tail).0;
    } else {
      var e, more := Encoding(frames[0]), Concat(frames[1..]);
      FirstFrame(frames[0], more + tail);
      StreamRoundTrip(frames[1..], tail);
      assert e + (more + tail) == e + more + tail;
      var first, others, last := [Received(frames[0])], ReceivedAll(frames[1..]), DecodeAll(tail).0;
      assert ReceivedAll(frames) == first + others;
      assert first + (others + last) == first + others + last;
    }
  }

  /** A frame cut short is an error; it reads as a clean end only at the two read boundaries. */
  lemma CutFrame(f: Frame, k: nat)
    requires Fits(f) && k < |Encoding(f)|
    ensures Decode(Encoding(f)[..k]).Rejected?
    ensures Decode(Encoding(f)[..k]).error == (if k == 0 || k == HEADER_SIZE then EndOfFile else UnexpectedEndOfFile)
  {
    hide GetBE, PutBE, Checksum, CrcBytes, CrcValue, ParseHeader;
    var cut := Encoding(f)[..k];
    assert |Encoding(f)| == HEADER_SIZE + |f.payload| + CRC_SIZE;
    if k >= HEADER_SIZE {
      HeaderFields(f);
      assert cut[..HEADER_SIZE] == Header(f);
      assert |cut[HEADER_SIZE..]| == k - HEADER_SIZE;
    }
  }

  /** A stream cut inside a frame yields every whole frame before the cut, and then the error. */
  lemma CutStream(frames: seq<Frame>, last: Frame, k: nat)
    requires forall f | f in frames :: Fits(f)
    requires Fits(last) && k < |Encoding(last)|
    ensures DecodeAll(Concat(frames) + Encoding(last)[..k])
         == (ReceivedAll(frames), if k == 0 || k == HEADER_SIZE then EndOfFile else UnexpectedEndOfFile)
  {
    StreamRoundTrip(frames, Encoding(last)[..k]);
    CutFrame(last, k);
    assert ReceivedAll(frames) + [] == ReceivedAll(frames);
  }

  // ---- Corruption ----

  lemma {:induction false} BitsSplit(a: bytes, i: nat, j: nat)
    requires i < |a| && j < 8
    ensures Bits(a)[8 * i + j] == BitsOf(a[i])[j]
  {
    if i > 0 {
      BitsSplit(a[1..], i - 1, j);
    }
  }

  /** A frame changed outside its length field is accepted exactly when it keeps the magic and the checksum of the whole. */
  lemma ChangedFrame(f: Frame, received: bytes, rest: bytes)
    requires Fits(f) && |received| == |Encoding(f)| && received[7..9] == Encoding(f)[7..9]
    ensures var d := Decode(received + rest);
            if received[..2] != Encoding(f)[..2] then d.Rejected? && d.error == InvalidMagic
            else if Checksum(received) != Checksum(Encoding(f)) then d.Rejected? && d.error == ChecksumMismatch
            else d.Decoded?
  {
    hide GetBE, PutBE, Checksum, CrcBytes, CrcValue, ParseHeader, Bits;
    var sent := Encoding(f);
    var stream := received + rest;
    HeaderFields(f);
    assert sent[7..9] == Header(f)[7..9] && sent[..2] == Header(f)[..2];
    assert stream[..HEADER_SIZE][7..9] == received[7..9] && stream[..HEADER_SIZE][..2] == received[..2];
    assert stream[..|sent|] == received && stream[7..9] == received[7..9] && stream[..2] == received[..2];
    RoundTrip(f, []);
    assert sent + [] == sent;
    AcceptedIff(sent);
    assert sent[..|sent|] == sent;
    assert LengthField(stream) == LengthField(sent) == |f.payload|;
    AcceptedIff(stream);
    if received[..2] != sent[..2] {
      PutGet(received[..2]);
      PutGet(sent[..2]);
    }
  }

  /** A burst of up to sixteen bits anywhere but in the length field is always detected. */
  lemma CorruptionDetected(f: Frame, received: bytes, k: nat, rest: bytes)
    requires Fits(f)
    requires |received| == |Encoding(f)| && received != Encoding(f)
    requires received[7..9] == Encoding(f)[7..9]
    requires AgreeOutside(Bits(received), Bits(Encoding(f)), k)
    ensures var d := Decode(received + rest);
            d.Rejected? && d.error == (if received[..2] != Encoding(f)[..2] then InvalidMagic else ChecksumMismatch)
  {
    hide *;
    BurstDetected(received, Encoding(f), k);
    ChangedFrame(f, received, rest);
  }

  /** So is any change of an odd number of bits outside the length field. */
  lemma OddCorruptionDetected(f: Frame, received: bytes, rest: bytes)
    requires Fits(f) && |received| == |Encoding(f)| && received[7..9] == Encoding(f)[7..9]
    requires CrcDivision.Odd(Xor(Bits(received), Bits(Encoding(f))))
    ensures var d := Decode(received + rest);
            d.Rejected? && d.error == (if received[..2] != Encoding(f)[..2] then InvalidMagic else ChecksumMismatch)
  {
    hide *;
    CrcDivision.OddChangeDetected(received, Encoding(f));
    ChangedFrame(f, received, rest);
  }

  /** A change outside magic and length field goes unnoticed if and only if the generator divides it. */
  lemma CorruptionUnnoticedIff(f: Frame, received: bytes, rest: bytes)
    requires Fits(f) && |received| == |Encoding(f)|
    requires received[..2] == Encoding(f)[..2] && received[7..9] == Encoding(f)[7..9]
    ensures Decode(received + rest).Decoded?
            <==> CrcDivision.IsRemainder(Xor(Bits(received), Bits(Encoding(f))) + Zeros(16), Zeros(16))
  {
    hide *;
    CrcDivision.UnnoticedIff(received, Encoding(f));
    ChangedFrame(f, received, rest);
  }

  /** In particular, replacing one byte outside the length field is always detected. */
  lemma ByteCorruptionDetected(f: Frame, i: nat, b: byte, rest: bytes)
    requires Fits(f) && i < |Encoding(f)| && i != 7 && i != 8
    requires b != Encoding(f)[i]
    ensures var d := Decode(Encoding(f)[i := b] + rest);
            d.Rejected? && d.error == (if i < 2 then InvalidMagic else ChecksumMismatch)
  {
    hide Header, Decode, Bits, Checksum, CrcBytes;
    var sent := Encoding(f);
    var received := sent[i := b];
    forall p | 0 <= p < 8 * |sent| && (p < 8 * i || 8 * i + 16 <= p)
      ensures Bits(received)[p] == Bits(sent)[p]
    {
      BitsSplit(sent, p / 8, p % 8);
      BitsSplit(received, p / 8, p % 8);
    }
    assert |sent| >= 9;
    assert received[7..9] == sent[7..9];
    CorruptionDetected(f, received, 8 * i, rest);
    assert received[..2] == sent[..2] <==> received[0] == sent[0] && received[1] == sent[1];
  }

  /**
   The length field itself is not protected: for every header there is a frame, two payload bytes
   long, that after a change of its length byte alone decodes to a different frame without an error.
   */
  lemma LengthByteUnprotected(f: Frame) returns (g: Frame)
    requires f.magic == MAGIC
    ensures g == f.(payload := g.payload) && Fits(g)
    ensures var d := Decode(Encoding(g)[8 := 0]); d.Decoded? && d.frame.payload != g.payload
  {
    hide Checksum, CrcBytes, CrcValue, Decode, PutBE;
    var empty := f.(payload := []);
    g := f.(payload := CrcBytes(Checksum(Body(empty))));
    ShortLengths();
    assert Header(g)[8 := 0] == Header(empty);
    var rest := CrcBytes(Checksum(Body(g)));
    assert Encoding(g)[8 := 0] == Header(g)[8 := 0] + g.payload + rest;
    assert Header(empty) + [] == Header(empty);
    RoundTrip(empty, rest);
  }

  lemma ShortLengths()
    ensures PutBE(0, 2) == [0, 0] && PutBE(2, 2) == [0, 2]
  {
    ToByteExact(0, 0);
    ToByteExact(2, 2);
    hide ToByte;
    assert PutBE(0, 0) == [] && 2 / 256 == 0;
    assert PutBE(0, 1) == [ToByte(0)];
  }
}
