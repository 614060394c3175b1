/**
 The server's upload handler: look the payload up, remember it, parse, save, acknowledge.
 Acknowledgements are real frames on the connection.
 */
module Server {
  import opened Bytes
  import Crc
  import Frame
  import FrameProperties
  import PayloadProperties
  import Recency
  import opened Payload
  import opened Dedup
  import opened DeviceIndex
  import opened Grouping

  const TYPE_UPLOAD_ACK: byte := 4
  const OK: byte := 1
  const FAILED: byte := 2
  const DEDUP_CACHE_SIZE: nat := 200
  const COLON: byte := 58

  /** The deduplication key of a payload: the gateway's serial number, a colon and the payload's hash. */
  function UploadKey(hash: bytes -> bytes, sn: bytes, payload: bytes): Key {
    sn + [COLON] + hash(payload)
  }

  /** Because the hash has a fixed length, a key says which gateway and which hash it was made of. */
  lemma UploadKeyInjective(hash: bytes -> bytes, sn: bytes, p: bytes, sn': bytes, p': bytes)
    requires |hash(p)| == |hash(p')| && UploadKey(hash, sn, p) == UploadKey(hash, sn', p')
    ensures sn == sn' && hash(p) == hash(p')
  {
    var k, k' := UploadKey(hash, sn, p), UploadKey(hash, sn', p');
    assert sn == k[..|sn|] && sn' == k'[..|sn'|];
    assert hash(p) == k[|sn| + 1..] && hash(p') == k'[|sn'| + 1..];
  }

  // ---- Acknowledgements ----

  function AckFrame(kind: byte, reqMsgId: uint16, code: byte, id: uint16, now: uint32): Frame.Frame {
    Frame.Frame(Frame.MAGIC, Frame.VERSION, 0, kind, id, 3, now, AckBytes(Ack(reqMsgId, code)))
  }

  /** What an acknowledgement puts on the wire: nothing when its checksum happens to be zero. */
  function AckOutput(f: Frame.Frame): bytes {
    if Crc.Checksum(Frame.Body(f)) == 0 then [] else Frame.Encoding(f)
  }

  /** On the wire an acknowledgement is a frame of its type, carrying the id of the request it answers, then the code. */
  lemma AckOnWire(kind: byte, reqMsgId: uint16, code: byte, id: uint16, now: uint32)
    ensures |Frame.Encoding(AckFrame(kind, reqMsgId, code, id, now))| == 18
    ensures var d := Frame.Decode(Frame.Encoding(AckFrame(kind, reqMsgId, code, id, now)));
            && d.Decoded? && d.rest == []
            && d.frame.(payload := []) == Frame.Frame(0x4E59, 1, 0, kind, id, 3, now, [])
            && DecodeAck(d.frame.payload) == Parsed(Ack(reqMsgId, code), [])
  {
    var f := AckFrame(kind, reqMsgId, code, id, now);
    assert |Frame.Encoding(f)| == 18;
    hide Frame.Decode, Frame.Encoding, Frame.Body, Crc.Checksum, DecodeAck, PutBE;
    FrameProperties.RoundTrip(f, []);
    PayloadProperties.AckRoundTrip(Ack(reqMsgId, code), []);
    assert Frame.Encoding(f) + [] == Frame.Encoding(f) && f.payload + [] == f.payload;
  }

  class Connection {
    var sent: bytes
    ghost var broken: nat  // writes that failed

    constructor ()
      ensures sent == [] && broken == 0
    {
      sent, broken := [], 0;
    }

    /** A failed write may have sent any part of the data. */
    method Write(data: bytes) returns (ok: bool)
      modifies this
      ensures old(sent) <= sent <= old(sent) + data
      ensures ok ==> sent == old(sent) + data
      ensures broken == if ok then old(broken) else old(broken) + 1
    {
      var n :| 0 <= n <= |data|;
      ok := n == |data|;
      broken := if ok then broken else broken + 1;
      sent := sent + data[..n];
      assert sent == (old(sent) + data)[..|old(sent)| + n];
    }

    /** Whether the write went through is only logged. */
    method SendAck(table: array<bv16>, factory: Frame.MsgFactory, kind: byte, reqMsgId: uint16, code: byte, now: uint32)
      returns (written: bool)
      requires Crc.IsTable(table) && factory.idGen.Valid()
      modifies this, factory.idGen
      ensures factory.idGen.Valid() && factory.idGen.issued == old(factory.idGen.issued) + 1
      ensures Sends(old(sent), sent, AckOutput(AckFrame(kind, reqMsgId, code, factory.idGen.issued % 0x1_0000, now)), written)
      ensures broken == if written then old(broken) else old(broken) + 1
      ensures old(sent) <= sent
      ensures written ==>
                var output, id := sent[|old(sent)|..], factory.idGen.issued % 0x1_0000;
                && (output == [] <==> Crc.Checksum(Frame.Body(AckFrame(kind, reqMsgId, code, id, now))) == 0)
                && (output != [] ==>
                      var d := Frame.Decode(output);
                      && d.Decoded? && d.rest == []
                      && d.frame.(payload := []) == Frame.Frame(0x4E59, 1, 0, kind, id, 3, now, [])
                      && DecodeAck(d.frame.payload) == Parsed(Ack(reqMsgId, code), []))
    {
      hide Crc.Checksum, Frame.Body, Frame.Encoding, Frame.Decode, DecodeAck, PutBE;
      var m := factory.NewMsg(kind, Bytes(AckBytes(Ack(reqMsgId, code))), now);
      AckOnWire(kind, reqMsgId, code, factory.idGen.issued % 0x1_0000, now);
      var encoded := m.Encode(table);
      if m.checksum == 0 {
        return true;
      }
      written := Write(encoded[..]);
      assert old(sent) + encoded[..] == (old(sent) + encoded[..])[..|old(sent)|] + encoded[..];
    }
  }

  /** The output goes out whole, or some part of it when the write failed. */
  ghost predicate Sends(before: bytes, after: bytes, output: bytes, written: bool) {
    before <= after <= before + output && (written ==> after == before + output)
  }

  // ---- The handler ----

  datatype Reaction = Duplicate | Unparsable | Empty | SaveFailed | Saved

  /** The code acknowledged, if any: a first upload without readings is not acknowledged at all. */
  function CodeOf(r: Reaction): Option<byte> {
    match r
    case Duplicate => Some(OK)
    case Unparsable => Some(FAILED)
    case Empty => None
    case SaveFailed => Some(FAILED)
    case Saved => Some(OK)
  }

  /** What one handled upload does to the cache, the store and the output routes. */
  datatype Effect = Effect(reaction: Reaction, save: Save, pushed: map<bytes, seq<Reading>>)

  /** The handler's choices, given the keys it remembered and the outcome of the save statements. */
  predicate Reacts(e: Effect, known: bool, sn: bytes, payload: bytes, now: int) {
    var p := DecodeUpload([], payload);
    && (e.reaction == Duplicate <==> known)
    && (e.reaction == Unparsable <==> !known && p.error.Some?)
    && (e.reaction == Empty <==> !known && p.error == None && p.readings == [])
    && Possible(e.save) && e.save.now == now
    && (e.reaction in {SaveFailed, Saved} ==>
          e.save.sn == sn && e.save.rs == p.readings
          && (e.reaction == Saved <==> e.save.inserted && e.save.done == Seen(p.readings).Keys))
    && (e.reaction !in {SaveFailed, Saved} ==> !e.save.inserted)
    && e.pushed == if e.reaction == Saved then ByName(p.readings) else map[]
  }

  class UploadServer {
    const uploadDedup: DedupCache
    const store: PostgresStore
    const hash: bytes -> bytes

    constructor (hash: bytes -> bytes)
      ensures uploadDedup.Valid() && uploadDedup.Keys() == [] && uploadDedup.capacity == 200
      ensures store.Contents() == Tables([], map[]) && this.hash == hash
    {
      uploadDedup := new DedupCache(DEDUP_CACHE_SIZE);
      store := new PostgresStore();
      this.hash := hash;
    }

    method HandleUpload(conn: Connection, table: array<bv16>, factory: Frame.MsgFactory, message: Frame.Frame, sn: bytes,
                        now: int, ackTime: uint32)
      returns (effect: Effect, written: bool)
      requires Crc.IsTable(table) && factory.idGen.Valid() && uploadDedup.Valid()
      modifies conn, factory.idGen, store
      modifies uploadDedup`items, uploadDedup.lruList, uploadDedup.lruList.root, uploadDedup.lruList.elems
      ensures uploadDedup.Valid() && factory.idGen.Valid()
      ensures var key := UploadKey(hash, sn, message.payload);
              Reacts(effect, key in old(uploadDedup.Keys()), sn, message.payload, now)
              && uploadDedup.Keys() == Recency.Added(old(uploadDedup.Keys()), key, uploadDedup.capacity)
      ensures store.Contents() == Apply(old(store.Contents()), effect.save)
      ensures match CodeOf(effect.reaction)
              case None => conn.sent == old(conn.sent)
              case Some(code) =>
                var ack := AckFrame(TYPE_UPLOAD_ACK, message.msgId, code, factory.idGen.issued % 0x1_0000, ackTime);
                Sends(old(conn.sent), conn.sent, AckOutput(ack), written)
      ensures var key, p := sn + [58] + hash(message.payload), DecodeUpload([], message.payload);
              && uploadDedup.Keys() == Recency.Added(old(uploadDedup.Keys()), key, uploadDedup.capacity)
              && effect.reaction == if key in old(uploadDedup.Keys()) then Duplicate
                                    else if p.error.Some? then Unparsable
                                    else if p.readings == [] then Empty
                                    else if store.refused == old(store.refused) then Saved
                                    else SaveFailed
      ensures effect.reaction.Saved? || effect.reaction.SaveFailed? ==>
                effect.save.(inserted := false, done := {}) == Save(sn, DecodeUpload([], message.payload).readings, now, false, {})
      ensures effect.pushed == if effect.reaction.Saved? then ByName(DecodeUpload([], message.payload).readings) else map[]
      ensures effect.reaction.SaveFailed? ==> store.refused == old(store.refused) + 1
      ensures effect.reaction.Duplicate? || effect.reaction.Unparsable? || effect.reaction.Empty? ==>
                store.Contents() == old(store.Contents()) && store.refused == old(store.refused)
      ensures old(conn.sent) <= conn.sent && conn.broken == if written then old(conn.broken) else old(conn.broken) + 1
      ensures effect.reaction.Empty? ==> written && conn.sent == old(conn.sent)
      ensures written && conn.sent != old(conn.sent) ==>
                var d, code := Frame.Decode(conn.sent[|old(conn.sent)|..]), if effect.reaction.Duplicate? || effect.reaction.Saved? then 1 else 2;
                && d.Decoded? && d.rest == []
                && d.frame.(payload := []) == Frame.Frame(0x4E59, 1, 0, 4, factory.idGen.issued % 0x1_0000, 3, ackTime, [])
                && DecodeAck(d.frame.payload) == Parsed(Ack(message.msgId, code), [])
      ensures written && conn.sent == old(conn.sent) && !effect.reaction.Empty? ==>
                Crc.Checksum(Frame.Body(AckFrame(4, message.msgId, if effect.reaction.Duplicate? || effect.reaction.Saved? then 1 else 2,
                                                 factory.idGen.issued % 0x1_0000, ackTime))) == 0
    {
      hide *;
      effect := Process(message.payload, sn, now);
      written := Acknowledge(conn, table, factory, message.msgId, effect.reaction, ackTime);
    }

    /** Everything but the acknowledgement. */
    method Process(payload: bytes, sn: bytes, now: int) returns (effect: Effect)
      requires uploadDedup.Valid()
      modifies store, uploadDedup`items, uploadDedup.lruList, uploadDedup.lruList.root, uploadDedup.lruList.elems
      ensures uploadDedup.Valid()
      ensures var key := UploadKey(hash, sn, payload);
              Reacts(effect, key in old(uploadDedup.Keys()), sn, payload, now)
              && uploadDedup.Keys() == Recency.Added(old(uploadDedup.Keys()), key, uploadDedup.capacity)
      ensures store.Contents() == Apply(old(store.Contents()), effect.save)
      ensures var key, p := sn + [58] + hash(payload), DecodeUpload([], payload);
              && uploadDedup.Keys() == Recency.Added(old(uploadDedup.Keys()), key, uploadDedup.capacity)
              && effect.reaction == if key in old(uploadDedup.Keys()) then Duplicate
                                    else if p.error.Some? then Unparsable
                                    else if p.readings == [] then Empty
                                    else if store.refused == old(store.refused) then Saved
                                    else SaveFailed
      ensures effect.reaction.Saved? || effect.reaction.SaveFailed? ==>
                effect.save.(inserted := false, done := {}) == Save(sn, DecodeUpload([], payload).readings, now, false, {})
      ensures effect.pushed == if effect.reaction.Saved? then ByName(DecodeUpload([], payload).readings) else map[]
      ensures effect.reaction.SaveFailed? ==> store.refused == old(store.refused) + 1
      ensures effect.reaction.Duplicate? || effect.reaction.Unparsable? || effect.reaction.Empty? ==>
                store.Contents() == old(store.Contents()) && store.refused == old(store.refused)
    {
      var key := UploadKey(hash, sn, payload);
      assert key == sn + [58] + hash(payload);
      hide *;
      var known := Remember(key);
      if known {
        effect := Repeat(sn, payload, now);
      } else {
        effect := SaveUpload(sn, payload, now);
      }
    }

    /** Looks the key up and, when it is new, inserts it: either way it is the most recent one afterwards. */
    method Remember(key: Key) returns (known: bool)
      requires uploadDedup.Valid()
      modifies uploadDedup`items, uploadDedup.lruList, uploadDedup.lruList.root, uploadDedup.lruList.elems
      ensures uploadDedup.Valid() && known == (key in old(uploadDedup.Keys()))
      ensures uploadDedup.Keys() == Recency.Added(old(uploadDedup.Keys()), key, uploadDedup.capacity)
    {
      known := uploadDedup.Exists(key);
      if !known {
        uploadDedup.Add(key);
      }
    }

    method Acknowledge(conn: Connection, table: array<bv16>, factory: Frame.MsgFactory, msgId: uint16, reaction: Reaction,
                       ackTime: uint32) returns (written: bool)
      requires Crc.IsTable(table) && factory.idGen.Valid()
      modifies conn, factory.idGen
      ensures factory.idGen.Valid()
      ensures match CodeOf(reaction)
              case None => conn.sent == old(conn.sent)
              case Some(code) =>
                var ack := AckFrame(TYPE_UPLOAD_ACK, msgId, code, factory.idGen.issued % 0x1_0000, ackTime);
                Sends(old(conn.sent), conn.sent, AckOutput(ack), written)
      ensures old(conn.sent) <= conn.sent && conn.broken == if written then old(conn.broken) else old(conn.broken) + 1
      ensures reaction.Empty? ==> written && conn.sent == old(conn.sent)
      ensures written && conn.sent != old(conn.sent) ==>
                var d := Frame.Decode(conn.sent[|old(conn.sent)|..]);
                && d.Decoded? && d.rest == []
                && d.frame.(payload := []) == Frame.Frame(0x4E59, 1, 0, 4, factory.idGen.issued % 0x1_0000, 3, ackTime, [])
                && DecodeAck(d.frame.payload) == Parsed(Ack(msgId, if reaction.Duplicate? || reaction.Saved? then 1 else 2), [])
      ensures written && conn.sent == old(conn.sent) && !reaction.Empty? ==>
                Crc.Checksum(Frame.Body(AckFrame(4, msgId, if reaction.Duplicate? || reaction.Saved? then 1 else 2,
                                                 factory.idGen.issued % 0x1_0000, ackTime))) == 0
    {
      hide AckOutput, AckFrame, DecodeAck, Frame.Decode, Frame.Body, Crc.Checksum;
      var code := CodeOf(reaction);
      written := true;
      if code.Some? {
        written := conn.SendAck(table, factory, TYPE_UPLOAD_ACK, msgId, code.value, ackTime);
      }
    }

    /** A payload already known: nothing is parsed or saved. */
    method Repeat(sn: bytes, payload: bytes, now: int) returns (effect: Effect)
      ensures effect.reaction == Duplicate && Reacts(effect, true, sn, payload, now)
      ensures Apply(store.Contents(), effect.save) == store.Contents() && effect.pushed == map[]
    {
      UpsertNone(store.devices, sn, Seen([]), now);
      effect := Effect(Duplicate, Save(sn, [], now, false, {}), map[]);
    }

    /** A payload seen for the first time: parse, save unless empty, and group for the output routes. */
    method SaveUpload(sn: bytes, payload: bytes, now: int) returns (effect: Effect)
      modifies store
      ensures Reacts(effect, false, sn, payload, now)
      ensures store.Contents() == Apply(old(store.Contents()), effect.save)
      ensures var p := DecodeUpload([], payload);
              effect.reaction == if p.error.Some? then Unparsable
                                 else if p.readings == [] then Empty
                                 else if store.refused == old(store.refused) then Saved
                                 else SaveFailed
      ensures effect.reaction.Saved? || effect.reaction.SaveFailed? ==>
                effect.save.(inserted := false, done := {}) == Save(sn, DecodeUpload([], payload).readings, now, false, {})
      ensures effect.pushed == if effect.reaction.Saved? then ByName(DecodeUpload([], payload).readings) else map[]
      ensures store.refused == if effect.reaction.SaveFailed? then old(store.refused) + 1 else old(store.refused)
      ensures effect.reaction.Unparsable? || effect.reaction.Empty? ==> store.Contents() == old(store.Contents())
    {
      hide DecodeUpload;
      UpsertNone(store.devices, sn, Seen([]), now);
      var upload := new UploadPayload([]);
      var err := upload.Decode(payload);
      if err.Some? {
        return Effect(Unparsable, Save(sn, [], now, false, {}), map[]);
      }
      if |upload.readings| == 0 {
        return Effect(Empty, Save(sn, [], now, false, {}), map[]);
      }
      var failure, save := store.SaveReadings(sn, upload.readings, now);
      if failure.Some? {
        return Effect(SaveFailed, save, map[]);
      }
      var pushed := GroupReadings(upload.readings);
      effect := Effect(Saved, save, pushed);
    }
  }
}
