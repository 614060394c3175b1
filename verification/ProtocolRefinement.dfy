/**
 The steps of the interleaved protocol do what the contracts of the server's handler and
 of the client's upload arm say, when nothing comes in between.
 */
module ProtocolRefinement {
  import opened Bytes
  import opened Payload
  import opened PayloadProperties
  import opened Recency
  import opened ClientStore
  import opened Protocol
  import DeviceIndex
  import Frame
  import Server
  import Client

  // ---- The server's handler ----

  /** How the save step went, given what the handler did. */
  function ResultOf(e: Server.Effect): SaveResult {
    SaveResult(e.save.now, e.save.inserted, e.save.done)
  }

  /** A handler's steps for its next request, one right after the other. */
  function Handled(env: Env, s: State, c: nat, result: SaveResult): State
    requires c in s.conns && s.conns[c].handler.Free? && s.conns[c].requests != []
  {
    var looked := Looking(env, s, c);
    if looked.conns[c].handler.Free? then looked else Finishing(Inserting(env, looked, c), c, result)
  }

  /** Which are steps of runs: each is enabled after the one before it, whatever the save statements did. */
  lemma HandledIsRun(env: Env, s: State, c: nat, result: SaveResult)
    requires c in s.conns && s.conns[c].handler.Free? && s.conns[c].requests != []
    ensures var t := Looking(env, s, c);
            && IsStep(env, s, Look(c), t)
            && if KeyOf(env, s.conns[c].requests[0].upload) in s.hub.keys then Handled(env, s, c, result) == t
               else
                 && c in t.conns && t.conns[c].handler.Missed? && IsStep(env, t, Insert(c), Inserting(env, t, c))
                 && IsStep(env, Inserting(env, t, c), Finish(c, result), Handled(env, s, c, result))
  {
    hide KeyOf, Finishing, Added, Hit, IsStep;
    HandlerSteps(env, s, c, result);
    var t := Looking(env, s, c);
    if t.conns[c].handler.Missed? {
      HandlerSteps(env, t, c, result);
      HandlerSteps(env, Inserting(env, t, c), c, result);
    }
  }

  lemma HandlerSteps(env: Env, s: State, c: nat, result: SaveResult)
    requires c in s.conns
    ensures s.conns[c].handler.Free? && s.conns[c].requests != [] ==> IsStep(env, s, Look(c), Looking(env, s, c))
    ensures s.conns[c].handler.Missed? ==> IsStep(env, s, Insert(c), Inserting(env, s, c))
    ensures s.conns[c].handler.Owes? ==> IsStep(env, s, Finish(c, result), Finishing(s, c, result))
  {
    hide Looking, Inserting, Finishing;
  }

  function AckFor(e: Server.Effect, request: Request): seq<AckMsg> {
    match Server.CodeOf(e.reaction)
    case None => []
    case Some(code) => [AckMsg(code, request)]
  }

  /** What the handler's contract says of cache, store and connection. */
  predicate HandledAs(env: Env, s: State, c: nat, e: Server.Effect, s': State)
    requires c in s.conns && s.conns[c].requests != []
  {
    var k, request := s.conns[c], s.conns[c].requests[0];
    var u := request.upload;
    && s'.gateways == s.gateways && c in s'.conns && s'.conns == s.conns[c := s'.conns[c]]
    && s'.conns[c].handler.Free? && s'.conns[c].requests == k.requests[1..]
    && s'.conns[c].acks == k.acks + AckFor(e, request)
    && s'.hub.keys == Added(s.hub.keys, KeyOf(env, u), env.capacity)
    && s'.hub.attempts == (if e.reaction.SaveFailed? || e.reaction.Saved? then s.hub.attempts + multiset{u} else s.hub.attempts)
    && s'.hub.saved == (if e.save.inserted then s.hub.saved + {u} else s.hub.saved)
    && s'.hub.saves == (if e.reaction.SaveFailed? || e.reaction.Saved? then s.hub.saves + [e.save] else s.hub.saves)
  }

  /** The handler's steps together have the effect of its contract. */
  lemma HandlerRefines(env: Env, s: State, c: nat, e: Server.Effect)
    requires c in s.conns && s.conns[c].handler.Free? && s.conns[c].requests != []
    requires var u := s.conns[c].requests[0].upload;
             Server.Reacts(e, KeyOf(env, u) in s.hub.keys, u.sn, u.payload, e.save.now)
    ensures HandledAs(env, s, c, e, Handled(env, s, c, ResultOf(e)))
  {
    hide *;
    if KeyOf(env, s.conns[c].requests[0].upload) in s.hub.keys {
      HandlerRepeats(env, s, c, e);
    } else {
      HandlerSaves(env, s, c, e);
    }
  }

  /**
   And what the handler writes to the connection is the acknowledgement queued: `output`, being what its contract
   says, carries the code and the message id of the request handled.
   */
  lemma AckRefines(env: Env, s: State, c: nat, e: Server.Effect, message: Frame.Frame, output: bytes)
    requires c in s.conns && s.conns[c].handler.Free? && s.conns[c].requests != []
    requires var u := s.conns[c].requests[0].upload;
             && Server.Reacts(e, KeyOf(env, u) in s.hub.keys, u.sn, u.payload, e.save.now)
             && message.payload == u.payload && message.msgId == s.conns[c].requests[0].MsgId()
    requires e.reaction.Empty? ==> output == []
    requires output != [] ==>
               var d := Frame.Decode(output);
               d.Decoded? && DecodeAck(d.frame.payload) ==
                             Parsed(Ack(message.msgId, if e.reaction.Duplicate? || e.reaction.Saved? then 1 else 2), [])
    ensures var k, k' := s.conns[c], Handled(env, s, c, ResultOf(e)).conns[c];
            && k'.acks == k.acks + (if e.reaction.Empty? then []
                                    else [AckMsg(if e.reaction.Duplicate? || e.reaction.Saved? then 1 else 2, k.requests[0])])
            && (output != [] ==>
                  var a := k'.acks[|k.acks|];
                  a.request.upload.payload == message.payload
                  && DecodeAck(Frame.Decode(output).frame.payload) == Parsed(Ack(a.request.serial % 0x1_0000, a.code), []))
  {
    assert s.conns[c].requests[0].MsgId() == s.conns[c].requests[0].serial % 0x1_0000;
    AckForCodes(e, s.conns[c].requests[0]);
    HandlerRefines(env, s, c, e);
    hide DecodeAck, Frame.Decode, Handled, AckFor, KeyOf, Server.Reacts;
  }

  lemma AckForCodes(e: Server.Effect, request: Request)
    ensures AckFor(e, request) == if e.reaction.Empty? then []
                                  else [AckMsg(if e.reaction.Duplicate? || e.reaction.Saved? then 1 else 2, request)]
  {}

  lemma HandlerRepeats(env: Env, s: State, c: nat, e: Server.Effect)
    requires c in s.conns && s.conns[c].handler.Free? && s.conns[c].requests != []
    requires KeyOf(env, s.conns[c].requests[0].upload) in s.hub.keys
    requires var u := s.conns[c].requests[0].upload; Server.Reacts(e, true, u.sn, u.payload, e.save.now)
    ensures HandledAs(env, s, c, e, Handled(env, s, c, ResultOf(e)))
  {
    hide KeyOf, DecodeUpload, Finishing, Inserting, ResultOf, DeviceIndex.Seen;
  }

  lemma HandlerSaves(env: Env, s: State, c: nat, e: Server.Effect)
    requires c in s.conns && s.conns[c].handler.Free? && s.conns[c].requests != []
    requires KeyOf(env, s.conns[c].requests[0].upload) !in s.hub.keys
    requires var u := s.conns[c].requests[0].upload; Server.Reacts(e, false, u.sn, u.payload, e.save.now)
    ensures HandledAs(env, s, c, e, Handled(env, s, c, ResultOf(e)))
  {
    hide KeyOf, DecodeUpload, DeviceIndex.Seen;
    FinishAs(Inserting(env, Looking(env, s, c), c), c, e);
    hide Finishing, AckFor, ResultOf, Server.Reacts;
  }

  lemma SaveOfEffect(save: DeviceIndex.Save)
    requires DeviceIndex.Possible(save)
    ensures SaveOf(save.sn, save.rs, SaveResult(save.now, save.inserted, save.done)) == save
  {
    hide DeviceIndex.Seen;
  }

  lemma FinishAs(s: State, c: nat, e: Server.Effect)
    requires c in s.conns && s.conns[c].handler.Owes?
    requires var u := s.conns[c].handler.request.upload; Server.Reacts(e, false, u.sn, u.payload, e.save.now)
    ensures var s', k, request := Finishing(s, c, ResultOf(e)), s.conns[c], s.conns[c].handler.request;
            var tried := e.reaction.SaveFailed? || e.reaction.Saved?;
            && s'.gateways == s.gateways && s'.hub.keys == s.hub.keys && c in s'.conns && s'.conns == s.conns[c := s'.conns[c]]
            && s'.conns[c].handler.Free? && s'.conns[c].requests == k.requests && s'.conns[c].acks == k.acks + AckFor(e, request)
            && s'.hub.attempts == (if tried then s.hub.attempts + multiset{request.upload} else s.hub.attempts)
            && s'.hub.saved == (if e.save.inserted then s.hub.saved + {request.upload} else s.hub.saved)
            && s'.hub.saves == (if tried then s.hub.saves + [e.save] else s.hub.saves)
  {
    SaveOfEffect(e.save);
    hide DecodeUpload, SaveOf, DeviceIndex.Seen, DeviceIndex.Possible;
    assert s.conns[c].acks + [] == s.conns[c].acks;
  }

  // ---- The client's upload arm ----

  /** `request` is the one request that `s'` has and `s` had not, at the end of the gateway's connection. */
  predicate Queued(s: State, sn: Sn, s': State, request: Request)
    requires Connected(s, sn)
  {
    var c := s.gateways[sn].conn.value;
    c in s'.conns && s'.conns[c].requests == s.conns[c].requests + [request]
  }

  /** Sending queues the next batch's bytes, under the number of the message built for it. */
  lemma RequestRefines(env: Env, s: State, sn: Sn, write: WriteResult)
    requires CanSend(env, s, sn)
    ensures var g := s.gateways[sn];
            Queued(s, sn, Transmitting(env, s, sn, write), Request(Upload(sn, UploadBytes(ReadingsOf(BatchOf(env, g)))), g.built + 1))
  {
    hide UploadBytes, AllFit, BatchOf, ReadingsOf, MarkBatch;
  }

  /** The upload frame with a request's serial and readings decodes to its payload and message id, and that to the readings. */
  lemma RequestOnWire(request: Request, rs: seq<Reading>, now: uint32)
    requires FirstOversize(rs) == None && |UploadBytes(rs)| <= 65535 && request.upload.payload == UploadBytes(rs)
    ensures var d := Frame.Decode(Frame.Encoding(Client.UploadFrame(rs, request.serial, now)));
            && d.Decoded? && d.rest == [] && d.frame.kind == 3
            && d.frame.payload == request.upload.payload && d.frame.msgId == request.serial % 0x1_0000
            && DecodeUpload([], request.upload.payload) == Progress(rs, None, [])
  {
    Client.UploadOnWire(rs, request.serial, now);
    hide Frame.Decode, Frame.Encoding, DecodeUpload, UploadBytes, FirstOversize, Client.UploadFrame;
  }

  /** What is sent can be encoded, and fits one frame. */
  lemma SendableFits(env: Env, s: State, sn: Sn)
    requires CanSend(env, s, sn)
    ensures var rs := ReadingsOf(BatchOf(env, s.gateways[sn])); FirstOversize(rs) == None && |UploadBytes(rs)| <= 65535
  {
    FitsIff(ReadingsOf(BatchOf(env, s.gateways[sn])));
    hide UploadBytes, AllFit, BatchOf, ReadingsOf, FirstOversize;
  }

  /** The step that starts an upload, for each way it can go. */
  function Started(env: Env, s: State, sn: Sn, o: Client.Outcome): State
    requires Connected(s, sn) && (Client.WasSending(o) ==> CanSend(env, s, sn))
  {
    match o
    case Nothing => s
    case BuildRefused(stored) => Refusing(env, s, sn, stored)
    case SendingNotMarked => SetGateway(s, sn, s.gateways[sn].(built := s.gateways[sn].built + 1, conn := None))
    case WriteFailed(stored) => Transmitting(env, s, sn, Broken(stored))
    case _ => Transmitting(env, s, sn, Written)
  }

  /** Which is a step of runs, or two for a batch that could not be marked: its message was built, and the session ends. */
  lemma StartedIsRun(env: Env, s: State, sn: Sn, o: Client.Outcome)
    requires Connected(s, sn) && s.gateways[sn].phase.Idle? && (Client.WasSending(o) ==> CanSend(env, s, sn))
    requires o.BuildRefused? ==> !AllFit(ReadingsOf(BatchOf(env, s.gateways[sn])))
    ensures match o
            case Nothing => true
            case BuildRefused(stored) => IsStep(env, s, Refuse(sn, stored), Started(env, s, sn, o))
            case SendingNotMarked =>
              Enabled(env, s, Build(sn)) && IsStep(env, Next(env, s, Build(sn)), Leave(sn), Started(env, s, sn, o))
            case WriteFailed(stored) => IsStep(env, s, Send(sn, Broken(stored)), Started(env, s, sn, o))
            case _ => IsStep(env, s, Send(sn, Written), Started(env, s, sn, o))
  {
    hide Transmitting, Refusing, AllFit, BatchOf, UploadBytes;
  }

  /** The outcome can be reached in `t`: an acknowledgement with that code is there to be taken. */
  predicate Concludes(t: State, sn: Sn, o: Client.Outcome) {
    o.Acked? ==> CanAnswer(t, sn) && Link(t, sn).acks[0].code == o.code
  }

  /** The step that ends the wait. */
  function Concluded(t: State, sn: Sn, o: Client.Outcome): State
    requires Connected(t, sn) && Concludes(t, sn, o)
    requires o.Acked? || o.TimedOut? || o.Cancelled? ==> t.gateways[sn].phase.Waiting?
  {
    match o
    case Acked(_, stored) => Answering(t, sn, stored)
    case TimedOut(stored) => TimingOut(t, sn, stored)
    case Cancelled => SetGateway(t, sn, t.gateways[sn].(phase := Idle, conn := None))
    case _ => t
  }

  /** Also a step of runs. */
  lemma ConcludedIsStep(env: Env, t: State, sn: Sn, o: Client.Outcome)
    requires Connected(t, sn) && t.gateways[sn].phase.Waiting? && Concludes(t, sn, o)
    ensures match o
            case Acked(_, stored) => IsStep(env, t, Answer(sn, stored), Concluded(t, sn, o))
            case TimedOut(stored) => IsStep(env, t, Timeout(sn, stored), Concluded(t, sn, o))
            case Cancelled => IsStep(env, t, Cancel(sn), Concluded(t, sn, o))
            case _ => true
  {
    hide Answering, TimingOut;
  }

  lemma SameIds(rows: seq<Row>)
    ensures (set r | r in ReadingsOf(rows) :: r.id) == IdsOf(rows)
  {
    var rs := ReadingsOf(rows);
    forall r | r in rows
      ensures r.reading in rs
    {
      var i :| 0 <= i < |rows| && rows[i] == r;
      assert rs[i] == r.reading;
    }
    forall r | r in rs
      ensures r.id in IdsOf(rows)
    {
      var i :| 0 <= i < |rs| && rs[i] == r;
      assert rows[i] in rows;
    }
  }

  lemma MarkedAlike(env: Env, g: Gateway, rows: seq<Row>, status: UploadStatus)
    ensures MarkBatch(g.(rows := rows), ReadingsOf(BatchOf(env, g)), status) == Mark(rows, IdsOf(BatchOf(env, g)), status)
  {
    SameIds(BatchOf(env, g));
    hide Mark, IdsOf, ReadingsOf, BatchOf;
  }

  /** What an upload does to its gateway: the rows, the timeout counter, and whether the session goes on. */
  predicate EndsAs(g: Gateway, ids: set<int64>, o: Client.Outcome, g': Gateway) {
    && g'.phase.Idle?
    && g'.rows == Client.RowsAfter(g.rows, ids, o)
    && g'.timeouts == Client.TimeoutsAfter(g.timeouts, o)
    && (g'.conn == None <==> Client.ErrorOf(o).Some? || g'.timeouts >= Client.MAX_CONSECUTIVE_ALL_TIMEOUT)
  }

  /** Uploads that end before anything is waited for. */
  lemma BrokenUploadRefines(env: Env, s: State, sn: Sn, o: Client.Outcome)
    requires Connected(s, sn) && s.gateways[sn].phase.Idle? && (Client.WasSending(o) ==> CanSend(env, s, sn))
    requires o.BuildRefused? || o.SendingNotMarked? || o.WriteFailed?
    ensures var g := s.gateways[sn]; EndsAs(g, IdsOf(BatchOf(env, g)), o, Started(env, s, sn, o).gateways[sn])
  {
    var g := s.gateways[sn];
    MarkedAlike(env, g, g.rows, ClientStore.Failed);
    MarkedAlike(env, g, g.rows, ClientStore.Sending);
    MarkTwice(g.rows, IdsOf(BatchOf(env, g)), ClientStore.Sending, ClientStore.Failed);
    assert g.(rows := g.rows) == g;
    hide MarkBatch, Mark, BatchOf, IdsOf, UploadBytes, AllFit;
  }

  lemma MarkTwice(rows: seq<Row>, ids: set<int64>, first: UploadStatus, last: UploadStatus)
    ensures Mark(Mark(rows, ids, first), ids, last) == Mark(rows, ids, last)
  {}

  /** Uploads that wait: whatever happens meanwhile elsewhere, the end is that of the contract. */
  lemma WaitedUploadRefines(env: Env, s: State, sn: Sn, o: Client.Outcome, t: State)
    requires CanSend(env, s, sn) && (o.Acked? || o.TimedOut? || o.Cancelled?)
    requires s.gateways[sn].timeouts < Client.MAX_CONSECUTIVE_ALL_TIMEOUT
    requires Connected(t, sn) && t.gateways[sn] == Started(env, s, sn, o).gateways[sn] && Concludes(t, sn, o)
    ensures var g := s.gateways[sn]; EndsAs(g, IdsOf(BatchOf(env, g)), o, Concluded(t, sn, o).gateways[sn])
  {
    var g, waiting := s.gateways[sn], t.gateways[sn];
    StartedWaits(env, s, sn, o);
    hide *;
    WaitsFor(env, s, sn, waiting);
    EndOfWait(t, sn, o, g.rows, IdsOf(BatchOf(env, g)));
    EndsAlike(g, IdsOf(BatchOf(env, g)), o, waiting, Concluded(t, sn, o).gateways[sn]);
  }

  lemma StartedWaits(env: Env, s: State, sn: Sn, o: Client.Outcome)
    requires CanSend(env, s, sn) && (o.Acked? || o.TimedOut? || o.Cancelled?)
    ensures Started(env, s, sn, o) == Transmitting(env, s, sn, Written)
  {
    hide Transmitting, CanSend;
  }

  lemma WaitsFor(env: Env, s: State, sn: Sn, waiting: Gateway)
    requires CanSend(env, s, sn) && waiting == Transmitting(env, s, sn, Written).gateways[sn]
    ensures var g := s.gateways[sn];
            var ids := IdsOf(BatchOf(env, g));
            && waiting.phase.Waiting? && waiting.timeouts == g.timeouts && waiting.rows == Mark(g.rows, ids, ClientStore.Sending)
            && MarkBatch(waiting, waiting.phase.batch, Sent) == Mark(waiting.rows, ids, Sent)
            && MarkBatch(waiting, waiting.phase.batch, NotSent) == Mark(waiting.rows, ids, NotSent)
  {
    WaitingBatch(env, s, sn, waiting);
    hide *;
    var g := s.gateways[sn];
    assert g.(rows := g.rows) == g;
    MarkedAlike(env, g, g.rows, ClientStore.Sending);
    MarkedAlike(env, g, waiting.rows, Sent);
    MarkedAlike(env, g, waiting.rows, NotSent);
  }

  lemma EndOfWait(t: State, sn: Sn, o: Client.Outcome, rows: seq<Row>, ids: set<int64>)
    requires Connected(t, sn) && Concludes(t, sn, o) && (o.Acked? || o.TimedOut? || o.Cancelled?)
    requires t.gateways[sn].phase.Waiting? && t.gateways[sn].rows == Mark(rows, ids, ClientStore.Sending)
    requires t.gateways[sn].timeouts < Client.MAX_CONSECUTIVE_ALL_TIMEOUT
    requires MarkBatch(t.gateways[sn], t.gateways[sn].phase.batch, Sent) == Mark(t.gateways[sn].rows, ids, Sent)
    requires MarkBatch(t.gateways[sn], t.gateways[sn].phase.batch, NotSent) == Mark(t.gateways[sn].rows, ids, NotSent)
    ensures var w, g' := t.gateways[sn], Concluded(t, sn, o).gateways[sn];
            && g'.phase.Idle? && g'.rows == Client.RowsAfter(rows, ids, o)
            && g'.timeouts == Client.TimeoutsAfter(w.timeouts, o)
            && (g'.conn == None <==> Client.ErrorOf(o).Some? || g'.timeouts >= Client.MAX_CONSECUTIVE_ALL_TIMEOUT)
  {
    hide MarkBatch, Mark;
  }

  lemma EndsAlike(g: Gateway, ids: set<int64>, o: Client.Outcome, waiting: Gateway, g': Gateway)
    requires waiting.timeouts == g.timeouts
    requires && g'.phase.Idle? && g'.rows == Client.RowsAfter(g.rows, ids, o)
             && g'.timeouts == Client.TimeoutsAfter(waiting.timeouts, o)
             && (g'.conn == None <==> Client.ErrorOf(o).Some? || g'.timeouts >= Client.MAX_CONSECUTIVE_ALL_TIMEOUT)
    ensures EndsAs(g, ids, o, g')
  {}

  lemma WaitingBatch(env: Env, s: State, sn: Sn, waiting: Gateway)
    requires CanSend(env, s, sn) && waiting == Transmitting(env, s, sn, Written).gateways[sn]
    ensures var g := s.gateways[sn];
            && waiting.phase.Waiting? && waiting.phase.batch == ReadingsOf(BatchOf(env, g))
            && waiting.conn == g.conn && waiting.timeouts == g.timeouts
            && waiting.rows == MarkBatch(g, ReadingsOf(BatchOf(env, g)), ClientStore.Sending)
            && forall status :: MarkBatch(waiting, waiting.phase.batch, status) == MarkBatch(g.(rows := waiting.rows), waiting.phase.batch, status)
  {
    hide Mark, BatchOf, UploadBytes, AllFit;
  }
}
