/**
 Clients, connections and the server as interleaved steps: sessions come and go, requests
 and acknowledgements are lost or late, and the handlers of all connections share one
 deduplication cache. A handler takes three steps of its own: look the key up, insert it,
 save. Frames carry the message id `serial % 65536`; the full serial is kept as history.
 */
module Protocol {
  import opened Bytes
  import opened Payload
  import opened PayloadProperties
  import opened Recency
  import opened ClientStore
  import Dedup
  import DeviceIndex
  import Server
  import Client

  type Sn = bytes

  /** The hash, the cache capacity and the batch size. */
  datatype Env = Env(hash: bytes -> bytes, capacity: nat, limit: nat)

  /** One payload of one gateway: what the deduplication cache tells apart. */
  datatype Upload = Upload(sn: Sn, payload: bytes)

  /** An upload frame; its message id is `serial % 65536`. */
  datatype Request = Request(upload: Upload, serial: nat) {
    function MsgId(): uint16 {
      serial % 0x1_0000
    }
  }

  /** An acknowledgement carries the message id of the request it answers. */
  datatype AckMsg = AckMsg(code: byte, request: Request)

  datatype Phase = Idle | Waiting(request: Request, batch: seq<Reading>)

  /** `built` counts the messages built in the current session. */
  datatype Gateway = Gateway(rows: seq<Row>, nextId: int64, phase: Phase, conn: Option<nat>, built: nat, timeouts: nat)

  datatype Handler = Free | Missed(request: Request) | Owes(request: Request)

  /** `sent` is every request of the session by serial; `okSent` and `marked` count Ok acks emitted and batches marked Sent. */
  datatype Conn = Conn(sn: Sn, requests: seq<Request>, acks: seq<AckMsg>, handler: Handler,
                       sent: map<nat, Request>, okSent: nat, marked: nat)

  /**
   The server's cache, what was done to its store, and history: uploads accepted for processing,
   stored, and not stored after all; save attempts; keys inserted into the cache, evicted from it,
   and inserted again while there; every payload ever sent.
   */
  datatype Hub = Hub(keys: seq<Dedup.Key>, accepted: set<Upload>, saved: set<Upload>, failed: set<Upload>,
                     saves: seq<DeviceIndex.Save>, attempts: multiset<Upload>, inserted: multiset<Dedup.Key>,
                     evicted: multiset<Dedup.Key>, reinserted: multiset<Dedup.Key>, payloads: set<bytes>)

  datatype State = State(gateways: map<Sn, Gateway>, conns: map<nat, Conn>, hub: Hub)

  function KeyOf(env: Env, u: Upload): Dedup.Key {
    Server.UploadKey(env.hash, u.sn, u.payload)
  }

  // ---- Steps ----

  /** When the rows were saved, whether the insert went through, and which devices' upserts did. */
  datatype SaveResult = SaveResult(now: int, inserted: bool, done: set<bytes>)

  function SaveOf(sn: Sn, rs: seq<Reading>, result: SaveResult): (save: DeviceIndex.Save)
    ensures DeviceIndex.Possible(save)
  {
    DeviceIndex.Save(sn, rs, result.now, result.inserted,
                     if result.inserted then result.done * DeviceIndex.Seen(rs).Keys else {})
  }

  /** A broken write may still deliver the request; `stored` tells whether the failure was recorded. */
  datatype WriteResult = Written | Broken(stored: bool)

  datatype Step =
    | Join(sn: Sn)                                // a new gateway with an empty table
    | Collect(sn: Sn, rs: seq<Reading>)           // readings arrive in its table
    | Connect(sn: Sn, c: nat)                     // a session starts on a fresh connection
    | Build(sn: Sn)                               // a heartbeat or notification takes a message id
    | Refuse(sn: Sn, stored: bool)                // the next batch cannot be encoded
    | Send(sn: Sn, write: WriteResult)            // the upload arm sends the next batch
    | Answer(sn: Sn, stored: bool)                // it takes the first waiting acknowledgement
    | Timeout(sn: Sn, stored: bool)               // or gives up waiting
    | Cancel(sn: Sn)                              // or is cancelled while waiting
    | Leave(sn: Sn)                               // the session ends at the loop head
    | Look(c: nat)                                // a handler takes a request and looks its key up
    | Insert(c: nat)                              // it inserts the key it missed
    | Finish(c: nat, result: SaveResult)          // it parses, saves and acknowledges
    | LoseRequests(c: nat, n: nat)                // all but the first n requests are lost
    | LoseAck(c: nat, i: nat)                     // one acknowledgement is lost

  function BatchOf(env: Env, g: Gateway): seq<Row> {
    Pending(g.rows, env.limit)
  }

  predicate Connected(s: State, sn: Sn) {
    sn in s.gateways && s.gateways[sn].conn.Some? && s.gateways[sn].conn.value in s.conns
  }

  function Link(s: State, sn: Sn): Conn
    requires Connected(s, sn)
  {
    s.conns[s.gateways[sn].conn.value]
  }

  /** A batch is waiting, its strings can be encoded and its payload fits one frame. */
  predicate CanSend(env: Env, s: State, sn: Sn) {
    Connected(s, sn) && s.gateways[sn].phase.Idle? && BatchOf(env, s.gateways[sn]) != []
    && var batch := ReadingsOf(BatchOf(env, s.gateways[sn]));
       AllFit(batch) && |UploadBytes(batch)| <= 65535
  }

  predicate CanAnswer(s: State, sn: Sn) {
    Connected(s, sn) && s.gateways[sn].phase.Waiting? && Link(s, sn).acks != []
  }

  predicate Enabled(env: Env, s: State, step: Step) {
    match step
    case Join(sn) => sn !in s.gateways
    case Collect(sn, rs) => sn in s.gateways && s.gateways[sn].nextId + |rs| <= LAST_ID
    case Connect(sn, c) => sn in s.gateways && s.gateways[sn].conn == None && c !in s.conns
    case Build(sn) => Connected(s, sn) && s.gateways[sn].phase.Idle?
    case Refuse(sn, _) => Connected(s, sn) && s.gateways[sn].phase.Idle? && !AllFit(ReadingsOf(BatchOf(env, s.gateways[sn])))
    case Send(sn, _) => CanSend(env, s, sn)
    case Answer(sn, _) => CanAnswer(s, sn)
    case Timeout(sn, _) => Connected(s, sn) && s.gateways[sn].phase.Waiting?
    case Cancel(sn) => Connected(s, sn) && s.gateways[sn].phase.Waiting?
    case Leave(sn) => Connected(s, sn) && s.gateways[sn].phase.Idle?
    case Look(c) => c in s.conns && s.conns[c].handler.Free? && s.conns[c].requests != []
    case Insert(c) => c in s.conns && s.conns[c].handler.Missed?
    case Finish(c, _) => c in s.conns && s.conns[c].handler.Owes?
    case LoseRequests(c, n) => c in s.conns && n <= |s.conns[c].requests|
    case LoseAck(c, i) => c in s.conns && i < |s.conns[c].acks|
  }

  function SetGateway(s: State, sn: Sn, g: Gateway): State {
    s.(gateways := s.gateways[sn := g])
  }

  function SetConn(s: State, c: nat, k: Conn): State {
    s.(conns := s.conns[c := k])
  }

  function MarkBatch(g: Gateway, batch: seq<Reading>, status: UploadStatus): seq<Row> {
    Mark(g.rows, set r | r in batch :: r.id, status)
  }

  function Refusing(env: Env, s: State, sn: Sn, stored: bool): State
    requires sn in s.gateways
  {
    var g := s.gateways[sn];
    var rows := if stored then MarkBatch(g, ReadingsOf(BatchOf(env, g)), ClientStore.Failed) else g.rows;
    SetGateway(s, sn, g.(rows := rows, conn := None))
  }

  function Transmitting(env: Env, s: State, sn: Sn, write: WriteResult): State
    requires CanSend(env, s, sn)
  {
    var g, k := s.gateways[sn], Link(s, sn);
    var batch := ReadingsOf(BatchOf(env, g));
    var request := Request(Upload(sn, UploadBytes(batch)), g.built + 1);
    var g' := match write
              case Written =>
                g.(rows := MarkBatch(g, batch, ClientStore.Sending), phase := Waiting(request, batch), built := g.built + 1)
              case Broken(stored) =>
                g.(rows := MarkBatch(g, batch, if stored then ClientStore.Failed else ClientStore.Sending),
                   conn := None, built := g.built + 1);
    var k' := k.(requests := k.requests + [request], sent := k.sent[request.serial := request]);
    State(s.gateways[sn := g'], s.conns[g.conn.value := k'], s.hub.(payloads := s.hub.payloads + {request.upload.payload}))
  }

  function Answering(s: State, sn: Sn, stored: bool): State
    requires CanAnswer(s, sn)
  {
    var g, k := s.gateways[sn], Link(s, sn);
    var ok := k.acks[0].code == Server.OK;
    var rows := if stored then MarkBatch(g, g.phase.batch, if ok then Sent else NotSent) else g.rows;
    var g' := g.(rows := rows, phase := Idle, timeouts := if ok then 0 else g.timeouts);
    var k' := k.(acks := k.acks[1..], marked := if ok then k.marked + 1 else k.marked);
    State(s.gateways[sn := g'], s.conns[g.conn.value := k'], s.hub)
  }

  function TimingOut(s: State, sn: Sn, stored: bool): State
    requires Connected(s, sn) && s.gateways[sn].phase.Waiting?
  {
    var g := s.gateways[sn];
    var rows := if stored then MarkBatch(g, g.phase.batch, NotSent) else g.rows;
    var timeouts := g.timeouts + 1;
    var conn := if timeouts >= Client.MAX_CONSECUTIVE_ALL_TIMEOUT then None else g.conn;
    SetGateway(s, sn, g.(rows := rows, phase := Idle, timeouts := timeouts, conn := conn))
  }

  /** An emitted acknowledgement goes to the end of the connection's queue. */
  function Acked(k: Conn, request: Request, code: byte): Conn {
    k.(acks := k.acks + [AckMsg(code, request)], okSent := if code == Server.OK then k.okSent + 1 else k.okSent)
  }

  function Looking(env: Env, s: State, c: nat): State
    requires c in s.conns && s.conns[c].handler.Free? && s.conns[c].requests != []
  {
    var k := s.conns[c];
    var request := k.requests[0];
    var key := KeyOf(env, request.upload);
    var rest := k.(requests := k.requests[1..]);
    var k' := if key in s.hub.keys then Acked(rest, request, Server.OK) else rest.(handler := Missed(request));
    State(s.gateways, s.conns[c := k'], s.hub.(keys := Hit(s.hub.keys, key)))
  }

  function Inserting(env: Env, s: State, c: nat): State
    requires c in s.conns && s.conns[c].handler.Missed?
  {
    var k := s.conns[c];
    var u := k.handler.request.upload;
    var key := KeyOf(env, u);
    var keys := Added(s.hub.keys, key, env.capacity);
    var full := [key] + s.hub.keys;
    var evicts := key !in s.hub.keys && |full| > env.capacity;
    var hub := s.hub.(keys := keys, accepted := s.hub.accepted + {u},
                      inserted := if key in s.hub.keys then s.hub.inserted else s.hub.inserted + multiset{key},
                      evicted := if evicts then s.hub.evicted + multiset{full[|full| - 1]} else s.hub.evicted,
                      reinserted := if key in s.hub.keys then s.hub.reinserted + multiset{key} else s.hub.reinserted);
    State(s.gateways, s.conns[c := k.(handler := Owes(k.handler.request))], hub)
  }

  function Finishing(s: State, c: nat, result: SaveResult): State
    requires c in s.conns && s.conns[c].handler.Owes?
  {
    var k := s.conns[c];
    var request := k.handler.request;
    var u := request.upload;
    var parsed := DecodeUpload([], u.payload);
    var done := k.(handler := Free);
    if parsed.error.Some? then
      State(s.gateways, s.conns[c := Acked(done, request, Server.FAILED)], s.hub.(failed := s.hub.failed + {u}))
    else if parsed.readings == [] then
      State(s.gateways, s.conns[c := done], s.hub.(failed := s.hub.failed + {u}))
    else
      var save := SaveOf(u.sn, parsed.readings, result);
      var hub := s.hub.(saves := s.hub.saves + [save], attempts := s.hub.attempts + multiset{u});
      var complete := save.inserted && save.done == DeviceIndex.Seen(parsed.readings).Keys;
      State(s.gateways, s.conns[c := Acked(done, request, if complete then Server.OK else Server.FAILED)],
            if save.inserted then hub.(saved := hub.saved + {u}) else hub.(failed := hub.failed + {u}))
  }

  function Next(env: Env, s: State, step: Step): State
    requires Enabled(env, s, step)
  {
    match step
    case Join(sn) => SetGateway(s, sn, Gateway([], 1, Idle, None, 0, 0))
    case Collect(sn, rs) =>
      var g := s.gateways[sn];
      SetGateway(s, sn, g.(rows := g.rows + NewRows(g.nextId, rs), nextId := g.nextId + |rs|))
    case Connect(sn, c) =>
      State(s.gateways[sn := s.gateways[sn].(conn := Some(c), built := 1, timeouts := 0)],
            s.conns[c := Conn(sn, [], [], Free, map[], 0, 0)], s.hub)
    case Build(sn) => SetGateway(s, sn, s.gateways[sn].(built := s.gateways[sn].built + 1))
    case Refuse(sn, stored) => Refusing(env, s, sn, stored)
    case Send(sn, write) => Transmitting(env, s, sn, write)
    case Answer(sn, stored) => Answering(s, sn, stored)
    case Timeout(sn, stored) => TimingOut(s, sn, stored)
    case Cancel(sn) => SetGateway(s, sn, s.gateways[sn].(phase := Idle, conn := None))
    case Leave(sn) => SetGateway(s, sn, s.gateways[sn].(conn := None))
    case Look(c) => Looking(env, s, c)
    case Insert(c) => Inserting(env, s, c)
    case Finish(c, result) => Finishing(s, c, result)
    case LoseRequests(c, n) => SetConn(s, c, s.conns[c].(requests := s.conns[c].requests[..n]))
    case LoseAck(c, i) => SetConn(s, c, s.conns[c].(acks := s.conns[c].acks[..i] + s.conns[c].acks[i + 1..]))
  }

  const START := State(map[], map[], Hub([], {}, {}, {}, [], multiset{}, multiset{}, multiset{}, multiset{}, {}))

  predicate IsStep(env: Env, s: State, step: Step, s': State) {
    Enabled(env, s, step) && s' == Next(env, s, step)
  }

  ghost predicate IsRun(env: Env, states: seq<State>, steps: seq<Step>) {
    && |states| == |steps| + 1
    && states[0] == START
    && forall i | 0 <= i < |steps| :: IsStep(env, states[i], steps[i], states[i + 1])
  }
}
