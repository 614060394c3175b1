/**
 Safety of the upload protocol over every run: whatever is lost, late or interleaved,
 what a gateway believes sent was accepted by the server, what the server saved came from
 the gateway, and nobody counts more batches as sent than Ok acknowledgements exist.
 */
module ProtocolSafety {
  import opened Bytes
  import opened Payload
  import opened PayloadProperties
  import opened Recency
  import opened ClientStore
  import opened Protocol
  import Server
  import Client

  // ---- The invariant ----

  /** The readings an upload carries. */
  function Carried(u: Upload): seq<Reading> {
    DecodeUpload([], u.payload).readings
  }

  predicate Known(k: Conn, r: Request) {
    r.serial in k.sent && k.sent[r.serial] == r
  }

  function OkCount(acks: seq<AckMsg>): nat {
    if acks == [] then 0 else (if acks[0].code == Server.OK then 1 else 0) + OkCount(acks[1..])
  }

  ghost predicate ConnOk(k: Conn, hub: Hub) {
    && (forall n | n in k.sent :: k.sent[n].serial == n && k.sent[n].upload.sn == k.sn && k.sent[n].upload.payload in hub.payloads)
    && (forall r | r in k.requests :: Known(k, r))
    && (forall a | a in k.acks :: Known(k, a.request))
    && (!k.handler.Free? ==> Known(k, k.handler.request))
    && (k.handler.Owes? ==> k.handler.request.upload in hub.accepted)
    && k.marked + OkCount(k.acks) <= k.okSent
  }

  /** Every Ok acknowledgement on its way answers an accepted upload. */
  ghost predicate AcksOk(k: Conn, hub: Hub) {
    forall a | a in k.acks :: a.code == Server.OK ==> a.request.upload in hub.accepted
  }

  ghost predicate WaitingOk(sn: Sn, g: Gateway, k: Conn) {
    g.phase.Waiting? ==>
      var request, batch := g.phase.request, g.phase.batch;
      && request.serial == g.built && Known(k, request)
      && request.upload == Upload(sn, UploadBytes(batch))
      && AllFit(batch) && |batch| < 0x1_0000_0000
      && forall r | r in batch :: r in ReadingsOf(g.rows)
  }

  ghost predicate GatewayOk(sn: Sn, g: Gateway, conns: map<nat, Conn>) {
    && Ascending(g.rows)
    && (forall r | r in g.rows :: r.reading.id < g.nextId)
    && (g.phase.Waiting? ==> g.conn.Some?)
    && (g.conn.Some? ==>
          g.conn.value in conns && conns[g.conn.value].sn == sn
          && (forall n | n in conns[g.conn.value].sent :: n <= g.built)
          && WaitingOk(sn, g, conns[g.conn.value]))
  }

  predicate Owed(conns: map<nat, Conn>, u: Upload) {
    exists c | c in conns :: conns[c].handler.Owes? && conns[c].handler.request.upload == u
  }

  /** An accepted upload was saved, was not saved after all, or a handler is still about to save it. */
  predicate Settled(s: State, u: Upload) {
    u in s.hub.saved || u in s.hub.failed || Owed(s.conns, u)
  }

  ghost predicate KeysOk(env: Env, hub: Hub) {
    forall key | key in hub.keys :: exists u :: u in hub.accepted && KeyOf(env, u) == key
  }

  ghost predicate HubOk(env: Env, s: State) {
    && KeysOk(env, s.hub)
    && (forall u | u in s.hub.accepted :: u.payload in s.hub.payloads && Settled(s, u))
  }

  ghost predicate Inv(env: Env, s: State) {
    && (forall c | c in s.conns :: ConnOk(s.conns[c], s.hub))
    && (forall sn | sn in s.gateways :: GatewayOk(sn, s.gateways[sn], s.conns))
    && HubOk(env, s)
  }

  // ---- What steps leave alone ----

  ghost predicate HubGrows(hub: Hub, hub': Hub) {
    hub.accepted <= hub'.accepted && hub.payloads <= hub'.payloads && hub.saved <= hub'.saved && hub.failed <= hub'.failed
  }

  /** Connections survive with their gateway and their requests; requests owed are still owed. */
  ghost predicate ConnsKept(conns: map<nat, Conn>, conns': map<nat, Conn>) {
    forall c | c in conns ::
      c in conns' && conns'[c].sn == conns[c].sn && conns'[c].sent == conns[c].sent
  }

  lemma GatewayKept(sn: Sn, g: Gateway, conns: map<nat, Conn>, conns': map<nat, Conn>)
    requires GatewayOk(sn, g, conns) && ConnsKept(conns, conns')
    ensures GatewayOk(sn, g, conns')
  {}

  /** A step that changes one connection's queues or handler keeps the invariant if that connection and the hub do. */
  lemma OneConn(env: Env, s: State, s': State, c: nat)
    requires Inv(env, s) && s'.gateways == s.gateways
    requires c in s.conns && c in s'.conns && s'.conns == s.conns[c := s'.conns[c]]
    requires s'.conns[c].sn == s.conns[c].sn && s'.conns[c].sent == s.conns[c].sent
    requires HubGrows(s.hub, s'.hub) && ConnOk(s'.conns[c], s'.hub) && HubOk(env, s')
    ensures Inv(env, s')
  {
    hide GatewayOk, ConnOk, HubOk;
    forall sn | sn in s'.gateways
      ensures GatewayOk(sn, s'.gateways[sn], s'.conns)
    {
      GatewayKept(sn, s.gateways[sn], s.conns, s'.conns);
    }
    forall d | d in s'.conns
      ensures ConnOk(s'.conns[d], s'.hub)
    {
      if d != c {
        HubGrown(s.conns[d], s.hub, s'.hub);
      }
    }
  }

  lemma OneGateway(env: Env, s: State, s': State, sn: Sn)
    requires Inv(env, s) && s'.conns == s.conns && s'.hub == s.hub
    requires sn in s'.gateways && s'.gateways == s.gateways[sn := s'.gateways[sn]]
    requires GatewayOk(sn, s'.gateways[sn], s.conns)
    ensures Inv(env, s')
  {}

  /** A step of a gateway and its own connection leaves all other gateways and connections alone. */
  lemma OwnConn(env: Env, s: State, s': State, sn: Sn, c: nat)
    requires Inv(env, s) && sn in s.gateways && s.gateways[sn].conn == Some(c)
    requires sn in s'.gateways && s'.gateways == s.gateways[sn := s'.gateways[sn]]
    requires c in s'.conns && s'.conns == s.conns[c := s'.conns[c]]
    requires s'.conns[c].handler == s.conns[c].handler
    requires s'.hub == s.hub.(payloads := s'.hub.payloads) && s.hub.payloads <= s'.hub.payloads
    requires ConnOk(s'.conns[c], s'.hub) && GatewayOk(sn, s'.gateways[sn], s'.conns)
    ensures Inv(env, s')
  {
    forall sn' | sn' in s'.gateways
      ensures GatewayOk(sn', s'.gateways[sn'], s'.conns)
    {
      if sn' != sn {
        assert s.conns[c].sn == sn && GatewayOk(sn', s.gateways[sn'], s.conns);
      }
    }
    OwedKept(s.conns, s'.conns);
  }

  lemma OkCountAppend(a: seq<AckMsg>, b: seq<AckMsg>)
    ensures OkCount(a + b) == OkCount(a) + OkCount(b)
  {
    if a == [] {
      assert a + b == b;
    } else {
      assert (a + b)[1..] == a[1..] + b;
      OkCountAppend(a[1..], b);
    }
  }

  lemma MarkedOk(g: Gateway, batch: seq<Reading>, status: UploadStatus)
    requires Ascending(g.rows) && forall r | r in g.rows :: r.reading.id < g.nextId
    ensures var rows := MarkBatch(g, batch, status);
            Ascending(rows) && (forall r | r in rows :: r.reading.id < g.nextId)
            && ReadingsOf(rows) == ReadingsOf(g.rows)
  {
    var rows := MarkBatch(g, batch, status);
    forall r | r in rows
      ensures r.reading.id < g.nextId
    {
      var i :| 0 <= i < |rows| && rows[i] == r;
      assert g.rows[i] in g.rows;
    }
  }

  // ---- Gateway steps ----

  lemma CollectKeeps(env: Env, s: State, sn: Sn, rs: seq<Reading>)
    requires Inv(env, s) && Enabled(env, s, Collect(sn, rs))
    ensures Inv(env, Next(env, s, Collect(sn, rs)))
  {
    var g := s.gateways[sn];
    var g' := Next(env, s, Collect(sn, rs)).gateways[sn];
    var more := NewRows(g.nextId, rs);
    assert forall i | 0 <= i < |g.rows| :: g.rows[i] in g.rows;
    assert forall r | r in g'.rows :: r in g.rows || r in more;
    assert ReadingsOf(g'.rows) == ReadingsOf(g.rows) + ReadingsOf(more);
    hide ConnOk, HubOk;
    OneGateway(env, s, Next(env, s, Collect(sn, rs)), sn);
  }

  lemma TimeoutKeeps(env: Env, s: State, sn: Sn, stored: bool)
    requires Inv(env, s) && Connected(s, sn) && s.gateways[sn].phase.Waiting?
    ensures Inv(env, TimingOut(s, sn, stored))
  {
    var g := s.gateways[sn];
    MarkedOk(g, g.phase.batch, NotSent);
    OneGateway(env, s, TimingOut(s, sn, stored), sn);
  }

  lemma PlainGatewayStepKeeps(env: Env, s: State, step: Step)
    requires Inv(env, s) && Enabled(env, s, step)
    requires step.Join? || step.Build? || step.Cancel? || step.Leave?
    ensures Inv(env, Next(env, s, step))
  {
    OneGateway(env, s, Next(env, s, step), step.sn);
  }

  lemma ConnectKeeps(env: Env, s: State, sn: Sn, c: nat)
    requires Inv(env, s) && Enabled(env, s, Connect(sn, c))
    ensures Inv(env, Next(env, s, Connect(sn, c)))
  {
    var s' := Next(env, s, Connect(sn, c));
    forall sn' | sn' in s'.gateways
      ensures GatewayOk(sn', s'.gateways[sn'], s'.conns)
    {
      if sn' != sn {
        GatewayKept(sn', s.gateways[sn'], s.conns, s'.conns);
      }
    }
    OwedKept(s.conns, s'.conns);
  }

  /** Handlers that owe a save still owe it. */
  lemma OwedKept(conns: map<nat, Conn>, conns': map<nat, Conn>)
    requires forall c | c in conns && conns[c].handler.Owes? :: c in conns' && conns'[c].handler == conns[c].handler
    ensures forall u :: Owed(conns, u) ==> Owed(conns', u)
  {}

  lemma BatchOfOk(env: Env, g: Gateway)
    ensures forall r | r in ReadingsOf(BatchOf(env, g)) :: r in ReadingsOf(g.rows)
  {
    var batch := BatchOf(env, g);
    forall r | r in ReadingsOf(batch)
      ensures r in ReadingsOf(g.rows)
    {
      var i :| 0 <= i < |batch| && batch[i].reading == r;
      assert batch[i] in batch && batch[i] in g.rows;
      var j :| 0 <= j < |g.rows| && g.rows[j] == batch[i];
      assert ReadingsOf(g.rows)[j] == r;
    }
  }

  lemma RequestAdded(k: Conn, hub: Hub, request: Request)
    requires ConnOk(k, hub) && request.serial !in k.sent
    requires request.upload.sn == k.sn && request.upload.payload in hub.payloads
    ensures ConnOk(k.(requests := k.requests + [request], sent := k.sent[request.serial := request]), hub)
  {
    var k' := k.(requests := k.requests + [request], sent := k.sent[request.serial := request]);
    assert forall r | Known(k, r) :: Known(k', r);
    assert forall r | r in k'.requests :: r in k.requests || r == request;
  }

  lemma RefuseKeeps(env: Env, s: State, sn: Sn, stored: bool)
    requires Inv(env, s) && sn in s.gateways && s.gateways[sn].phase.Idle?
    ensures Inv(env, Refusing(env, s, sn, stored))
  {
    hide Mark, Pending, HubOk, ConnOk;
    var g := s.gateways[sn];
    MarkedOk(g, ReadingsOf(BatchOf(env, g)), ClientStore.Failed);
    OneGateway(env, s, Refusing(env, s, sn, stored), sn);
  }

  lemma SendKeeps(env: Env, s: State, sn: Sn, write: WriteResult)
    requires Inv(env, s) && CanSend(env, s, sn)
    ensures Inv(env, Transmitting(env, s, sn, write))
  {
    hide UploadBytes, AllFit, Mark;
    var s' := Transmitting(env, s, sn, write);
    var g, c := s.gateways[sn], s.gateways[sn].conn.value;
    var batch := ReadingsOf(BatchOf(env, g));
    var request := Request(Upload(sn, UploadBytes(batch)), g.built + 1);
    BatchOfOk(env, g);
    UploadLength(batch);
    MarkedOk(g, batch, ClientStore.Sending);
    MarkedOk(g, batch, ClientStore.Failed);
    assert GatewayOk(sn, g, s.conns) && ConnOk(s.conns[c], s.hub);
    RequestAdded(s.conns[c], s'.hub, request);
    OwnConn(env, s, s', sn, c);
  }

  lemma AckTaken(k: Conn, hub: Hub)
    requires ConnOk(k, hub) && k.acks != []
    ensures ConnOk(k.(acks := k.acks[1..], marked := if k.acks[0].code == Server.OK then k.marked + 1 else k.marked), hub)
  {
    var k' := k.(acks := k.acks[1..], marked := if k.acks[0].code == Server.OK then k.marked + 1 else k.marked);
    assert forall r | Known(k, r) :: Known(k', r);
    assert forall a | a in k'.acks :: a in k.acks;
  }

  lemma AnswerKeeps(env: Env, s: State, sn: Sn, stored: bool)
    requires Inv(env, s) && CanAnswer(s, sn)
    ensures Inv(env, Answering(s, sn, stored))
  {
    var s' := Answering(s, sn, stored);
    var c := s.gateways[sn].conn.value;
    AnsweredGateway(env, s, sn, stored);
    AckTaken(s.conns[c], s.hub);
    hide ConnOk, HubOk, GatewayOk, MarkBatch;
    OwnConn(env, s, s', sn, c);
  }

  lemma AnsweredGateway(env: Env, s: State, sn: Sn, stored: bool)
    requires Inv(env, s) && CanAnswer(s, sn)
    ensures var s' := Answering(s, sn, stored); GatewayOk(sn, s'.gateways[sn], s'.conns)
    ensures sn in s.gateways && s.gateways[sn].conn.Some? && ConnOk(s.conns[s.gateways[sn].conn.value], s.hub)
  {
    var g := s.gateways[sn];
    MarkedOk(g, g.phase.batch, Sent);
    MarkedOk(g, g.phase.batch, NotSent);
    hide Mark, ConnOk, HubOk, WaitingOk;
    assert GatewayOk(sn, g, s.conns);
  }

  // ---- Server steps ----

  /** Requests and acknowledgements may disappear from a connection's queues. */
  lemma QueuesShrink(k: Conn, k': Conn, hub: Hub)
    requires ConnOk(k, hub) && k' == k.(requests := k'.requests, acks := k'.acks)
    requires forall r | r in k'.requests :: r in k.requests
    requires forall a | a in k'.acks :: a in k.acks
    requires OkCount(k'.acks) <= OkCount(k.acks)
    ensures ConnOk(k', hub)
  {
    assert forall r | Known(k, r) :: Known(k', r);
  }

  lemma LoseKeeps(env: Env, s: State, step: Step)
    requires Inv(env, s) && Enabled(env, s, step) && (step.LoseRequests? || step.LoseAck?)
    ensures Inv(env, Next(env, s, step))
  {
    var s' := Next(env, s, step);
    var k, k' := s.conns[step.c], s'.conns[step.c];
    if step.LoseAck? {
      FewerAcks(k.acks, step.i);
    }
    assert ConnOk(k, s.hub) && HubOk(env, s);
    hide GatewayOk, ConnOk, KeysOk, OkCount;
    QueuesShrink(k, k', s.hub);
    OwedKept(s.conns, s'.conns);
    OneConn(env, s, s', step.c);
  }

  lemma FewerAcks(acks: seq<AckMsg>, i: nat)
    requires i < |acks|
    ensures OkCount(acks[..i] + acks[i + 1..]) <= OkCount(acks)
  {
    var a, b := acks[..i], acks[i + 1..];
    assert acks == a + ([acks[i]] + b);
    OkCountAppend(a, [acks[i]] + b);
    OkCountAppend(a, b);
  }

  lemma AckedOk(k: Conn, hub: Hub, request: Request, code: byte)
    requires ConnOk(k, hub) && Known(k, request)
    ensures ConnOk(Acked(k, request, code), hub)
  {
    OkCountAppend(k.acks, [AckMsg(code, request)]);
    assert forall r | Known(k, r) :: Known(Acked(k, request, code), r);
  }

  /** A handler taking up, or done with, a known request. */
  lemma HandlerSet(k: Conn, hub: Hub, handler: Handler)
    requires ConnOk(k, hub) && (!handler.Free? ==> Known(k, handler.request))
    requires handler.Owes? ==> handler.request.upload in hub.accepted
    ensures ConnOk(k.(handler := handler), hub)
  {
    assert forall r | Known(k, r) :: Known(k.(handler := handler), r);
  }

  lemma HubGrown(k: Conn, hub: Hub, hub': Hub)
    requires ConnOk(k, hub) && HubGrows(hub, hub')
    ensures ConnOk(k, hub')
  {}

  lemma LookKeeps(env: Env, s: State, c: nat)
    requires Inv(env, s) && c in s.conns && s.conns[c].handler.Free? && s.conns[c].requests != []
    ensures Inv(env, Looking(env, s, c))
  {
    hide GatewayOk;
    var s' := Looking(env, s, c);
    var k, request := s.conns[c], s.conns[c].requests[0];
    assert request in k.requests;
    var rest := k.(requests := k.requests[1..]);
    QueuesShrink(k, rest, s.hub);
    AckedOk(rest, s.hub, request, Server.OK);
    HandlerSet(rest, s.hub, Missed(request));
    HubGrown(s'.conns[c], s.hub, s'.hub);
    assert forall x :: x in s'.hub.keys <==> x in s.hub.keys;
    OwedKept(s.conns, s'.conns);
    OneConn(env, s, s', c);
  }

  lemma InsertKeeps(env: Env, s: State, c: nat)
    requires Inv(env, s) && c in s.conns && s.conns[c].handler.Missed?
    ensures Inv(env, Inserting(env, s, c))
  {
    hide GatewayOk;
    var s' := Inserting(env, s, c);
    var u := s.conns[c].handler.request.upload;
    forall key | key in s'.hub.keys
      ensures exists v :: v in s'.hub.accepted && KeyOf(env, v) == key
    {
      AddedKeys(s.hub.keys, KeyOf(env, u), env.capacity, key);
      if key in s.hub.keys {
        var v :| v in s.hub.accepted && KeyOf(env, v) == key;
        assert v in s'.hub.accepted;
      } else {
        assert u in s'.hub.accepted;
      }
    }
    OwedKept(s.conns, s'.conns);
    assert s'.conns[c].handler.Owes? && Owed(s'.conns, u);
    HubGrown(s.conns[c], s.hub, s'.hub);
    HandlerSet(s.conns[c], s'.hub, s'.conns[c].handler);
    OneConn(env, s, s', c);
  }

  lemma AddedKeys<K(!new)>(keys: seq<K>, key: K, capacity: nat, x: K)
    requires x in Added(keys, key, capacity)
    ensures x in keys || x == key
  {}

  lemma FinishKeeps(env: Env, s: State, c: nat, result: SaveResult)
    requires Inv(env, s) && c in s.conns && s.conns[c].handler.Owes?
    ensures Inv(env, Finishing(s, c, result))
  {
    var s' := Finishing(s, c, result);
    FinishedConn(s, c, result);
    FinishSettles(s, c, result);
    FinishFrame(s, c, result);
    hide GatewayOk, ConnOk, Finishing, Settled;
    OneConn(env, s, s', c);
  }

  lemma FinishFrame(s: State, c: nat, result: SaveResult)
    requires c in s.conns && s.conns[c].handler.Owes?
    ensures var s' := Finishing(s, c, result);
            && s'.gateways == s.gateways && c in s'.conns && s'.conns == s.conns[c := s'.conns[c]]
            && s'.conns[c].sn == s.conns[c].sn && s'.conns[c].sent == s.conns[c].sent
            && HubGrows(s.hub, s'.hub) && s'.hub.accepted == s.hub.accepted && s'.hub.payloads == s.hub.payloads
            && s'.hub.keys == s.hub.keys
  {
    hide DecodeUpload;
  }

  lemma FinishedConn(s: State, c: nat, result: SaveResult)
    requires c in s.conns && s.conns[c].handler.Owes? && ConnOk(s.conns[c], s.hub)
    ensures var s' := Finishing(s, c, result); c in s'.conns && ConnOk(s'.conns[c], s'.hub)
  {
    var s' := Finishing(s, c, result);
    var k, request := s.conns[c], s.conns[c].handler.request;
    FinishFrame(s, c, result);
    HubGrown(k, s.hub, s'.hub);
    HandlerSet(k, s'.hub, Free);
    assert Known(k, request);
    AckedOk(k.(handler := Free), s'.hub, request, Server.OK);
    AckedOk(k.(handler := Free), s'.hub, request, Server.FAILED);
    hide DecodeUpload, ConnOk, Acked;
  }

  lemma FinishSettles(s: State, c: nat, result: SaveResult)
    requires c in s.conns && s.conns[c].handler.Owes?
    requires forall u | u in s.hub.accepted :: Settled(s, u)
    ensures forall u | u in s.hub.accepted :: Settled(Finishing(s, c, result), u)
  {
    hide DecodeUpload;
    var s' := Finishing(s, c, result);
    forall u | u in s.hub.accepted
      ensures Settled(s', u)
    {
      if Owed(s.conns, u) && u != s.conns[c].handler.request.upload {
        var d :| d in s.conns && s.conns[d].handler.Owes? && s.conns[d].handler.request.upload == u;
        assert s'.conns[d].handler == s.conns[d].handler;
      }
    }
  }

  lemma NextKeeps(env: Env, s: State, step: Step)
    requires Inv(env, s) && Enabled(env, s, step)
    ensures Inv(env, Next(env, s, step))
  {
    match step
    case Collect(sn, rs) => CollectKeeps(env, s, sn, rs);
    case Connect(sn, c) => ConnectKeeps(env, s, sn, c);
    case Refuse(sn, stored) => RefuseKeeps(env, s, sn, stored);
    case Send(sn, write) => SendKeeps(env, s, sn, write);
    case Answer(sn, stored) => AnswerKeeps(env, s, sn, stored);
    case Timeout(sn, stored) => TimeoutKeeps(env, s, sn, stored);
    case Look(c) => LookKeeps(env, s, c);
    case Insert(c) => InsertKeeps(env, s, c);
    case Finish(c, result) => FinishKeeps(env, s, c, result);
    case LoseRequests(_, _) => LoseKeeps(env, s, step);
    case LoseAck(_, _) => LoseKeeps(env, s, step);
    case _ => PlainGatewayStepKeeps(env, s, step);
  }
}
