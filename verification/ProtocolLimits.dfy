/**
 Runs that show the hypotheses of the protocol theorems are needed: a late acknowledgement,
 a save that failed before a repetition, and two busy handlers of one gateway.
 */
module ProtocolLimits {
  import opened Bytes
  import opened Payload
  import opened PayloadProperties
  import opened Recency
  import opened ClientStore
  import opened Protocol
  import opened ProtocolSafety
  import opened ProtocolTheorems
  import opened ProtocolDedup
  import DeviceIndex
  import Server

  const BLANK := Reading(0, [], [], [], [], [], [], 0, [], 0)
  const SN: Sn := []

  function Blank(id: int64): Reading {
    BLANK.(id := id)
  }

  /** The default cache size and batches of up to two readings, under any hash. */
  function Small(hash: bytes -> bytes): Env {
    Env(hash, Server.DEDUP_CACHE_SIZE, 2)
  }

  /** Some run ends in `s`. */
  ghost predicate Reachable(env: Env, s: State) {
    exists states, steps :: IsRun(env, states, steps) && states[|steps|] == s
  }

  lemma Reach(env: Env, s: State, step: Step, s': State)
    requires Reachable(env, s) && Enabled(env, s, step) && Next(env, s, step) == s'
    ensures Reachable(env, s')
  {
    hide Enabled, Next;
    var states, steps :| IsRun(env, states, steps) && states[|steps|] == s;
    assert IsRun(env, states + [s'], steps + [step]);
  }

  lemma BlankFits(rs: seq<Reading>)
    requires |rs| <= 2 && forall i | 0 <= i < |rs| :: rs[i] == Blank(rs[i].id)
    ensures AllFit(rs) && |UploadBytes(rs)| <= 65535
  {
    forall r | r in rs
      ensures StringsFit(r)
    {
      BlankLength(r.id);
    }
    hide StringsFit, ReadingBytes, Blank;
    if |rs| == 2 {
      BlankLength(rs[0].id);
      OneBlank(rs[1].id);
      assert rs[1..] == [Blank(rs[1].id)];
    } else if |rs| == 1 {
      OneBlank(rs[0].id);
      assert rs == [Blank(rs[0].id)];
    }
  }

  lemma OneBlank(id: int64)
    ensures |ReadingsBytes([Blank(id)])| == MIN_READING_LEN
  {
    BlankLength(id);
    hide ReadingBytes, Blank;
    assert [Blank(id)][1..] == [];
  }

  lemma BlankLength(id: int64)
    ensures StringsFit(Blank(id)) && |ReadingBytes(Blank(id))| == MIN_READING_LEN
  {
    hide PutBE;
  }

  /** The two ways a save goes in these runs: everything stored, or nothing. */
  const STORED := SaveResult(0, true, {[]})
  const LOST := SaveResult(0, false, {})

  // ---- The common beginning: a gateway collects one reading and sends it ----

  function First(): Reading {
    Blank(1)
  }

  function FirstUpload(): Upload {
    Upload(SN, UploadBytes([First()]))
  }

  function FirstRequest(serial: nat): Request {
    Request(FirstUpload(), serial)
  }

  /** One row, a session on connection `c` after `built` messages. */
  function OneRow(status: UploadStatus, phase: Phase, c: Option<nat>, built: nat, timeouts: nat): Gateway {
    Gateway([Row(First(), status)], 2, phase, c, built, timeouts)
  }

  lemma OneRowBatch(env: Env, g: Gateway)
    requires env.limit == 2 && |g.rows| == 1 && IsPending(g.rows[0])
    ensures BatchOf(env, g) == g.rows && ReadingsOf(g.rows) == [g.rows[0].reading]
  {
    assert g.rows[1..] == [];
    assert Pending(g.rows, 2) == [g.rows[0]] + Pending([], 1);
  }

  lemma OneRowMarked(status: UploadStatus, status': UploadStatus, phase: Phase, c: Option<nat>, built: nat, timeouts: nat)
    ensures MarkBatch(OneRow(status, phase, c, built, timeouts), [First()], status') == [Row(First(), status')]
  {}

  /** Sending a known batch. */
  lemma SendKnown(env: Env, s: State, c: nat, batch: seq<Reading>)
    requires CanSend(env, s, SN) && s.gateways[SN].conn == Some(c) && ReadingsOf(BatchOf(env, s.gateways[SN])) == batch
    ensures var g, k := s.gateways[SN], s.conns[c];
            var request := Request(Upload(SN, UploadBytes(batch)), g.built + 1);
            Enabled(env, s, Send(SN, Written)) &&
            Next(env, s, Send(SN, Written)) ==
              State(s.gateways[SN := g.(rows := MarkBatch(g, batch, ClientStore.Sending), phase := Waiting(request, batch),
                                        built := g.built + 1)],
                    s.conns[c := k.(requests := k.requests + [request], sent := k.sent[request.serial := request])],
                    s.hub.(payloads := s.hub.payloads + {request.upload.payload}))
  {
    hide UploadBytes, AllFit, MarkBatch, BatchOf, CanSend;
  }

  lemma SendAny(env: Env, s: State, c: nat, batch: seq<Reading>, g': Gateway, k': Conn, payloads: set<bytes>)
    requires Reachable(env, s) && CanSend(env, s, SN) && s.gateways[SN].conn == Some(c)
    requires ReadingsOf(BatchOf(env, s.gateways[SN])) == batch
    requires var g, k := s.gateways[SN], s.conns[c];
             var request := Request(Upload(SN, UploadBytes(batch)), g.built + 1);
             g' == g.(rows := MarkBatch(g, batch, ClientStore.Sending), phase := Waiting(request, batch), built := g.built + 1)
             && k' == k.(requests := k.requests + [request], sent := k.sent[request.serial := request])
             && payloads == s.hub.payloads + {request.upload.payload}
    ensures Reachable(env, State(s.gateways[SN := g'], s.conns[c := k'], s.hub.(payloads := payloads)))
  {
    hide *;
    SendKnown(env, s, c, batch);
    Reach(env, s, Send(SN, Written), Next(env, s, Send(SN, Written)));
  }

  /** Sending the one pending row. */
  lemma SendOne(env: Env, s: State, c: nat, k: Conn, built: nat, timeouts: nat) returns (s': State)
    requires Reachable(env, s) && env.limit == 2 && c in s.conns && s.conns[c] == k && SN in s.gateways
    requires s.gateways[SN] == OneRow(NotSent, Idle, Some(c), built, timeouts)
    ensures var request := FirstRequest(built + 1);
            s' == State(s.gateways[SN := OneRow(Sending, Waiting(request, [First()]), Some(c), built + 1, timeouts)],
                        s.conns[c := k.(requests := k.requests + [request], sent := k.sent[built + 1 := request])],
                        s.hub.(payloads := s.hub.payloads + {request.upload.payload}))
    ensures Reachable(env, s')
  {
    hide *;
    var g, request := s.gateways[SN], FirstRequest(built + 1);
    OneRowCanSend(env, s, c, built, timeouts);
    OneRowMarked(NotSent, Sending, Idle, Some(c), built, timeouts);
    SameAsOneRow(g, c, built, timeouts);
    var g' := OneRow(Sending, Waiting(request, [First()]), Some(c), built + 1, timeouts);
    var k' := k.(requests := k.requests + [request], sent := k.sent[built + 1 := request]);
    var payloads := s.hub.payloads + {request.upload.payload};
    SendAny(env, s, c, [First()], g', k', payloads);
    s' := State(s.gateways[SN := g'], s.conns[c := k'], s.hub.(payloads := payloads));
  }

  lemma OneRowCanSend(env: Env, s: State, c: nat, built: nat, timeouts: nat)
    requires env.limit == 2 && c in s.conns && SN in s.gateways
    requires s.gateways[SN] == OneRow(NotSent, Idle, Some(c), built, timeouts)
    ensures CanSend(env, s, SN) && ReadingsOf(BatchOf(env, s.gateways[SN])) == [First()]
  {
    OneRowBatch(env, s.gateways[SN]);
    BlankFits([First()]);
    hide UploadBytes, AllFit, BatchOf;
  }

  lemma SameAsOneRow(g: Gateway, c: nat, built: nat, timeouts: nat)
    requires g == OneRow(NotSent, Idle, Some(c), built, timeouts)
    ensures Request(Upload(SN, UploadBytes([First()])), built + 1) == FirstRequest(built + 1)
    ensures g.conn == Some(c) && g.built == built
    ensures g.(rows := [Row(First(), Sending)], phase := Waiting(FirstRequest(built + 1), [First()]), built := built + 1)
         == OneRow(Sending, Waiting(FirstRequest(built + 1), [First()]), Some(c), built + 1, timeouts)
    ensures FirstRequest(built + 1).serial == built + 1
  {
    hide UploadBytes;
  }

  function NewConn(): Conn {
    Conn(SN, [], [], Free, map[], 0, 0)
  }

  /** A gateway with one row, sent and waiting for its acknowledgement. */
  function Begun(): State {
    State(map[SN := OneRow(Sending, Waiting(FirstRequest(2), [First()]), Some(0), 2, 0)],
          map[0 := NewConn().(requests := [FirstRequest(2)], sent := map[2 := FirstRequest(2)])],
          START.hub.(payloads := {FirstUpload().payload}))
  }

  lemma Collected(env: Env) returns (s: State)
    ensures s == State(map[SN := OneRow(NotSent, Idle, Some(0), 1, 0)], map[0 := NewConn()], START.hub)
    ensures Reachable(env, s)
  {
    assert IsRun(env, [START], []);
    var s1 := Next(env, START, Join(SN));
    Reach(env, START, Join(SN), s1);
    var s2 := Next(env, s1, Collect(SN, [BLANK]));
    Reach(env, s1, Collect(SN, [BLANK]), s2);
    assert [] + NewRows(1, [BLANK]) == [Row(First(), NotSent)];
    s := Next(env, s2, Connect(SN, 0));
    Reach(env, s2, Connect(SN, 0), s);
  }

  lemma BegunIs(g: Gateway, g': Gateway, k: Conn, request: Request, p: bytes)
    requires g' == OneRow(Sending, Waiting(request, [First()]), Some(0), 2, 0)
    requires request == FirstRequest(2) && p == FirstUpload().payload
    requires k == NewConn()
    ensures State(map[SN := g][SN := g'], map[0 := k][0 := k.(requests := k.requests + [request], sent := k.sent[2 := request])],
                  START.hub.(payloads := START.hub.payloads + {p})) == Begun()
  {
    hide FirstUpload, OneRow, First, FirstRequest;
    assert [] + [request] == [request];
    assert map[SN := g][SN := g'] == map[SN := g'];
  }

  lemma Begin(env: Env)
    requires env.limit == 2
    ensures Reachable(env, Begun())
  {
    var s := Collected(env);
    var s' := SendOne(env, s, 0, NewConn(), 1, 0);
    var request := FirstRequest(2);
    var g' := OneRow(Sending, Waiting(request, [First()]), Some(0), 2, 0);
    assert request.upload.payload == FirstUpload().payload by {
      hide UploadBytes;
    }
    BegunIs(s.gateways[SN], g', NewConn(), request, request.upload.payload);
    hide *;
    assert s' == Begun();
  }

  // ---- Handling one request ----

  /** The first upload parses and carries the first row. */
  lemma FirstCarried()
    ensures DecodeUpload([], FirstUpload().payload) == Progress([First()], None, [])
  {
    BlankFits([First()]);
    UploadRoundTripIff([], [First()]);
  }

  lemma LookMisses(env: Env, s: State, c: nat, request: Request) returns (s': State)
    requires Reachable(env, s) && c in s.conns && s.conns[c].handler.Free? && s.conns[c].requests == [request]
    requires KeyOf(env, request.upload) !in s.hub.keys
    ensures s' == s.(conns := s.conns[c := s.conns[c].(requests := [], handler := Missed(request))])
    ensures Reachable(env, s')
  {
    hide KeyOf, Reachable;
    s' := s.(conns := s.conns[c := s.conns[c].(requests := [], handler := Missed(request))]);
    assert s.conns[c].requests[1..] == [] && s.hub.(keys := Hit(s.hub.keys, KeyOf(env, request.upload))) == s.hub;
    Reach(env, s, Look(c), s');
  }

  lemma LookHits(env: Env, s: State, c: nat, request: Request) returns (s': State)
    requires Reachable(env, s) && c in s.conns && s.conns[c].handler.Free? && s.conns[c].requests == [request]
    requires s.hub.keys == [KeyOf(env, request.upload)]
    ensures s' == s.(conns := s.conns[c := Acked(s.conns[c].(requests := []), request, Server.OK)])
    ensures Reachable(env, s')
  {
    hide KeyOf, Reachable;
    s' := s.(conns := s.conns[c := Acked(s.conns[c].(requests := []), request, Server.OK)]);
    assert s.conns[c].requests[1..] == [];
    assert Hit(s.hub.keys, KeyOf(env, request.upload)) == s.hub.keys by {
      assert s.hub.keys[1..] == [];
    }
    assert s.hub.(keys := s.hub.keys) == s.hub;
    Reach(env, s, Look(c), s');
  }

  lemma InsertFirst(env: Env, s: State, c: nat) returns (s': State)
    requires Reachable(env, s) && c in s.conns && s.conns[c].handler.Missed? && s.hub.keys == [] && env.capacity > 0
    ensures var request := s.conns[c].handler.request;
            var key := KeyOf(env, request.upload);
            s' == State(s.gateways, s.conns[c := s.conns[c].(handler := Owes(request))],
                        s.hub.(keys := [key], accepted := s.hub.accepted + {request.upload},
                               inserted := s.hub.inserted + multiset{key}))
    ensures Reachable(env, s')
  {
    hide KeyOf, Reachable;
    s' := Inserting(env, s, c);
    assert [KeyOf(env, s.conns[c].handler.request.upload)] + [] == [KeyOf(env, s.conns[c].handler.request.upload)];
    Reach(env, s, Insert(c), s');
  }

  lemma FirstSave(result: SaveResult)
    requires result == STORED || result == LOST
    ensures var save := SaveOf(SN, [First()], result);
            save.inserted == result.inserted
            && (result.inserted ==> save.done == DeviceIndex.Seen([First()]).Keys)
  {
    assert [First()][..0] == [];
    assert DeviceIndex.Seen([First()]).Keys == {[]};
  }

  lemma FinishFirst(env: Env, s: State, c: nat, result: SaveResult) returns (s': State)
    requires Reachable(env, s) && (result == STORED || result == LOST)
    requires c in s.conns && s.conns[c].handler.Owes? && s.conns[c].handler.request.upload == FirstUpload()
    ensures var u := FirstUpload();
            var code := if result.inserted then Server.OK else Server.FAILED;
            var hub := s.hub.(attempts := s.hub.attempts + multiset{u},
                              saves := s.hub.saves + [SaveOf(SN, [First()], result)]);
            s' == State(s.gateways, s.conns[c := Acked(s.conns[c].(handler := Free), s.conns[c].handler.request, code)],
                        if result.inserted then hub.(saved := hub.saved + {u}) else hub.(failed := hub.failed + {u}))
    ensures Reachable(env, s')
  {
    var u := FirstUpload();
    FirstCarried();
    FirstSave(result);
    FinishKnown(env, s, c, result, [First()]);
    assert u.sn == SN;
    hide *;
    s' := Next(env, s, Finish(c, result));
    Reach(env, s, Finish(c, result), s');
  }

  /** Finishing an upload with known readings, completely or not at all. */
  lemma FinishKnown(env: Env, s: State, c: nat, result: SaveResult, rs: seq<Reading>)
    requires c in s.conns && s.conns[c].handler.Owes? && rs != []
    requires var u := s.conns[c].handler.request.upload;
             DecodeUpload([], u.payload) == Progress(rs, None, [])
             && (result.inserted ==> SaveOf(u.sn, rs, result).done == DeviceIndex.Seen(rs).Keys)
    ensures var u := s.conns[c].handler.request.upload;
            var code := if result.inserted then Server.OK else Server.FAILED;
            var hub := s.hub.(attempts := s.hub.attempts + multiset{u}, saves := s.hub.saves + [SaveOf(u.sn, rs, result)]);
            Enabled(env, s, Finish(c, result)) &&
            Next(env, s, Finish(c, result)) ==
              State(s.gateways, s.conns[c := Acked(s.conns[c].(handler := Free), s.conns[c].handler.request, code)],
                    if result.inserted then hub.(saved := hub.saved + {u}) else hub.(failed := hub.failed + {u}))
  {
    hide DecodeUpload, Acked, DeviceIndex.Seen;
  }

  /** The first upload on a connection, handled from look-up to acknowledgement. */
  lemma HandleFirst(env: Env, s: State, c: nat, request: Request, result: SaveResult) returns (s': State)
    requires Reachable(env, s) && env.capacity > 0 && (result == STORED || result == LOST)
    requires c in s.conns && s.conns[c].handler.Free? && s.conns[c].requests == [request]
    requires request.upload == FirstUpload() && s.hub.keys == []
    ensures Reachable(env, s') && s'.gateways == s.gateways
    ensures var code := if result.inserted then Server.OK else Server.FAILED;
            s'.conns == s.conns[c := Acked(s.conns[c].(requests := []), request, code)]
    ensures s'.hub.keys == [KeyOf(env, FirstUpload())] && s'.hub.accepted == s.hub.accepted + {FirstUpload()}
    ensures s'.hub.saved == if result.inserted then s.hub.saved + {FirstUpload()} else s.hub.saved
    ensures s'.hub.saves == s.hub.saves + [SaveOf(SN, [First()], result)]
    ensures s'.hub.failed == if result.inserted then s.hub.failed else s.hub.failed + {FirstUpload()}
  {
    hide Reachable, FirstUpload, KeyOf;
    var s1 := LookMisses(env, s, c, request);
    var s2 := InsertFirst(env, s1, c);
    s' := FinishFirst(env, s2, c, result);
  }

  // ---- A failed save, then a repetition ----

  lemma TakeAck(env: Env, s: State, c: nat, request: Request, built: nat, ack: AckMsg) returns (s': State)
    requires Reachable(env, s) && SN in s.gateways && c in s.conns && s.conns[c].acks == [ack]
    requires s.gateways[SN] == OneRow(Sending, Waiting(request, [First()]), Some(c), built, 0)
    ensures var ok := ack.code == Server.OK;
            s' == s.(gateways := s.gateways[SN := OneRow(if ok then Sent else NotSent, Idle, Some(c), built, 0)],
                     conns := s.conns[c := s.conns[c].(acks := [], marked := s.conns[c].marked + if ok then 1 else 0)])
    ensures Reachable(env, s')
  {
    var ok := ack.code == Server.OK;
    s' := s.(gateways := s.gateways[SN := OneRow(if ok then Sent else NotSent, Idle, Some(c), built, 0)],
             conns := s.conns[c := s.conns[c].(acks := [], marked := s.conns[c].marked + if ok then 1 else 0)]);
    OneRowMarked(Sending, Sent, Waiting(request, [First()]), Some(c), built, 0);
    OneRowMarked(Sending, NotSent, Waiting(request, [First()]), Some(c), built, 0);
    hide Reachable, First, MarkBatch;
    assert s.conns[c].acks[1..] == [];
    Reach(env, s, Answer(SN, true), s');
  }

  /**
   The handler remembers a payload before saving it and never forgets a failure: when the save fails,
   the repetition is acknowledged Ok, and the row ends up Sent although the readings table is still empty.
   */
  lemma FailedSaveIsAcknowledged(hash: bytes -> bytes) returns (s: State)
    ensures Reachable(Small(hash), s)
    ensures SN in s.gateways && |s.gateways[SN].rows| == 1 && s.gateways[SN].rows[0].status == Sent
    ensures s.hub.saved == {} && forall c | c in s.conns :: s.conns[c].handler.Free? && s.conns[c].requests == []
    ensures (forall x | x in s.hub.saves :: DeviceIndex.Possible(x)) && DeviceIndex.Run(s.hub.saves).readings == []
  {
    var env := Small(hash);
    s := FailedOnce(env);
    var s' := SendOne(env, s, 0, s.conns[0], 2, 0);
    hide Reachable, First, UploadBytes, KeyOf, SaveOf;
    assert s'.conns[0].requests == [FirstRequest(3)];
    s := LookHits(env, s', 0, FirstRequest(3));
    s := TakeAck(env, s, 0, FirstRequest(3), 3, AckMsg(Server.OK, FirstRequest(3)));
    NothingStored();
  }

  /** The first upload failed to be saved, and the gateway knows. */
  lemma FailedOnce(env: Env) returns (s: State)
    requires env.limit == 2 && env.capacity > 0
    ensures Reachable(env, s) && s.gateways == map[SN := OneRow(NotSent, Idle, Some(0), 2, 0)]
    ensures s.conns.Keys == {0} && s.conns[0].handler.Free? && s.conns[0].requests == [] && s.conns[0].acks == []
    ensures s.hub.keys == [KeyOf(env, FirstUpload())] && s.hub.saved == {} && s.hub.saves == [SaveOf(SN, [First()], LOST)]
  {
    Begin(env);
    hide Reachable, First, UploadBytes, KeyOf, SaveOf;
    s := HandleFirst(env, Begun(), 0, FirstRequest(2), LOST);
    s := TakeAck(env, s, 0, FirstRequest(2), 2, AckMsg(Server.FAILED, FirstRequest(2)));
  }

  lemma NothingStored()
    ensures DeviceIndex.Run([SaveOf(SN, [First()], LOST)]).readings == []
  {
    var saves := [SaveOf(SN, [First()], LOST)];
    assert saves[..0] == [];
    assert DeviceIndex.Run([]).readings == [];
    hide DeviceIndex.Seen, DeviceIndex.UpsertAll;
  }

  // ---- A late acknowledgement ----

  lemma GiveUp(env: Env, s: State, c: nat, request: Request, built: nat) returns (s': State)
    requires Reachable(env, s) && SN in s.gateways && c in s.conns
    requires s.gateways[SN] == OneRow(Sending, Waiting(request, [First()]), Some(c), built, 0)
    ensures s' == s.(gateways := s.gateways[SN := OneRow(NotSent, Idle, Some(c), built, 1)])
    ensures Reachable(env, s')
  {
    s' := s.(gateways := s.gateways[SN := OneRow(NotSent, Idle, Some(c), built, 1)]);
    OneRowMarked(Sending, NotSent, Waiting(request, [First()]), Some(c), built, 0);
    hide Reachable, First, MarkBatch;
    Reach(env, s, Timeout(SN, true), s');
  }

  function TwoRows(status: UploadStatus): seq<Row> {
    [Row(First(), status), Row(Blank(2), status)]
  }

  lemma CollectSecond(env: Env, s: State, g: Gateway) returns (s': State)
    requires Reachable(env, s) && SN in s.gateways && s.gateways[SN] == g
    requires g.rows == [Row(First(), NotSent)] && g.nextId == 2
    ensures s' == s.(gateways := s.gateways[SN := g.(rows := TwoRows(NotSent), nextId := 3)])
    ensures Reachable(env, s')
  {
    hide Reachable;
    s' := s.(gateways := s.gateways[SN := g.(rows := TwoRows(NotSent), nextId := 3)]);
    assert g.rows + NewRows(2, [BLANK]) == TwoRows(NotSent);
    Reach(env, s, Collect(SN, [BLANK]), s');
  }

  lemma TwoRowsBatch(env: Env, g: Gateway)
    requires env.limit == 2 && g.rows == TwoRows(NotSent)
    ensures ReadingsOf(BatchOf(env, g)) == [First(), Blank(2)]
    ensures MarkBatch(g, [First(), Blank(2)], ClientStore.Sending) == TwoRows(Sending)
  {
    assert g.rows[1..][1..] == [];
    assert Pending(g.rows[1..], 1) == [g.rows[1]] + Pending([], 0);
    assert Pending(g.rows, 2) == [g.rows[0]] + Pending(g.rows[1..], 1);
  }

  lemma TwoRowsCanSend(env: Env, s: State, c: nat, g: Gateway)
    requires env.limit == 2 && SN in s.gateways && c in s.conns
    requires s.gateways[SN] == g && g.rows == TwoRows(NotSent) && g.phase.Idle? && g.conn == Some(c)
    ensures CanSend(env, s, SN) && ReadingsOf(BatchOf(env, g)) == [First(), Blank(2)]
    ensures MarkBatch(g, [First(), Blank(2)], ClientStore.Sending) == TwoRows(Sending)
  {
    TwoRowsBatch(env, g);
    BlankFits([First(), Blank(2)]);
    hide UploadBytes, AllFit, BatchOf;
  }

  /** Taking an Ok for a batch with known marked rows. */
  lemma AnswerKnown(env: Env, s: State, c: nat, rows: seq<Row>)
    requires CanAnswer(s, SN) && s.gateways[SN].conn == Some(c) && s.conns[c].acks[0].code == Server.OK
    requires MarkBatch(s.gateways[SN], s.gateways[SN].phase.batch, Sent) == rows
    ensures var g, k := s.gateways[SN], s.conns[c];
            Enabled(env, s, Answer(SN, true)) &&
            Next(env, s, Answer(SN, true)) ==
              State(s.gateways[SN := g.(rows := rows, phase := Idle, timeouts := 0)],
                    s.conns[c := k.(acks := k.acks[1..], marked := k.marked + 1)], s.hub)
  {
    hide MarkBatch;
  }

  lemma TakeAckForTwo(env: Env, s: State, c: nat, g: Gateway, ack: AckMsg) returns (s': State)
    requires Reachable(env, s) && env.limit == 2 && SN in s.gateways && c in s.conns && s.conns[c].acks == [ack] && ack.code == Server.OK
    requires s.gateways[SN] == g && g.rows == TwoRows(Sending) && g.conn == Some(c)
    requires g.phase.Waiting? && g.phase.batch == SecondBatch()
    ensures Reachable(env, s')
    ensures SN in s'.gateways && s'.gateways[SN].rows == TwoRows(Sent)
    ensures s'.hub == s.hub && c in s'.conns && s'.conns == s.conns[c := s'.conns[c]] && s'.conns[c].handler == s.conns[c].handler
  {
    TwoRowsSent(g);
    hide Reachable, MarkBatch, TwoRows, SecondBatch, Next, Enabled;
    AnswerKnown(env, s, c, TwoRows(Sent));
    s' := Next(env, s, Answer(SN, true));
    Reach(env, s, Answer(SN, true), s');
  }

  lemma TwoRowsSent(g: Gateway)
    requires g.rows == TwoRows(Sending)
    ensures MarkBatch(g, SecondBatch(), Sent) == TwoRows(Sent)
  {}

  /**
   An acknowledgement that comes after the client gave up on its batch is taken for the next batch:
   a row that no upload ever brought to the server ends up Sent, with no save failed and nothing owed.
   */
  lemma LateAckMarksUnsentRow(hash: bytes -> bytes) returns (s: State)
    ensures Reachable(Small(hash), s)
    ensures SN in s.gateways && |s.gateways[SN].rows| == 2 && s.gateways[SN].rows[1].status == Sent
    ensures forall u | u in s.hub.accepted :: s.gateways[SN].rows[1].reading !in Carried(u)
    ensures s.hub.failed == {} && forall c | c in s.conns :: s.conns[c].handler.Free?
  {
    var env := Small(hash);
    s := AckedLate(env);
    hide Reachable, UploadBytes, FirstUpload, Carried, First, Blank;
    s := LateAck(env, s, s.gateways[SN], s.conns[0], AckMsg(Server.OK, FirstRequest(2)));
    OnlyFirstCarried(s);
  }

  /** The first upload was saved after all, and its acknowledgement is on its way. */
  lemma AckedLate(env: Env) returns (s: State)
    requires env.limit == 2 && env.capacity > 0
    ensures Reachable(env, s) && SN in s.gateways && s.gateways[SN].rows == TwoRows(NotSent)
    ensures s.gateways[SN].phase.Idle? && s.gateways[SN].conn == Some(0)
    ensures s.conns.Keys == {0} && s.conns[0].handler == Free && s.conns[0].acks == [AckMsg(Server.OK, FirstRequest(2))]
    ensures s.hub.accepted == {FirstUpload()} && s.hub.failed == {}
  {
    s := GaveUp(env);
    hide Reachable, UploadBytes, KeyOf, FirstUpload, DecodeUpload, SaveOf, TwoRows;
    s := HandleFirst(env, s, 0, FirstRequest(2), STORED);
  }

  /** The gateway gave up on its first upload and collected a second reading. */
  lemma GaveUp(env: Env) returns (s: State)
    requires env.limit == 2
    ensures Reachable(env, s) && SN in s.gateways && s.gateways[SN].rows == TwoRows(NotSent)
    ensures s.gateways[SN].phase.Idle? && s.gateways[SN].conn == Some(0)
    ensures s.conns == Begun().conns && s.hub == Begun().hub
  {
    Begin(env);
    hide Reachable, UploadBytes;
    s := GiveUp(env, Begun(), 0, FirstRequest(2), 2);
    s := CollectSecond(env, s, s.gateways[SN]);
  }

  lemma OnlyFirstCarried(s: State)
    requires s.hub.accepted == {FirstUpload()} && SN in s.gateways && s.gateways[SN].rows == TwoRows(Sent)
    ensures forall u | u in s.hub.accepted :: s.gateways[SN].rows[1].reading !in Carried(u)
  {
    FirstCarried();
    hide FirstUpload, DecodeUpload;
    assert s.gateways[SN].rows[1].reading != First();
  }

  function SecondBatch(): seq<Reading> {
    [First(), Blank(2)]
  }

  /** The second batch is sent while the acknowledgement of the first is already there. */
  lemma LateAck(env: Env, s: State, g: Gateway, k: Conn, ack: AckMsg) returns (s': State)
    requires Reachable(env, s) && env.limit == 2 && ack.code == Server.OK
    requires SN in s.gateways && 0 in s.conns && s.gateways[SN] == g && s.conns[0] == k
    requires k.acks == [ack] && k.handler == Free && g.rows == TwoRows(NotSent) && g.phase.Idle? && g.conn == Some(0)
    ensures Reachable(env, s') && SN in s'.gateways && s'.gateways[SN].rows == TwoRows(Sent)
    ensures s'.hub == s.hub.(payloads := s'.hub.payloads)
    ensures 0 in s'.conns && s'.conns == s.conns[0 := s'.conns[0]] && s'.conns[0].handler == Free
  {
    var batch := SecondBatch();
    var request := Request(Upload(SN, UploadBytes(batch)), g.built + 1);
    var rows := TwoRows(Sending);
    TwoRowsCanSend(env, s, 0, g);
    assert batch == [First(), Blank(2)];
    hide *;
    s' := LateAckOn(env, s, g, k, ack, batch, rows, request);
  }

  lemma LateAckOn(env: Env, s: State, g: Gateway, k: Conn, ack: AckMsg, batch: seq<Reading>, rows: seq<Row>, request: Request)
    returns (s': State)
    requires Reachable(env, s) && env.limit == 2 && ack.code == Server.OK
    requires SN in s.gateways && 0 in s.conns && s.gateways[SN] == g && s.conns[0] == k
    requires k.acks == [ack] && g.conn == Some(0) && CanSend(env, s, SN)
    requires batch == SecondBatch() && ReadingsOf(BatchOf(env, g)) == batch && request == Request(Upload(SN, UploadBytes(batch)), g.built + 1)
    requires rows == TwoRows(Sending) && rows == MarkBatch(g, batch, ClientStore.Sending)
    ensures Reachable(env, s') && SN in s'.gateways && s'.gateways[SN].rows == TwoRows(Sent)
    ensures s'.hub == s.hub.(payloads := s'.hub.payloads)
    ensures 0 in s'.conns && s'.conns == s.conns[0 := s'.conns[0]] && s'.conns[0].handler == k.handler
  {
    hide *;
    var g' := g.(rows := rows, phase := Waiting(request, batch), built := g.built + 1);
    var k' := k.(requests := k.requests + [request], sent := k.sent[request.serial := request]);
    var payloads := s.hub.payloads + {request.upload.payload};
    SendAny(env, s, 0, batch, g', k', payloads);
    var s1 := State(s.gateways[SN := g'], s.conns[0 := k'], s.hub.(payloads := payloads));
    assert s1.conns[0] == k' && s1.gateways[SN] == g' && k'.acks == [ack];
    s' := TakeAckForTwo(env, s1, 0, g', ack);
  }

  // ---- Two busy handlers of one gateway ----

  lemma Resend(env: Env, s: State) returns (s': State)
    requires Reachable(env, s) && env.limit == 2 && 1 !in s.conns && 0 in s.conns
    requires s.gateways == map[SN := OneRow(NotSent, Idle, Some(0), 2, 1)]
    ensures Reachable(env, s') && s'.hub == s.hub.(payloads := s'.hub.payloads)
    ensures 1 in s'.conns && s'.conns == s.conns[1 := s'.conns[1]]
    ensures s'.conns[1].sn == SN && s'.conns[1].handler == Free && s'.conns[1].requests == [FirstRequest(2)]
  {
    var s1 := Reconnect(env, s);
    hide *;
    s' := SendOne(env, s1, 1, NewConn(), 1, 0);
    NewConnIs(FirstRequest(2));
  }

  lemma NewConnIs(request: Request)
    ensures NewConn().sn == SN && NewConn().handler == Free && NewConn().requests + [request] == [request]
  {}

  lemma Reconnect(env: Env, s: State) returns (s': State)
    requires Reachable(env, s) && 1 !in s.conns && 0 in s.conns
    requires s.gateways == map[SN := OneRow(NotSent, Idle, Some(0), 2, 1)]
    ensures Reachable(env, s')
    ensures s' == State(map[SN := OneRow(NotSent, Idle, Some(1), 1, 0)], s.conns[1 := NewConn()], s.hub)
  {
    hide Reachable, First;
    var s1 := Next(env, s, Leave(SN));
    Reach(env, s, Leave(SN), s1);
    s' := Next(env, s1, Connect(SN, 1));
    Reach(env, s1, Connect(SN, 1), s');
    assert map[SN := s1.gateways[SN]][SN := s'.gateways[SN]] == map[SN := s'.gateways[SN]];
  }

  lemma InsertAgain(env: Env, s: State, c: nat) returns (s': State)
    requires Reachable(env, s) && c in s.conns && s.conns[c].handler.Missed?
    requires s.hub.keys == [KeyOf(env, s.conns[c].handler.request.upload)]
    ensures Reachable(env, s')
    ensures s'.conns == s.conns[c := s.conns[c].(handler := Owes(s.conns[c].handler.request))]
    ensures s'.hub.attempts == s.hub.attempts && s'.hub.evicted == s.hub.evicted && s'.hub.keys == s.hub.keys
  {
    hide KeyOf, Reachable;
    s' := Inserting(env, s, c);
    assert s.hub.keys[1..] == [];
    Reach(env, s, Insert(c), s');
  }

  /**
   Looking a key up and inserting it are two critical sections: with two busy handlers of one gateway
   the same payload is saved twice although its key was never evicted.
   */
  lemma TwoHandlersSaveTwice(hash: bytes -> bytes) returns (s: State)
    ensures Reachable(Small(hash), s)
    ensures s.hub.attempts[FirstUpload()] == 2 && s.hub.evicted == multiset{}
  {
    var env := Small(hash);
    Begin(env);
    s := GiveUp(env, Begun(), 0, FirstRequest(2), 2);
    s := Resend(env, s);
    hide Reachable, UploadBytes, KeyOf, FirstUpload, OneRow;
    s := LookMisses(env, s, 0, FirstRequest(2));
    s := LookMisses(env, s, 1, FirstRequest(2));
    s := InsertFirst(env, s, 0);
    s := FinishFirst(env, s, 0, STORED);
    s := InsertAgain(env, s, 1);
    s := FinishFirst(env, s, 1, STORED);
  }
}
