/**
 What the upload protocol guarantees over every run, and the hypotheses that are needed for it.
 */
module ProtocolTheorems {
  import opened Bytes
  import opened Payload
  import opened PayloadProperties
  import opened Recency
  import opened ClientStore
  import opened Protocol
  import opened ProtocolSafety
  import Dedup
  import Server
  import Client

  lemma StepOf(env: Env, states: seq<State>, steps: seq<Step>, i: nat)
    requires IsRun(env, states, steps) && i < |steps|
    ensures Enabled(env, states[i], steps[i]) && states[i + 1] == Next(env, states[i], steps[i])
  {
    hide Enabled, Next;
  }

  lemma {:induction false} RunKeepsInv(env: Env, states: seq<State>, steps: seq<Step>, n: nat)
    requires IsRun(env, states, steps) && n < |states|
    ensures Inv(env, states[n])
  {
    hide IsStep;
    if n > 0 {
      hide *;
      StepOf(env, states, steps, n - 1);
      RunKeepsInv(env, states, steps, n - 1);
      NextKeeps(env, states[n - 1], steps[n - 1]);
    }
  }

  lemma NextGrows(env: Env, s: State, step: Step)
    requires Enabled(env, s, step)
    ensures HubGrows(s.hub, Next(env, s, step).hub)
  {
    hide DecodeUpload, Hit, Added, Mark, Pending, NewRows;
  }

  lemma {:induction false} RunGrows(env: Env, states: seq<State>, steps: seq<Step>, m: nat, n: nat)
    requires IsRun(env, states, steps) && m <= n < |states|
    ensures HubGrows(states[m].hub, states[n].hub)
    decreases n
  {
    hide Next, Enabled;
    if m < n {
      StepOf(env, states, steps, n - 1);
      RunGrows(env, states, steps, m, n - 1);
      NextGrows(env, states[n - 1], steps[n - 1]);
    }
  }

  // ---- No gateway counts more batches as sent than Ok acknowledgements were emitted ----

  /** With no hypothesis at all: on every connection, batches marked Sent never exceed Ok acks emitted. */
  lemma MarkedAtMostAcked(env: Env, states: seq<State>, steps: seq<Step>, n: nat, c: nat)
    requires IsRun(env, states, steps) && n < |states| && c in states[n].conns
    ensures states[n].conns[c].marked <= states[n].conns[c].okSent
  {
    RunKeepsInv(env, states, steps, n);
    assert ConnOk(states[n].conns[c], states[n].hub);
  }

  // ---- A row marked Sent was accepted ----

  /** The hash tells the payloads of the run apart. */
  predicate NoCollision(env: Env, payloads: set<bytes>) {
    forall p, q | p in payloads && q in payloads ::
      |env.hash(p)| == |env.hash(q)| && (env.hash(p) == env.hash(q) ==> p == q)
  }

  /** The acknowledgement a gateway would take, and the request it waits for. */
  function Offered(s: State, sn: Sn): AckMsg
    requires CanAnswer(s, sn)
  {
    Link(s, sn).acks[0]
  }

  function Awaited(s: State, sn: Sn): Request
    requires CanAnswer(s, sn)
  {
    s.gateways[sn].phase.request
  }

  /** An Ok acknowledgement is taken only with the message id waited for, and less than 65536 messages late. */
  predicate IdMatches(s: State, step: Step) {
    step.Answer? && CanAnswer(s, step.sn) && Offered(s, step.sn).code == Server.OK ==>
      Offered(s, step.sn).request.MsgId() == Awaited(s, step.sn).MsgId()
      && Awaited(s, step.sn).serial - Offered(s, step.sn).request.serial < 0x1_0000
  }

  /** Equal ids, less than 65536 messages apart, mean that the acknowledgement answers the very request waited for. */
  lemma MessageIdIdentifies(env: Env, s: State, sn: Sn)
    requires Inv(env, s) && CanAnswer(s, sn)
    requires var a, w := Offered(s, sn).request, Awaited(s, sn); a.MsgId() == w.MsgId() && w.serial - a.serial < 0x1_0000
    ensures Offered(s, sn).request == Awaited(s, sn)
  {
    var g, k := s.gateways[sn], Link(s, sn);
    assert GatewayOk(sn, g, s.conns) && ConnOk(k, s.hub);
    assert k.acks[0] in k.acks;
    SameResidue(k.acks[0].request.serial, g.phase.request.serial);
  }

  lemma SameResidue(a: nat, w: nat)
    requires a <= w && a % 0x1_0000 == w % 0x1_0000 && w - a < 0x1_0000
    ensures a == w
  {}

  ghost predicate AllAcksOk(s: State) {
    forall c | c in s.conns :: AcksOk(s.conns[c], s.hub)
  }

  lemma HitMeansAccepted(env: Env, s: State, u: Upload)
    requires Inv(env, s) && NoCollision(env, s.hub.payloads)
    requires u.payload in s.hub.payloads && KeyOf(env, u) in s.hub.keys
    ensures u in s.hub.accepted
  {
    assert KeysOk(env, s.hub);
    var v :| v in s.hub.accepted && KeyOf(env, v) == KeyOf(env, u);
    Server.UploadKeyInjective(env.hash, u.sn, u.payload, v.sn, v.payload);
  }

  lemma LookAcks(env: Env, s: State, c: nat)
    requires Inv(env, s) && NoCollision(env, s.hub.payloads)
    requires c in s.conns && s.conns[c].handler.Free? && s.conns[c].requests != [] && AcksOk(s.conns[c], s.hub)
    ensures AcksOk(Looking(env, s, c).conns[c], s.hub)
  {
    var k := s.conns[c];
    assert ConnOk(k, s.hub) && k.requests[0] in k.requests;
    if KeyOf(env, k.requests[0].upload) in s.hub.keys {
      HitMeansAccepted(env, s, k.requests[0].upload);
    }
  }

  lemma FinishAcks(env: Env, s: State, c: nat, result: SaveResult)
    requires Inv(env, s) && c in s.conns && s.conns[c].handler.Owes? && AcksOk(s.conns[c], s.hub)
    ensures AcksOk(Finishing(s, c, result).conns[c], s.hub)
  {
    hide DecodeUpload;
    assert ConnOk(s.conns[c], s.hub);
  }

  /** Steps other than a look-up or a finish add no acknowledgement anywhere; those two only on their own connection. */
  lemma OtherAcks(env: Env, s: State, step: Step, c: nat)
    requires Enabled(env, s, step) && c in Next(env, s, step).conns
    requires !((step.Look? || step.Finish?) && step.c == c)
    ensures forall a | a in Next(env, s, step).conns[c].acks :: c in s.conns && a in s.conns[c].acks
  {
    hide DecodeUpload, Hit, Added, KeyOf, MarkBatch, BatchOf, UploadBytes, AllFit, NewRows;
  }

  lemma AcksKept(env: Env, s: State, step: Step)
    requires Inv(env, s) && Enabled(env, s, step) && AllAcksOk(s)
    requires NoCollision(env, Next(env, s, step).hub.payloads)
    ensures AllAcksOk(Next(env, s, step))
  {
    var s' := Next(env, s, step);
    NextGrows(env, s, step);
    forall c | c in s'.conns
      ensures AcksOk(s'.conns[c], s'.hub)
    {
      if step.Look? && step.c == c {
        LookAcks(env, s, c);
      } else if step.Finish? && step.c == c {
        FinishAcks(env, s, c, step.result);
      } else {
        OtherAcks(env, s, step, c);
        hide Next, Enabled;
        assert c in s.conns ==> AcksOk(s.conns[c], s.hub);
      }
    }
  }

  lemma FewerCollisions(env: Env, states: seq<State>, steps: seq<Step>, n: nat)
    requires IsRun(env, states, steps) && 0 < n < |states|
    requires NoCollision(env, states[n].hub.payloads)
    ensures NoCollision(env, states[n - 1].hub.payloads)
  {
    hide IsRun;
    RunGrows(env, states, steps, n - 1, n);
  }

  lemma {:induction false} RunKeepsAcks(env: Env, states: seq<State>, steps: seq<Step>, n: nat)
    requires IsRun(env, states, steps) && n < |states|
    requires NoCollision(env, states[n].hub.payloads)
    ensures AllAcksOk(states[n])
  {
    hide IsStep;
    if n > 0 {
      hide *;
      StepOf(env, states, steps, n - 1);
      FewerCollisions(env, states, steps, n);
      RunKeepsAcks(env, states, steps, n - 1);
      RunKeepsInv(env, states, steps, n - 1);
      AcksKept(env, states[n - 1], steps[n - 1]);
    }
  }

  /** A row marked with a batch is a row of the batch. */
  lemma MarkedRowInBatch(g: Gateway, batch: seq<Reading>, i: nat)
    requires Ascending(g.rows) && i < |g.rows|
    requires forall r | r in batch :: r in ReadingsOf(g.rows)
    requires g.rows[i].reading.id in (set r | r in batch :: r.id)
    ensures g.rows[i].reading in batch
  {
    var r :| r in batch && r.id == g.rows[i].reading.id;
    var j :| 0 <= j < |g.rows| && ReadingsOf(g.rows)[j] == r;
    assert i == j;
  }

  lemma CarriedBatch(sn: Sn, batch: seq<Reading>)
    requires AllFit(batch) && |batch| < 0x1_0000_0000
    ensures Carried(Upload(sn, UploadBytes(batch))) == batch
  {
    UploadRoundTripIff([], batch);
  }

  lemma ServerKeepsTables(env: Env, s: State, step: Step)
    requires Enabled(env, s, step)
    requires step.Look? || step.Insert? || step.Finish? || step.LoseRequests? || step.LoseAck?
    ensures Next(env, s, step).gateways == s.gateways
  {
    hide DecodeUpload, Hit, Added, KeyOf, Acked, CanSend;
  }

  /** The Sent rows of `rows'` were Sent rows before, at the same place. */
  ghost predicate NoneSent(rows: seq<Row>, rows': seq<Row>) {
    forall i | 0 <= i < |rows'| && rows'[i].status == Sent :: i < |rows| && rows[i] == rows'[i]
  }

  function RowsOf(s: State, sn: Sn): seq<Row> {
    if sn in s.gateways then s.gateways[sn].rows else []
  }

  lemma MarkedNotSent(g: Gateway, batch: seq<Reading>, status: UploadStatus)
    requires status != Sent
    ensures NoneSent(g.rows, MarkBatch(g, batch, status))
  {}

  lemma SendMakesNoneSent(env: Env, s: State, sn: Sn, write: WriteResult, of: Sn)
    requires CanSend(env, s, sn)
    ensures NoneSent(RowsOf(s, of), RowsOf(Transmitting(env, s, sn, write), of))
  {
    var g := s.gateways[sn];
    MarkedNotSent(g, ReadingsOf(BatchOf(env, g)), ClientStore.Sending);
    MarkedNotSent(g, ReadingsOf(BatchOf(env, g)), ClientStore.Failed);
    hide MarkBatch, BatchOf, UploadBytes, AllFit;
  }

  lemma EndMakesNoneSent(env: Env, s: State, sn: Sn, stored: bool, of: Sn)
    requires sn in s.gateways
    ensures NoneSent(RowsOf(s, of), RowsOf(Refusing(env, s, sn, stored), of))
    ensures Connected(s, sn) && s.gateways[sn].phase.Waiting? ==> NoneSent(RowsOf(s, of), RowsOf(TimingOut(s, sn, stored), of))
  {
    var g := s.gateways[sn];
    MarkedNotSent(g, ReadingsOf(BatchOf(env, g)), ClientStore.Failed);
    if g.phase.Waiting? {
      MarkedNotSent(g, g.phase.batch, NotSent);
    }
    hide MarkBatch, BatchOf;
  }

  /** Only taking an acknowledgement makes a row Sent. */
  lemma OthersMakeNoneSent(env: Env, s: State, step: Step, sn: Sn)
    requires Enabled(env, s, step) && !(step.Answer? && step.sn == sn)
    ensures NoneSent(RowsOf(s, sn), RowsOf(Next(env, s, step), sn))
  {
    if step.Look? || step.Insert? || step.Finish? || step.LoseRequests? || step.LoseAck? {
      ServerKeepsTables(env, s, step);
      hide Next, Enabled;
    } else {
      match step
      case Send(g, write) =>
        SendMakesNoneSent(env, s, g, write, sn);
        hide NoneSent, Transmitting, CanSend;
      case Refuse(g, stored) =>
        EndMakesNoneSent(env, s, g, stored, sn);
        hide NoneSent, Refusing;
      case Timeout(g, stored) =>
        EndMakesNoneSent(env, s, g, stored, sn);
        hide NoneSent, TimingOut;
      case _ =>
        hide CanSend, MarkBatch;
    }
  }

  lemma SentWasSent(env: Env, s: State, step: Step, sn: Sn, i: nat)
    requires Enabled(env, s, step) && !(step.Answer? && step.sn == sn) && IsSent(Next(env, s, step), sn, i)
    ensures IsSent(s, sn, i)
  {
    OthersMakeNoneSent(env, s, step, sn);
    hide Next, Enabled;
  }

  /** The gateway takes an Ok and records row `i`, of the batch it waits for, as Sent. */
  ghost predicate MakesSent(s: State, step: Step, s': State, sn: Sn, i: nat) {
    && step == Answer(sn, true) && CanAnswer(s, sn) && Offered(s, sn).code == Server.OK
    && i < |s.gateways[sn].rows| && s.gateways[sn].rows[i].status != Sent
    && s.gateways[sn].rows[i].reading in s.gateways[sn].phase.batch
    && sn in s'.gateways && i < |s'.gateways[sn].rows| && s'.gateways[sn].rows[i].status == Sent
  }

  predicate IsSent(s: State, sn: Sn, i: nat) {
    sn in s.gateways && i < |s.gateways[sn].rows| && s.gateways[sn].rows[i].status == Sent
  }

  lemma AnswerMakesSent(env: Env, s: State, sn: Sn, stored: bool, i: nat)
    requires Inv(env, s) && CanAnswer(s, sn) && !IsSent(s, sn, i) && IsSent(Answering(s, sn, stored), sn, i)
    ensures MakesSent(s, Answer(sn, stored), Answering(s, sn, stored), sn, i)
  {
    hide UploadBytes, AllFit, ConnOk, HubOk;
    var g := s.gateways[sn];
    assert GatewayOk(sn, g, s.conns);
    MarkedRowInBatch(g, g.phase.batch, i);
  }

  /** A row that becomes Sent does so by an Ok its gateway takes. */
  lemma StepMakesSent(env: Env, s: State, step: Step, sn: Sn, i: nat)
    requires Inv(env, s) && Enabled(env, s, step) && !IsSent(s, sn, i) && IsSent(Next(env, s, step), sn, i)
    ensures MakesSent(s, step, Next(env, s, step), sn, i)
  {
    if step.Answer? && step.sn == sn {
      AnswerMakesSent(env, s, sn, step.stored, i);
    } else {
      SentWasSent(env, s, step, sn, i);
    }
  }

  /** Every Sent row was made Sent at some step of the run. */
  lemma {:induction false} WhenSent(env: Env, states: seq<State>, steps: seq<Step>, n: nat, sn: Sn, i: nat) returns (j: nat)
    requires IsRun(env, states, steps) && n < |states| && IsSent(states[n], sn, i)
    ensures j < n && MakesSent(states[j], steps[j], states[j + 1], sn, i)
  {
    hide IsStep, MakesSent;
    if n > 0 {
      hide IsSent;
      if IsSent(states[n - 1], sn, i) {
        j := WhenSent(env, states, steps, n - 1, sn, i);
      } else {
        j := n - 1;
        BecomesSent(env, states, steps, j, sn, i);
      }
    }
  }

  lemma BecomesSent(env: Env, states: seq<State>, steps: seq<Step>, j: nat, sn: Sn, i: nat)
    requires IsRun(env, states, steps) && j < |steps| && !IsSent(states[j], sn, i) && IsSent(states[j + 1], sn, i)
    ensures MakesSent(states[j], steps[j], states[j + 1], sn, i)
  {
    StepOf(env, states, steps, j);
    RunKeepsInv(env, states, steps, j);
    hide *;
    StepMakesSent(env, states[j], steps[j], sn, i);
  }

  /** The Ok that makes a row Sent, with the id waited for, answers the batch waited for, which was accepted and carries the row. */
  lemma OfferedUpload(env: Env, s: State, step: Step, s': State, sn: Sn, i: nat)
    requires Inv(env, s) && AllAcksOk(s) && MakesSent(s, step, s', sn, i) && IdMatches(s, step)
    ensures var u := Offered(s, sn).request.upload;
            u == Awaited(s, sn).upload && u.sn == sn && u in s.hub.accepted && s.gateways[sn].rows[i].reading in Carried(u)
  {
    hide UploadBytes, AllFit, Carried;
    MessageIdIdentifies(env, s, sn);
    var g, k := s.gateways[sn], Link(s, sn);
    assert GatewayOk(sn, g, s.conns) && AcksOk(k, s.hub) && k.acks[0] in k.acks;
    CarriedBatch(sn, g.phase.batch);
  }

  /**
   Whatever is lost, late, repeated or interleaved: in every run that takes Ok acknowledgements only with
   the id waited for, each Sent row was made so by an Ok for the very upload its gateway was waiting for.
   That upload carried the row, and it was saved, failed itself, or has a handler still about to save it.
   */
  lemma SentMeansSaved(env: Env, states: seq<State>, steps: seq<Step>, n: nat, sn: Sn, i: nat) returns (j: nat)
    requires IsRun(env, states, steps) && n < |states| && IsSent(states[n], sn, i)
    requires NoCollision(env, states[n].hub.payloads)
    requires forall m | 0 <= m < n :: IdMatches(states[m], steps[m])
    ensures j < n && MakesSent(states[j], steps[j], states[j + 1], sn, i)
    ensures var u := Offered(states[j], sn).request.upload;
            && u == Awaited(states[j], sn).upload && u.sn == sn
            && states[n].gateways[sn].rows[i].reading in Carried(u)
            && (u in states[n].hub.saved || u in states[n].hub.failed || Owed(states[n].conns, u))
  {
    j := WhenSent(env, states, steps, n, sn, i);
    SentAt(env, states, steps, j, n, sn, i);
  }

  lemma SentAt(env: Env, states: seq<State>, steps: seq<Step>, j: nat, n: nat, sn: Sn, i: nat)
    requires IsRun(env, states, steps) && j < n < |states| && MakesSent(states[j], steps[j], states[j + 1], sn, i)
    requires NoCollision(env, states[n].hub.payloads) && IdMatches(states[j], steps[j])
    ensures var u := Offered(states[j], sn).request.upload;
            && u == Awaited(states[j], sn).upload && u.sn == sn
            && sn in states[n].gateways && i < |states[n].gateways[sn].rows|
            && states[n].gateways[sn].rows[i].reading in Carried(u)
            && (u in states[n].hub.saved || u in states[n].hub.failed || Owed(states[n].conns, u))
  {
    hide IsStep, Carried, Owed, MakesSent, IdMatches, NoCollision, HubGrows, TablesKept;
    RunGrows(env, states, steps, j, n);
    RunKeepsInv(env, states, steps, j);
    RunKeepsInv(env, states, steps, n);
    RunKeepsTables(env, states, steps, j, n);
    FewerPayloads(env, states[j].hub, states[n].hub);
    RunKeepsAcks(env, states, steps, j);
    hide IsRun;
    SentBetween(env, states[j], steps[j], states[j + 1], states[n], sn, i);
  }

  lemma FewerPayloads(env: Env, hub: Hub, hub': Hub)
    requires HubGrows(hub, hub') && NoCollision(env, hub'.payloads)
    ensures NoCollision(env, hub.payloads)
  {}

  /** `s'` follows the step that makes the row Sent, `t` is any later state. */
  lemma SentBetween(env: Env, s: State, step: Step, s': State, t: State, sn: Sn, i: nat)
    requires Inv(env, s) && AllAcksOk(s) && MakesSent(s, step, s', sn, i) && IdMatches(s, step)
    requires Inv(env, t) && HubGrows(s.hub, t.hub) && TablesKept(s.gateways, t.gateways)
    ensures CanAnswer(s, sn)
    ensures var u := Offered(s, sn).request.upload;
            && u == Awaited(s, sn).upload && u.sn == sn
            && sn in t.gateways && i < |t.gateways[sn].rows| && t.gateways[sn].rows[i].reading in Carried(u)
            && (u in t.hub.saved || u in t.hub.failed || Owed(t.conns, u))
  {
    OfferedUpload(env, s, step, s', sn, i);
    RowAt(s.gateways, t.gateways, sn, i);
    hide Carried, Owed, GatewayOk, ConnOk, KeysOk, IdMatches, AllAcksOk, TablesKept;
  }

  lemma RowAt(gateways: map<Sn, Gateway>, gateways': map<Sn, Gateway>, sn: Sn, i: nat)
    requires TablesKept(gateways, gateways') && sn in gateways && i < |gateways[sn].rows|
    ensures sn in gateways' && i < |gateways'[sn].rows| && gateways'[sn].rows[i].reading == gateways[sn].rows[i].reading
  {
    assert ReadingsOf(gateways[sn].rows)[i] == ReadingsOf(gateways'[sn].rows)[i];
  }

  // ---- What the server saved came from the gateway ----

  /** The upload carries only readings of its gateway's table. */
  predicate Genuine(gateways: map<Sn, Gateway>, u: Upload) {
    u.sn in gateways && forall r | r in Carried(u) :: r in ReadingsOf(gateways[u.sn].rows)
  }

  ghost predicate GenuineInv(s: State) {
    && (forall c, n | c in s.conns && n in s.conns[c].sent :: Genuine(s.gateways, s.conns[c].sent[n].upload))
    && (forall u | u in s.hub.accepted :: Genuine(s.gateways, u))
    && s.hub.saved <= s.hub.accepted
  }

  /** No table loses a gateway or a row. */
  ghost predicate TablesKept(gateways: map<Sn, Gateway>, gateways': map<Sn, Gateway>) {
    forall sn | sn in gateways :: sn in gateways' && ReadingsOf(gateways[sn].rows) <= ReadingsOf(gateways'[sn].rows)
  }

  lemma MarkKeepsReadings(g: Gateway, batch: seq<Reading>, status: UploadStatus)
    ensures ReadingsOf(MarkBatch(g, batch, status)) == ReadingsOf(g.rows)
  {}

  lemma CollectKeepsTables(g: Gateway, rs: seq<Reading>)
    requires g.nextId + |rs| <= LAST_ID
    ensures ReadingsOf(g.rows) <= ReadingsOf(g.rows + NewRows(g.nextId, rs))
  {
    var more := NewRows(g.nextId, rs);
    assert ReadingsOf(g.rows + more) == ReadingsOf(g.rows) + ReadingsOf(more);
  }

  lemma TransmittingKeepsTables(env: Env, s: State, sn: Sn, write: WriteResult)
    requires CanSend(env, s, sn)
    ensures TablesKept(s.gateways, Transmitting(env, s, sn, write).gateways)
  {
    hide MarkBatch, Pending, UploadBytes;
    var g := s.gateways[sn];
    MarkKeepsReadings(g, ReadingsOf(BatchOf(env, g)), ClientStore.Sending);
    MarkKeepsReadings(g, ReadingsOf(BatchOf(env, g)), ClientStore.Failed);
  }

  lemma RefusingKeepsTables(env: Env, s: State, sn: Sn, stored: bool)
    requires sn in s.gateways
    ensures TablesKept(s.gateways, Refusing(env, s, sn, stored).gateways)
  {
    hide MarkBatch, Pending;
    var g := s.gateways[sn];
    MarkKeepsReadings(g, ReadingsOf(BatchOf(env, g)), ClientStore.Failed);
  }

  lemma ConcludingKeepsTables(s: State, sn: Sn, stored: bool)
    requires Connected(s, sn) && s.gateways[sn].phase.Waiting?
    ensures TablesKept(s.gateways, TimingOut(s, sn, stored).gateways)
    ensures CanAnswer(s, sn) ==> TablesKept(s.gateways, Answering(s, sn, stored).gateways)
  {
    hide MarkBatch;
    MarkKeepsReadings(s.gateways[sn], s.gateways[sn].phase.batch, Sent);
    MarkKeepsReadings(s.gateways[sn], s.gateways[sn].phase.batch, NotSent);
  }

  lemma NextKeepsTables(env: Env, s: State, step: Step)
    requires Enabled(env, s, step)
    ensures TablesKept(s.gateways, Next(env, s, step).gateways)
  {
    match step
    case Collect(sn, rs) =>
      hide NewRows;
      CollectKeepsTables(s.gateways[sn], rs);
    case Refuse(sn, stored) =>
      RefusingKeepsTables(env, s, sn, stored);
    case Send(sn, write) =>
      hide Transmitting, CanSend;
      TransmittingKeepsTables(env, s, sn, write);
    case Answer(sn, stored) =>
      hide Answering;
      ConcludingKeepsTables(s, sn, stored);
    case Timeout(sn, stored) =>
      hide TimingOut;
      ConcludingKeepsTables(s, sn, stored);
    case Look(c) => ServerKeepsTables(env, s, step);
    case Insert(c) => ServerKeepsTables(env, s, step);
    case Finish(c, _) => ServerKeepsTables(env, s, step);
    case LoseRequests(_, _) => ServerKeepsTables(env, s, step);
    case LoseAck(_, _) => ServerKeepsTables(env, s, step);
    case _ =>
  }

  lemma {:induction false} RunKeepsTables(env: Env, states: seq<State>, steps: seq<Step>, m: nat, n: nat)
    requires IsRun(env, states, steps) && m <= n < |states|
    ensures TablesKept(states[m].gateways, states[n].gateways)
    decreases n
  {
    hide IsStep;
    if m < n {
      StepOf(env, states, steps, n - 1);
      RunKeepsTables(env, states, steps, m, n - 1);
      NextKeepsTables(env, states[n - 1], steps[n - 1]);
      hide IsRun, Next, Enabled;
    }
  }

  lemma GenuineKept(gateways: map<Sn, Gateway>, gateways': map<Sn, Gateway>, u: Upload)
    requires Genuine(gateways, u) && TablesKept(gateways, gateways')
    ensures Genuine(gateways', u)
  {}

  lemma BatchIsGenuine(env: Env, s: State, sn: Sn)
    requires CanSend(env, s, sn)
    ensures Genuine(s.gateways, Upload(sn, UploadBytes(ReadingsOf(BatchOf(env, s.gateways[sn])))))
  {
    hide UploadBytes, Carried, Pending;
    var batch := ReadingsOf(BatchOf(env, s.gateways[sn]));
    UploadLength(batch);
    CarriedBatch(sn, batch);
    BatchOfOk(env, s.gateways[sn]);
  }

  /** The requests of a connection after a step: those before, or the batch just sent. */
  lemma SentRequests(env: Env, s: State, step: Step, c: nat, n: nat)
    requires Enabled(env, s, step)
    requires c in Next(env, s, step).conns && n in Next(env, s, step).conns[c].sent
    ensures var u := Next(env, s, step).conns[c].sent[n].upload;
            (c in s.conns && n in s.conns[c].sent && s.conns[c].sent[n].upload == u)
            || (step.Send? && u == Upload(step.sn, UploadBytes(ReadingsOf(BatchOf(env, s.gateways[step.sn])))))
  {
    if step.Send? {
      SendRequests(env, s, step.sn, step.write, c, n);
      hide BatchOf, UploadBytes, Transmitting, CanSend;
    } else {
      KeptRequests(env, s, step, c);
      hide *;
    }
  }

  lemma SameConns(env: Env, s: State, step: Step)
    requires Enabled(env, s, step)
    requires step.Join? || step.Collect? || step.Build? || step.Refuse? || step.Timeout? || step.Cancel? || step.Leave?
    ensures Next(env, s, step).conns == s.conns
  {
    hide NewRows, MarkBatch, BatchOf, ReadingsOf, CanSend, Looking, Inserting, Finishing, Answering, Transmitting;
  }

  lemma KeptRequests(env: Env, s: State, step: Step, c: nat)
    requires Enabled(env, s, step) && !step.Send? && c in Next(env, s, step).conns
    ensures var sent := Next(env, s, step).conns[c].sent; sent == map[] || (c in s.conns && sent == s.conns[c].sent)
  {
    hide DecodeUpload, Hit, Added, BatchOf, MarkBatch, CanSend, KeyOf, SaveOf, NewRows, ReadingsOf, Transmitting;
    if step.Join? || step.Collect? || step.Build? || step.Refuse? || step.Timeout? || step.Cancel? || step.Leave? {
      SameConns(env, s, step);
      hide *;
      return;
    }
    hide Refusing, TimingOut;
    match step
    case Look(_) => hide Finishing, Inserting, Answering;
    case Insert(_) => hide Finishing, Looking, Answering;
    case Finish(d, result) =>
      FinishFrame(s, d, result);
      hide Finishing, Looking, Inserting, Answering;
    case Answer(_, _) => hide Finishing, Looking, Inserting;
    case _ => hide Finishing, Looking, Inserting, Answering;
  }

  lemma SendRequests(env: Env, s: State, sn: Sn, write: WriteResult, c: nat, n: nat)
    requires CanSend(env, s, sn)
    requires c in Transmitting(env, s, sn, write).conns && n in Transmitting(env, s, sn, write).conns[c].sent
    ensures var u := Transmitting(env, s, sn, write).conns[c].sent[n].upload;
            (c in s.conns && n in s.conns[c].sent && s.conns[c].sent[n].upload == u)
            || u == Upload(sn, UploadBytes(ReadingsOf(BatchOf(env, s.gateways[sn]))))
  {
    hide BatchOf, MarkBatch, UploadBytes, AllFit;
  }

  /** Only inserting a key accepts an upload: the one its handler took up. */
  lemma NewlyAccepted(env: Env, s: State, step: Step)
    requires Enabled(env, s, step)
    ensures var accepted := Next(env, s, step).hub.accepted;
            if step.Insert? then accepted == s.hub.accepted + {s.conns[step.c].handler.request.upload}
            else accepted == s.hub.accepted
  {
    hide DecodeUpload, Hit, Added, Pending, MarkBatch, KeyOf, CanSend;
  }

  lemma AcceptedUploads(env: Env, s: State, step: Step, u: Upload)
    requires Inv(env, s) && GenuineInv(s) && Enabled(env, s, step)
    requires u in Next(env, s, step).hub.accepted
    ensures Genuine(s.gateways, u)
  {
    NewlyAccepted(env, s, step);
    hide Next, Genuine, GatewayOk, HubOk;
    if step.Insert? {
      assert ConnOk(s.conns[step.c], s.hub);
    }
  }

  lemma SavedIsAccepted(env: Env, s: State, step: Step)
    requires Inv(env, s) && s.hub.saved <= s.hub.accepted && Enabled(env, s, step)
    ensures Next(env, s, step).hub.saved <= Next(env, s, step).hub.accepted
  {
    hide DecodeUpload, Hit, Added, Pending, MarkBatch, GatewayOk, HubOk, CanSend;
    if step.Finish? {
      assert ConnOk(s.conns[step.c], s.hub);
    }
  }

  /** A request after a step is as genuine as the table it came from. */
  lemma SentIsGenuine(env: Env, s: State, step: Step, c: nat, n: nat)
    requires GenuineInv(s) && Enabled(env, s, step)
    requires c in Next(env, s, step).conns && n in Next(env, s, step).conns[c].sent
    ensures Genuine(s.gateways, Next(env, s, step).conns[c].sent[n].upload)
  {
    SentRequests(env, s, step, c, n);
    if step.Send? {
      BatchIsGenuine(env, s, step.sn);
    }
    hide Next, Genuine, CanSend, BatchOf;
  }

  lemma SentStillGenuine(env: Env, s: State, step: Step, c: nat, n: nat)
    requires GenuineInv(s) && Enabled(env, s, step)
    requires c in Next(env, s, step).conns && n in Next(env, s, step).conns[c].sent
    ensures Genuine(Next(env, s, step).gateways, Next(env, s, step).conns[c].sent[n].upload)
  {
    SentIsGenuine(env, s, step, c, n);
    NextKeepsTables(env, s, step);
    hide *;
    GenuineKept(s.gateways, Next(env, s, step).gateways, Next(env, s, step).conns[c].sent[n].upload);
  }

  lemma AcceptedStillGenuine(env: Env, s: State, step: Step, u: Upload)
    requires Inv(env, s) && GenuineInv(s) && Enabled(env, s, step) && u in Next(env, s, step).hub.accepted
    ensures Genuine(Next(env, s, step).gateways, u)
  {
    AcceptedUploads(env, s, step, u);
    NextKeepsTables(env, s, step);
    hide *;
    GenuineKept(s.gateways, Next(env, s, step).gateways, u);
  }

  lemma GenuineStep(env: Env, s: State, step: Step)
    requires Inv(env, s) && GenuineInv(s) && Enabled(env, s, step)
    ensures GenuineInv(Next(env, s, step))
  {
    var s' := Next(env, s, step);
    SavedIsAccepted(env, s, step);
    hide Next, Genuine, Inv, Enabled;
    forall c, n | c in s'.conns && n in s'.conns[c].sent
      ensures Genuine(s'.gateways, s'.conns[c].sent[n].upload)
    {
      SentStillGenuine(env, s, step, c, n);
    }
    forall u | u in s'.hub.accepted
      ensures Genuine(s'.gateways, u)
    {
      AcceptedStillGenuine(env, s, step, u);
    }
  }

  lemma {:induction false} RunIsGenuine(env: Env, states: seq<State>, steps: seq<Step>, n: nat)
    requires IsRun(env, states, steps) && n < |states|
    ensures GenuineInv(states[n])
  {
    hide IsStep;
    if n > 0 {
      hide *;
      StepOf(env, states, steps, n - 1);
      RunIsGenuine(env, states, steps, n - 1);
      RunKeepsInv(env, states, steps, n - 1);
      GenuineStep(env, states[n - 1], steps[n - 1]);
    }
  }

  /** With no hypothesis at all: every reading the server saved is, unchanged, a row of that gateway's own table. */
  lemma SavedIsGenuine(env: Env, states: seq<State>, steps: seq<Step>, n: nat, u: Upload, r: Reading)
    requires IsRun(env, states, steps) && n < |states|
    requires u in states[n].hub.saved && r in Carried(u)
    ensures u.sn in states[n].gateways && r in ReadingsOf(states[n].gateways[u.sn].rows)
  {
    RunIsGenuine(env, states, steps, n);
  }
}
