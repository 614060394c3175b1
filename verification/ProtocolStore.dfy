/**
 Acknowledged means stored: what an Ok acknowledgement is worth when each gateway's uploads
 are handled one at a time, and how the server's tables follow from what was saved.
 */
module ProtocolStore {
  import opened Bytes
  import opened Payload
  import opened PayloadProperties
  import opened Recency
  import opened ClientStore
  import opened Protocol
  import opened ProtocolSafety
  import opened ProtocolTheorems
  import opened ProtocolDedup
  import Dedup
  import DeviceIndex
  import Server

  // ---- The store behind the saved uploads ----

  /** What the saves so far made of the server's tables. */
  function TablesOf(s: State): DeviceIndex.Tables
    requires AllPossible(s.hub.saves)
  {
    DeviceIndex.Run(s.hub.saves)
  }

  predicate AllPossible(saves: seq<DeviceIndex.Save>) {
    forall x | x in saves :: DeviceIndex.Possible(x)
  }

  /** The save is an insert of exactly what the upload carries. */
  predicate Inserts(x: DeviceIndex.Save, u: Upload) {
    x.inserted && x.sn == u.sn && x.rs == Carried(u)
  }

  predicate InsertedBy(saves: seq<DeviceIndex.Save>, u: Upload) {
    exists k :: 0 <= k < |saves| && Inserts(saves[k], u)
  }

  predicate InsertsSome(x: DeviceIndex.Save, saved: set<Upload>) {
    exists u :: u in saved && Inserts(x, u)
  }

  /** The uploads saved are those whose rows some save inserted, and no other rows were inserted. */
  predicate StoreOk(hub: Hub) {
    && AllPossible(hub.saves)
    && (forall u | u in hub.saved :: InsertedBy(hub.saves, u))
    && (forall x | x in hub.saves :: x.inserted ==> InsertsSome(x, hub.saved))
  }

  lemma OtherStepStores(env: Env, s: State, step: Step)
    requires Enabled(env, s, step) && !step.Finish?
    ensures var s' := Next(env, s, step); s'.hub.saves == s.hub.saves && s'.hub.saved == s.hub.saved
  {
    hide DecodeUpload, Hit, Added, KeyOf, BatchOf, MarkBatch, CanSend;
  }

  /** Finishing an upload stores nothing, or tries to save what it carries. */
  lemma FinishStores(s: State, c: nat, result: SaveResult)
    requires c in s.conns && s.conns[c].handler.Owes?
    ensures var s', u := Finishing(s, c, result), s.conns[c].handler.request.upload;
            var save := SaveOf(u.sn, Carried(u), result);
            || (s'.hub.saves == s.hub.saves && s'.hub.saved == s.hub.saved)
            || (s'.hub.saves == s.hub.saves + [save]
                && s'.hub.saved == if save.inserted then s.hub.saved + {u} else s.hub.saved)
  {
    hide DecodeUpload, SaveOf;
  }

  lemma InsertedStill(saves: seq<DeviceIndex.Save>, save: DeviceIndex.Save, u: Upload)
    ensures InsertedBy(saves, u) || Inserts(save, u) ==> InsertedBy(saves + [save], u)
  {
    hide Inserts;
    if InsertedBy(saves, u) {
      var k :| 0 <= k < |saves| && Inserts(saves[k], u);
      assert Inserts((saves + [save])[k], u);
    } else if Inserts(save, u) {
      assert Inserts((saves + [save])[|saves|], u);
    }
  }

  lemma OneMoreSave(hub: Hub, hub': Hub, save: DeviceIndex.Save, u: Upload)
    requires StoreOk(hub) && DeviceIndex.Possible(save) && save.sn == u.sn && save.rs == Carried(u)
    requires hub'.saves == hub.saves + [save]
    requires hub'.saved == if save.inserted then hub.saved + {u} else hub.saved
    ensures StoreOk(hub')
  {
    assert save.inserted ==> Inserts(save, u);
    hide Carried, DeviceIndex.Possible, Inserts, InsertedBy;
    forall v | v in hub'.saved
      ensures InsertedBy(hub'.saves, v)
    {
      InsertedStill(hub.saves, save, v);
    }
    forall x | x in hub'.saves && x.inserted
      ensures InsertsSome(x, hub'.saved)
    {
      if x in hub.saves {
        var v :| v in hub.saved && Inserts(x, v);
        assert v in hub'.saved;
      } else {
        assert u in hub'.saved && Inserts(x, u);
      }
    }
  }

  lemma StoreStep(env: Env, s: State, step: Step)
    requires Enabled(env, s, step) && StoreOk(s.hub)
    ensures StoreOk(Next(env, s, step).hub)
  {
    hide Carried, StoreOk, Finishing;
    if step.Finish? {
      var u := s.conns[step.c].handler.request.upload;
      var s' := Finishing(s, step.c, step.result);
      FinishStores(s, step.c, step.result);
      if s'.hub.saves != s.hub.saves {
        OneMoreSave(s.hub, s'.hub, SaveOf(u.sn, Carried(u), step.result), u);
      } else {
        SameStore(s.hub, s'.hub);
      }
    } else {
      OtherStepStores(env, s, step);
      hide Next;
      SameStore(s.hub, Next(env, s, step).hub);
    }
  }

  lemma SameStore(hub: Hub, hub': Hub)
    requires StoreOk(hub) && hub'.saves == hub.saves && hub'.saved == hub.saved
    ensures StoreOk(hub')
  {}

  lemma {:induction false} RunKeepsStore(env: Env, states: seq<State>, steps: seq<Step>, n: nat)
    requires IsRun(env, states, steps) && n < |states|
    ensures StoreOk(states[n].hub)
  {
    hide IsStep;
    if n > 0 {
      hide *;
      StepOf(env, states, steps, n - 1);
      RunKeepsStore(env, states, steps, n - 1);
      StoreStep(env, states[n - 1], steps[n - 1]);
    }
  }

  /** Every reading a saved upload carries has its row in the readings table. */
  lemma SavedIsStored(hub: Hub, u: Upload, r: Reading) returns (x: DeviceIndex.StoredReading)
    requires StoreOk(hub) && u in hub.saved && r in Carried(u)
    ensures x in DeviceIndex.Run(hub.saves).readings && x == DeviceIndex.Stored(u.sn, x.uploadTime, r)
  {
    hide Carried;
    assert InsertedBy(hub.saves, u);
    var k :| 0 <= k < |hub.saves| && Inserts(hub.saves[k], u);
    DeviceIndex.BatchIsStored(hub.saves, k, r);
    x := DeviceIndex.Stored(u.sn, hub.saves[k].now, r);
  }

  /**
   With no hypothesis at all: every row of the readings table is, but for the gateway and the upload time
   added to it, a row of that gateway's own table.
   */
  lemma StoredIsGenuine(env: Env, states: seq<State>, steps: seq<Step>, n: nat, x: DeviceIndex.StoredReading) returns (r: Reading)
    requires IsRun(env, states, steps) && n < |states| && AllPossible(states[n].hub.saves)
    requires x in TablesOf(states[n]).readings
    ensures x.sn in states[n].gateways && r in ReadingsOf(states[n].gateways[x.sn].rows)
    ensures x == DeviceIndex.Stored(x.sn, x.uploadTime, r)
    ensures && x.device == r.device && x.deviceName == r.deviceName && x.point == r.point && x.pointName == r.pointName
            && x.dataType == r.dataType && x.value == r.value && x.quality == r.quality && x.unit == r.unit
            && x.timestamp == r.timestamp
  {
    var hub := states[n].hub;
    RunKeepsStore(env, states, steps, n);
    hide Carried, IsRun;
    var k;
    k, r := DeviceIndex.StoredFromBatch(hub.saves, x);
    assert InsertsSome(hub.saves[k], hub.saved);
    var u :| u in hub.saved && Inserts(hub.saves[k], u);
    SavedIsGenuine(env, states, steps, n, u, r);
  }

  // ---- What an Ok acknowledgement is worth ----

  /** Every Ok acknowledgement in the queue answers an upload that was saved, or that failed. */
  ghost predicate AcksTold(k: Conn, hub: Hub) {
    forall a | a in k.acks :: a.code == Server.OK ==> a.request.upload in hub.saved || a.request.upload in hub.failed
  }

  ghost predicate AllAcksTold(s: State) {
    forall c | c in s.conns :: AcksTold(s.conns[c], s.hub)
  }

  /** When a gateway's handlers are idle, none of its uploads is still to be saved. */
  lemma NoneOwed(env: Env, s: State, c: nat, u: Upload)
    requires Inv(env, s) && Serial(s, Look(c)) && c in s.conns && u.sn == s.conns[c].sn
    ensures !Owed(s.conns, u)
  {
    assert forall d | d in s.conns :: ConnOk(s.conns[d], s.hub);
  }

  /** A payload found in the cache was saved, or it failed. */
  lemma HitIsSettled(env: Env, s: State, c: nat)
    requires Inv(env, s) && NoCollision(env, s.hub.payloads) && Serial(s, Look(c))
    requires c in s.conns && s.conns[c].requests != [] && KeyOf(env, s.conns[c].requests[0].upload) in s.hub.keys
    ensures var u := s.conns[c].requests[0].upload; u in s.hub.saved || u in s.hub.failed
  {
    var k := s.conns[c];
    assert ConnOk(k, s.hub) && k.requests[0] in k.requests;
    HitMeansAccepted(env, s, k.requests[0].upload);
    NoneOwed(env, s, c, k.requests[0].upload);
  }

  /**
   Exactly when a repetition is acknowledged although it is not stored: its key is still in the cache, and
   every time it was handled the saving failed.
   */
  lemma UntrueOkIff(env: Env, s: State, c: nat)
    requires Inv(env, s) && NoCollision(env, s.hub.payloads) && Serial(s, Look(c)) && Enabled(env, s, Look(c))
    ensures var request, s' := s.conns[c].requests[0], Looking(env, s, c);
            var u := request.upload;
            (s'.conns[c].acks == s.conns[c].acks + [AckMsg(Server.OK, request)] && u !in s'.hub.saved)
            <==> (KeyOf(env, u) in s.hub.keys && u in s.hub.failed && u !in s.hub.saved)
  {
    hide KeyOf;
    if KeyOf(env, s.conns[c].requests[0].upload) in s.hub.keys {
      HitIsSettled(env, s, c);
    }
  }

  /** An Ok for an upload just handled is true: all its rows and devices are stored. */
  lemma FinishOkIsTrue(s: State, c: nat, result: SaveResult)
    requires c in s.conns && s.conns[c].handler.Owes?
    requires Finishing(s, c, result).conns[c].acks == s.conns[c].acks + [AckMsg(Server.OK, s.conns[c].handler.request)]
    ensures var s', u := Finishing(s, c, result), s.conns[c].handler.request.upload;
            var save := SaveOf(u.sn, Carried(u), result);
            u in s'.hub.saved && s'.hub.saves == s.hub.saves + [save] && Inserts(save, u)
            && save.done == DeviceIndex.Seen(Carried(u)).Keys
  {
    hide DecodeUpload, DeviceIndex.Seen;
    var request := s.conns[c].handler.request;
    LastAck(s.conns[c].acks, AckMsg(Server.OK, request), AckMsg(Server.FAILED, request));
  }

  lemma LastAck(acks: seq<AckMsg>, a: AckMsg, b: AckMsg)
    requires a != b
    ensures acks + [a] != acks + [b] && acks + [a] != acks
  {
    assert (acks + [a])[|acks|] != (acks + [b])[|acks|];
  }

  lemma LookTells(env: Env, s: State, c: nat)
    requires Inv(env, s) && NoCollision(env, s.hub.payloads) && Serial(s, Look(c)) && Enabled(env, s, Look(c))
    requires AcksTold(s.conns[c], s.hub)
    ensures AcksTold(Looking(env, s, c).conns[c], s.hub)
  {
    hide KeyOf;
    if KeyOf(env, s.conns[c].requests[0].upload) in s.hub.keys {
      HitIsSettled(env, s, c);
    }
  }

  lemma FinishTells(s: State, c: nat, result: SaveResult)
    requires c in s.conns && s.conns[c].handler.Owes? && AcksTold(s.conns[c], s.hub)
    ensures var s' := Finishing(s, c, result); AcksTold(s'.conns[c], s'.hub)
  {
    hide DecodeUpload, SaveOf;
  }

  lemma TellsStep(env: Env, s: State, step: Step)
    requires Inv(env, s) && Enabled(env, s, step) && Serial(s, step) && AllAcksTold(s)
    requires NoCollision(env, s.hub.payloads)
    ensures AllAcksTold(Next(env, s, step))
  {
    var s' := Next(env, s, step);
    NextGrows(env, s, step);
    forall c | c in s'.conns
      ensures AcksTold(s'.conns[c], s'.hub)
    {
      if step.Look? && step.c == c {
        LookTells(env, s, c);
      } else if step.Finish? && step.c == c {
        FinishTells(s, c, step.result);
      } else {
        OtherAcks(env, s, step, c);
        hide Next, Enabled;
        assert c in s.conns ==> AcksTold(s.conns[c], s.hub);
      }
    }
  }

  /** In every run with each gateway's uploads handled one at a time, every Ok on its way answers an upload that was saved, or that failed. */
  lemma {:induction false} RunTells(env: Env, states: seq<State>, steps: seq<Step>, n: nat)
    requires IsRun(env, states, steps) && n < |states|
    requires NoCollision(env, states[n].hub.payloads)
    requires forall m | 0 <= m < n :: Serial(states[m], steps[m])
    ensures AllAcksTold(states[n])
  {
    hide IsStep, NoCollision, Serial;
    if n > 0 {
      hide AllAcksTold;
      FewerCollisions(env, states, steps, n);
      RunTells(env, states, steps, n - 1);
      TellsAfter(env, states, steps, n - 1);
    }
  }

  lemma TellsAfter(env: Env, states: seq<State>, steps: seq<Step>, n: nat)
    requires IsRun(env, states, steps) && n < |steps|
    requires NoCollision(env, states[n].hub.payloads) && Serial(states[n], steps[n]) && AllAcksTold(states[n])
    ensures AllAcksTold(states[n + 1])
  {
    StepOf(env, states, steps, n);
    RunKeepsInv(env, states, steps, n);
    hide *;
    TellsStep(env, states[n], steps[n]);
  }

  /**
   Acknowledged means stored: in every run with each gateway's uploads handled one at a time, and Ok
   acknowledgements taken only with the id waited for, the upload whose Ok made a row Sent was saved before
   that Ok was taken, unless it failed itself; and when it was saved, the row is in the server's readings table.
   */
  lemma SentMeansStored(env: Env, states: seq<State>, steps: seq<Step>, n: nat, sn: Sn, i: nat)
    returns (j: nat, x: DeviceIndex.StoredReading)
    requires IsRun(env, states, steps) && n < |states| && IsSent(states[n], sn, i)
    requires NoCollision(env, states[n].hub.payloads)
    requires forall m | 0 <= m < n :: IdMatches(states[m], steps[m])
    requires forall m | 0 <= m < n :: Serial(states[m], steps[m])
    ensures j < n && MakesSent(states[j], steps[j], states[j + 1], sn, i) && AllPossible(states[n].hub.saves)
    ensures var u := Offered(states[j], sn).request.upload;
            && u == Awaited(states[j], sn).upload && states[n].gateways[sn].rows[i].reading in Carried(u)
            && (u in states[j].hub.saved || u in states[j].hub.failed)
            && (u in states[n].hub.saved ==>
                  x in TablesOf(states[n]).readings
                  && x == DeviceIndex.Stored(sn, x.uploadTime, states[n].gateways[sn].rows[i].reading)
                  && var r := states[n].gateways[sn].rows[i].reading;
                     && x.sn == sn && x.device == r.device && x.deviceName == r.deviceName && x.point == r.point
                     && x.pointName == r.pointName && x.dataType == r.dataType && x.value == r.value
                     && x.quality == r.quality && x.unit == r.unit && x.timestamp == r.timestamp)
  {
    hide IsStep, Serial, IdMatches, NoCollision, Carried, Owed, MakesSent;
    j := SentMeansSaved(env, states, steps, n, sn, i);
    RunGrows(env, states, steps, j, n);
    FewerPayloads(env, states[j].hub, states[n].hub);
    RunTells(env, states, steps, j);
    OfferIsOk(states[j], steps[j], states[j + 1], sn, i);
    RunKeepsStore(env, states, steps, n);
    var u := Offered(states[j], sn).request.upload;
    if u in states[n].hub.saved {
      hide StoreOk;
      x := SavedIsStored(states[n].hub, u, states[n].gateways[sn].rows[i].reading);
      DeviceIndex.StoredFields(sn, x.uploadTime, states[n].gateways[sn].rows[i].reading);
    } else {
      x := DeviceIndex.Stored(sn, 0, states[n].gateways[sn].rows[i].reading);
    }
  }

  lemma OfferIsOk(s: State, step: Step, s': State, sn: Sn, i: nat)
    requires MakesSent(s, step, s', sn, i) && AllAcksTold(s)
    ensures CanAnswer(s, sn)
    ensures var u := Offered(s, sn).request.upload; u in s.hub.saved || u in s.hub.failed
  {
    TakenIsTold(s, sn);
  }

  lemma TakenIsTold(s: State, sn: Sn)
    requires AllAcksTold(s) && CanAnswer(s, sn) && Offered(s, sn).code == Server.OK
    ensures var u := Offered(s, sn).request.upload; u in s.hub.saved || u in s.hub.failed
  {
    assert Offered(s, sn) in Link(s, sn).acks && AcksTold(Link(s, sn), s.hub);
  }
}
