/**
 The upload loop over whole runs: sessions that come and go, batches that end in any way.
 No row is lost or changed, only an Ok acknowledgement makes a row Sent, the timeout
 counter is what it claims to be, and exactly which endings strand rows as Sending.
 */
module ClientProperties {
  import opened Bytes
  import opened Payload
  import opened ClientStore
  import opened Client

  datatype Event = Collect(rs: seq<Reading>) | NewSession | Upload(limit: nat, outcome: Outcome)

  datatype State = State(rows: seq<Row>, nextId: int64, timeouts: nat, open: bool)

  const INITIAL := State([], 1, 0, false)

  ghost predicate Valid(s: State) {
    Ascending(s.rows) && forall r | r in s.rows :: r.reading.id < s.nextId
  }

  predicate Enabled(s: State, e: Event) {
    match e
    case Collect(rs) => s.nextId + |rs| <= LAST_ID
    case NewSession => !s.open
    case Upload(limit, outcome) => s.open && (outcome.Nothing? || Pending(s.rows, limit) != [])
  }

  function Next(s: State, e: Event): State
    requires Enabled(s, e)
  {
    match e
    case Collect(rs) => s.(rows := s.rows + NewRows(s.nextId, rs), nextId := s.nextId + |rs|)
    case NewSession => s.(timeouts := 0, open := true)
    case Upload(limit, outcome) =>
      if outcome.Nothing? then s
      else
        var timeouts := TimeoutsAfter(s.timeouts, outcome);
        s.(rows := RowsAfter(s.rows, IdsOf(Pending(s.rows, limit)), outcome), timeouts := timeouts,
           open := ErrorOf(outcome) == None && timeouts < MAX_CONSECUTIVE_ALL_TIMEOUT)
  }

  /** `states` are what a run of `events` goes through. */
  ghost predicate IsRun(states: seq<State>, events: seq<Event>) {
    && |states| == |events| + 1
    && Valid(states[0])
    && forall i | 0 <= i < |events| :: Enabled(states[i], events[i]) && states[i + 1] == Next(states[i], events[i])
  }

  /** An upload ended with its concluding status update done, if it had marked the batch at all. */
  predicate Clean(o: Outcome) {
    WasSending(o) ==> FinalStatus(o).Some?
  }

  lemma RowAfterUpload(s: State, limit: nat, o: Outcome, i: nat)
    requires Valid(s) && i < |s.rows|
    ensures var batch := Pending(s.rows, limit);
            RowsAfter(s.rows, IdsOf(batch), o)[i] ==
            if s.rows[i] !in batch then s.rows[i]
            else if FinalStatus(o).Some? then s.rows[i].(status := FinalStatus(o).value)
            else if WasSending(o) then s.rows[i].(status := Sending)
            else s.rows[i]
  {
    var batch := Pending(s.rows, limit);
    if s.rows[i].reading.id in IdsOf(batch) {
      var r :| r in batch && r.reading.id == s.rows[i].reading.id;
      SameId(s.rows, r, s.rows[i]);
    }
  }

  /** What an event may do to a row: its reading stays, and only pending rows change status. */
  predicate RowChange(e: Event, r: Row, r': Row) {
    && r'.reading == r.reading
    && (!IsPending(r) ==> r' == r)
    && (r'.status == Sent && r.status != Sent ==> e.Upload? && e.outcome == Acked(1, true))
    && (r'.status == Sending && r.status != Sending ==> e.Upload? && !Clean(e.outcome))
  }

  lemma UploadChange(e: Event, r: Row, r': Row, inBatch: bool)
    requires e.Upload? && (inBatch ==> IsPending(r))
    requires r' == if !inBatch then r
                   else if FinalStatus(e.outcome).Some? then r.(status := FinalStatus(e.outcome).value)
                   else if WasSending(e.outcome) then r.(status := Sending)
                   else r
    ensures RowChange(e, r, r')
  {}

  /** Every row keeps its place, and changes only as it may. */
  lemma RowAfter(s: State, e: Event, i: nat)
    requires Valid(s) && Enabled(s, e) && i < |s.rows|
    ensures |s.rows| <= |Next(s, e).rows| && RowChange(e, s.rows[i], Next(s, e).rows[i])
  {
    if e.Upload? && !e.outcome.Nothing? {
      RowAfterUpload(s, e.limit, e.outcome, i);
      PendingOnly(s.rows, e.limit, s.rows[i]);
      UploadedRows(s, e);
      UploadChange(e, s.rows[i], Next(s, e).rows[i], s.rows[i] in Pending(s.rows, e.limit));
      hide *;
    } else {
      RowUntouched(s, e, i);
      hide Next, Enabled, Valid;
    }
  }

  lemma PendingOnly(rows: seq<Row>, limit: nat, r: Row)
    ensures r in Pending(rows, limit) ==> IsPending(r)
  {}

  lemma UploadedRows(s: State, e: Event)
    requires Enabled(s, e) && e.Upload? && !e.outcome.Nothing?
    ensures Next(s, e).rows == RowsAfter(s.rows, IdsOf(Pending(s.rows, e.limit)), e.outcome)
    ensures |Next(s, e).rows| == |s.rows|
  {
    hide Pending, IdsOf;
  }

  lemma RowUntouched(s: State, e: Event, i: nat)
    requires Enabled(s, e) && i < |s.rows| && !(e.Upload? && !e.outcome.Nothing?)
    ensures |s.rows| <= |Next(s, e).rows| && Next(s, e).rows[i] == s.rows[i]
  {}

  lemma NextValid(s: State, e: Event)
    requires Valid(s) && Enabled(s, e)
    ensures Valid(Next(s, e))
  {
    var s' := Next(s, e);
    forall i | 0 <= i < |s.rows|
      ensures s'.rows[i].reading == s.rows[i].reading
    {
      RowAfter(s, e, i);
    }
    forall i | 0 <= i < |s'.rows|
      ensures s'.rows[i].reading.id < s'.nextId
    {
      if i < |s.rows| {
        assert s.rows[i] in s.rows;
      }
    }
    forall i, j | 0 <= i < j < |s'.rows|
      ensures s'.rows[i].reading.id < s'.rows[j].reading.id
    {
      if i < |s.rows| {
        assert s.rows[i] in s.rows;
      }
    }
  }

  lemma StepOf(states: seq<State>, events: seq<Event>, n: nat)
    requires IsRun(states, events) && n + 1 < |states|
    ensures n < |events| && Enabled(states[n], events[n]) && states[n + 1] == Next(states[n], events[n])
  {
    hide Enabled, Next;
  }

  lemma {:induction false} RunValid(states: seq<State>, events: seq<Event>, n: nat)
    requires IsRun(states, events) && n < |states|
    ensures Valid(states[n])
  {
    if n > 0 {
      hide Enabled, Next, Valid;
      StepOf(states, events, n - 1);
      RunValid(states, events, n - 1);
      NextValid(states[n - 1], events[n - 1]);
    }
  }

  /** What one event may do to a row. */
  predicate RowKept(r: Row, r': Row) {
    && r'.reading == r.reading
    && (!IsPending(r) ==> r' == r)
  }

  lemma RunRow(states: seq<State>, events: seq<Event>, n: nat, i: nat)
    requires IsRun(states, events) && n + 1 < |states| && i < |states[n].rows|
    ensures i < |states[n + 1].rows| && RowKept(states[n].rows[i], states[n + 1].rows[i])
  {
    StepOf(states, events, n);
    RunValid(states, events, n);
    RowAfter(states[n], events[n], i);
    hide Enabled, Next, Valid, IsRun, IsPending;
  }

  lemma RowKeptOn(r: Row, r': Row, r'': Row)
    requires r'.reading == r.reading && (r.status in {Sent, Sending} ==> r' == r) && RowKept(r', r'')
    ensures r''.reading == r.reading && (r.status in {Sent, Sending} ==> r'' == r)
  {}

  /** No row is dropped, moved or rewritten between any two points of a run, and a row that is Sent or Sending stays so. */
  lemma {:induction false} NothingIsLost(states: seq<State>, events: seq<Event>, m: nat, n: nat, i: nat)
    requires IsRun(states, events) && m <= n < |states| && i < |states[m].rows|
    ensures i < |states[n].rows|
    ensures var r, r' := states[m].rows[i], states[n].rows[i];
            r'.reading == r.reading && (r.status in {Sent, Sending} ==> r' == r)
    decreases n
  {
    if m < n {
      NothingIsLost(states, events, m, n - 1, i);
      RunRow(states, events, n - 1, i);
      hide IsRun;
      RowKeptOn(states[m].rows[i], states[n - 1].rows[i], states[n].rows[i]);
    }
  }

  /** In particular a row left Sending is never touched again: no later event, in any later session, changes it. */
  lemma SendingIsForever(states: seq<State>, events: seq<Event>, m: nat, n: nat, i: nat)
    requires IsRun(states, events) && m <= n < |states| && i < |states[m].rows|
    requires states[m].rows[i].status == Sending
    ensures i < |states[n].rows| && states[n].rows[i] == states[m].rows[i]
  {
    NothingIsLost(states, events, m, n, i);
  }

  ghost predicate NoneSending(rows: seq<Row>) {
    forall i | 0 <= i < |rows| :: rows[i].status != Sending
  }

  /** Between events nothing is Sending, so every row not yet Sent is waiting to be loaded. */
  lemma {:induction false} NoneSendingAtHead(states: seq<State>, events: seq<Event>, n: nat)
    requires IsRun(states, events) && n < |states| && NoneSending(states[0].rows)
    requires forall e | e in events :: e.Upload? ==> Clean(e.outcome)
    ensures NoneSending(states[n].rows)
    ensures forall r | r in states[n].rows :: r.status == Sent || IsPending(r)
  {
    if n > 0 {
      NoneSendingAtHead(states, events, n - 1);
      RunValid(states, events, n - 1);
      var s, e := states[n - 1], events[n - 1];
      forall i | 0 <= i < |s.rows|
        ensures states[n].rows[i].status != Sending
      {
        RowAfter(s, e, i);
      }
    }
  }

  /** An upload strands rows exactly when it marked its batch and the concluding update is missing. */
  lemma StrandsIff(s: State, limit: nat, o: Outcome)
    requires Valid(s) && NoneSending(s.rows) && Enabled(s, Upload(limit, o)) && !o.Nothing?
    ensures !NoneSending(Next(s, Upload(limit, o)).rows) <==> !Clean(o)
    ensures !Clean(o) <==> o == Cancelled || o == WriteFailed(false) || o == TimedOut(false) || (o.Acked? && !o.marked)
  {
    var e := Upload(limit, o);
    var batch := Pending(s.rows, limit);
    if Clean(o) {
      forall i | 0 <= i < |s.rows|
        ensures Next(s, e).rows[i].status != Sending
      {
        RowAfter(s, e, i);
      }
    } else {
      assert batch[0] in s.rows;
      var i :| 0 <= i < |s.rows| && s.rows[i] == batch[0];
      RowAfterUpload(s, limit, o, i);
      assert s.rows[i] in batch;
      assert Next(s, e).rows[i].status == Sending;
    }
  }

  /** Timeouts in the current session since its last Ok acknowledgement. */
  function TimeoutsSinceOk(events: seq<Event>): nat {
    if events == [] then 0
    else
      var before, last := TimeoutsSinceOk(events[..|events| - 1]), events[|events| - 1];
      match last
      case NewSession => 0
      case Upload(_, TimedOut(_)) => before + 1
      case Upload(_, Acked(code, _)) => if code == 1 then 0 else before
      case _ => before
  }

  /** The counter counts exactly those, and a session that is still open has seen fewer than three. */
  lemma {:induction false} TimeoutCounter(states: seq<State>, events: seq<Event>, n: nat)
    requires IsRun(states, events) && n < |states| && states[0] == INITIAL
    ensures states[n].timeouts == TimeoutsSinceOk(events[..n])
    ensures states[n].open ==> states[n].timeouts < 3
  {
    if n > 0 {
      TimeoutCounter(states, events, n - 1);
      assert events[..n][..n - 1] == events[..n - 1];
    }
  }
}
