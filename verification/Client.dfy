/**
 The client's two loops over its local table: buffering readings into it, and uploading
 them batch by batch, waiting for one acknowledgement at a time.
 */
module Client {
  import opened Bytes
  import Crc
  import Frame
  import FrameProperties
  import PayloadProperties
  import opened Payload
  import opened ClientStore

  const TYPE_UPLOAD: byte := 3
  const OK: byte := 1
  const MAX_PAYLOAD_SIZE: nat := 65535
  const MAX_CONSECUTIVE_ALL_TIMEOUT: nat := 3

  // ---- Buffering readings into the table ----

  datatype Arrival = Received(r: Reading) | Tick | Closed | Stopped

  /** The readings among the first `n` arrivals. */
  function ReceivedOf(arrivals: seq<Arrival>): seq<Reading> {
    if arrivals == [] then []
    else
      var last := arrivals[|arrivals| - 1];
      var before := ReceivedOf(arrivals[..|arrivals| - 1]);
      if last.Received? then before + [last.r] else before
  }

  /** Readings without their ids, which the table assigns. */
  function Contents(rs: seq<Reading>): (c: seq<Reading>)
    ensures |c| == |rs| && forall i | 0 <= i < |rs| :: c[i] == rs[i].(id := 0)
  {
    seq(|rs|, i requires 0 <= i < |rs| => rs[i].(id := 0))
  }

  lemma ContentsAppend(a: seq<Reading>, b: seq<Reading>)
    ensures Contents(a + b) == Contents(a) + Contents(b)
  {}

  lemma BothExtended(a: seq<Reading>, b: seq<Reading>, c: seq<Reading>, d: seq<Reading>, x: seq<Reading>)
    requires a + b == c + d
    ensures a + (b + x) == c + (d + x)
  {
    assert a + (b + x) == (a + b) + x && c + (d + x) == (c + d) + x;
  }

  lemma OneMoreHeld(saved: seq<Reading>, held: seq<Reading>, start: seq<Reading>, received: seq<Reading>, r: Reading)
    requires saved + Contents(held) == start + Contents(received)
    ensures saved + Contents(held + [r]) == start + Contents(received + [r])
  {
    BothExtended(saved, Contents(held), start, Contents(received), Contents([r]));
    ContentsAppend(held, [r]);
    ContentsAppend(received, [r]);
  }

  lemma NewContents(rows: seq<Row>, first: int64, rs: seq<Reading>)
    requires first + |rs| <= LAST_ID
    ensures Contents(ReadingsOf(rows + NewRows(first, rs))) == Contents(ReadingsOf(rows)) + Contents(rs)
  {
    var new' := NewRows(first, rs);
    assert ReadingsOf(rows + new') == ReadingsOf(rows) + ReadingsOf(new');
    ContentsAppend(ReadingsOf(rows), ReadingsOf(new'));
    assert Contents(ReadingsOf(new')) == Contents(rs);
  }

  /** Saves the whole buffer or, when the save fails, keeps it. */
  method Flush(store: SQLiteStore, buffer: seq<Reading>) returns (left: seq<Reading>)
    requires store.Valid()
    modifies store
    ensures store.Valid()
    ensures left == [] || left == buffer
    ensures Contents(ReadingsOf(store.rows)) + Contents(left) == Contents(ReadingsOf(old(store.rows))) + Contents(buffer)
    ensures store.log == if buffer == [] then old(store.log) else old(store.log) + [left == []]
  {
    if |buffer| == 0 {
      return buffer;
    }
    var first := store.nextId;
    var ok := store.SaveReadings(buffer);
    if !ok {
      return buffer;
    }
    NewContents(old(store.rows), first, buffer);
    assert Contents([]) == [];
    left := [];
  }

  /** The buffer, and how many saves were tried so far. */
  datatype Buffering = Buffering(buffer: seq<Reading>, saves: nat)

  /** What the loop holds after these arrivals, when `oks` tells which of its saves went through. */
  function Buffered(arrivals: seq<Arrival>, batchSize: nat, oks: seq<bool>): Buffering {
    if arrivals == [] then Buffering([], 0)
    else
      var last, b := arrivals[|arrivals| - 1], Buffered(arrivals[..|arrivals| - 1], batchSize, oks);
      var full := if last.Received? then b.buffer + [last.r] else b.buffer;
      if full != [] && (!last.Received? || |full| >= batchSize) then
        Buffering(if b.saves < |oks| && oks[b.saves] then [] else full, b.saves + 1)
      else
        Buffering(full, b.saves)
  }

  /**
   One more arrival: a reading is appended and saved with the others once there are `batchSize` of them; anything
   else saves what there is. A save that goes through empties the buffer, one that fails keeps it.
   */
  lemma BufferedStep(arrivals: seq<Arrival>, a: Arrival, batchSize: nat, oks: seq<bool>)
    requires batchSize > 0
    ensures var b, b' := Buffered(arrivals, batchSize, oks), Buffered(arrivals + [a], batchSize, oks);
            var ok := b.saves < |oks| && oks[b.saves];
            && (a.Received? && |b.buffer| + 1 < batchSize ==> b' == Buffering(b.buffer + [a.r], b.saves))
            && (a.Received? && |b.buffer| + 1 >= batchSize ==> b' == Buffering(if ok then [] else b.buffer + [a.r], b.saves + 1))
            && (!a.Received? && b.buffer == [] ==> b' == b)
            && (!a.Received? && b.buffer != [] ==> b' == Buffering(if ok then [] else b.buffer, b.saves + 1))
  {
    assert (arrivals + [a])[..|arrivals + [a]| - 1] == arrivals;
  }

  lemma {:induction false} BufferedLonger(arrivals: seq<Arrival>, batchSize: nat, oks: seq<bool>, more: seq<bool>)
    requires Buffered(arrivals, batchSize, oks).saves <= |oks|
    ensures Buffered(arrivals, batchSize, oks + more) == Buffered(arrivals, batchSize, oks)
    decreases arrivals
  {
    if arrivals != [] {
      BufferedLonger(arrivals[..|arrivals| - 1], batchSize, oks, more);
    }
  }

  lemma {:induction false} NoneFailed(arrivals: seq<Arrival>, batchSize: nat, oks: seq<bool>)
    requires batchSize > 0 && forall ok | ok in oks :: ok
    requires Buffered(arrivals, batchSize, oks).saves <= |oks|
    ensures |Buffered(arrivals, batchSize, oks).buffer| < batchSize
    ensures arrivals == [] || !arrivals[|arrivals| - 1].Received? ==> Buffered(arrivals, batchSize, oks).buffer == []
    decreases arrivals
  {
    if arrivals != [] {
      var b := Buffered(arrivals[..|arrivals| - 1], batchSize, oks);
      assert b.saves < |oks| ==> oks[b.saves] in oks;
      NoneFailed(arrivals[..|arrivals| - 1], batchSize, oks);
    }
  }

  /** While no save failed, the buffer is what came since the last tick, but for the full batches among it. */
  lemma {:induction false} BufferIsRest(arrivals: seq<Arrival>, k: nat, batchSize: nat, oks: seq<bool>)
    requires batchSize > 0 && (forall ok | ok in oks :: ok) && Buffered(arrivals, batchSize, oks).saves <= |oks|
    requires k <= |arrivals| && (forall i | k <= i < |arrivals| :: arrivals[i].Received?)
    requires k > 0 ==> !arrivals[k - 1].Received?
    ensures var m := |arrivals| - k;
            && m % batchSize <= |ReceivedOf(arrivals)|
            && Buffered(arrivals, batchSize, oks).buffer == ReceivedOf(arrivals)[|ReceivedOf(arrivals)| - m % batchSize..]
    decreases |arrivals| - k
  {
    hide *;
    var m, n := |arrivals| - k, |arrivals|;
    NoneFailed(arrivals, batchSize, oks);
    if m > 0 {
      var before, a := arrivals[..n - 1], arrivals[n - 1];
      assert arrivals == before + [a];
      BufferedStep(before, a, batchSize, oks);
      BufferIsRest(before, k, batchSize, oks);
      OneMore(m - 1, batchSize);
      MoreReceived(arrivals, n - 1);
      assert arrivals[..n] == arrivals;
      Longer(ReceivedOf(before), a.r, (m - 1) % batchSize);
    } else {
      Residue(0, 0, 0, batchSize);
      assert ReceivedOf(arrivals)[|ReceivedOf(arrivals)|..] == [];
    }
  }

  lemma Longer(had: seq<Reading>, r: Reading, held: nat)
    requires held <= |had|
    ensures had[|had| - held..] + [r] == (had + [r])[|had| - held..]
  {}

  lemma OneMore(m: nat, size: nat)
    requires size > 0
    ensures (m + 1) % size == if m % size + 1 == size then 0 else m % size + 1
  {
    var q, r := m / size, m % size;
    assert m == q * size + r;
    if r + 1 == size {
      assert m + 1 == (q + 1) * size + 0;
      Residue(m + 1, q + 1, 0, size);
    } else {
      Residue(m + 1, q, r + 1, size);
    }
  }

  lemma Residue(n: int, q: int, r: nat, size: nat)
    requires n == q * size + r && r < size
    ensures n % size == r
  {
    var d := n / size - q;
    assert n == (n / size) * size + n % size;
    assert d * size == r - n % size;
  }

  /**
   At the head of the loop: `start` is what the table held when it began and `log` what the store had logged,
   `rows` and `after` are what they are now.
   */
  ghost predicate Told(arrivals: seq<Arrival>, batchSize: nat, start: seq<Reading>, log: seq<bool>,
                       rows: seq<Row>, after: seq<bool>, buffer: seq<Reading>, failures: nat) {
    && Contents(ReadingsOf(rows)) + Contents(buffer) == start + Contents(ReceivedOf(arrivals))
    && log <= after
    && var oks := after[|log|..];
       Buffered(arrivals, batchSize, oks) == Buffering(buffer, |oks|) && failures == multiset(oks)[false]
  }

  lemma WithoutFailure(arrivals: seq<Arrival>, batchSize: nat, oks: seq<bool>)
    requires batchSize > 0 && Buffered(arrivals, batchSize, oks).saves == |oks| && multiset(oks)[false] == 0
    ensures |Buffered(arrivals, batchSize, oks).buffer| < batchSize
    ensures arrivals != [] && !arrivals[|arrivals| - 1].Received? ==> Buffered(arrivals, batchSize, oks).buffer == []
  {
    assert false !in multiset(oks);
    NoneFailed(arrivals, batchSize, oks);
  }

  lemma AtTheEnd(arrivals: seq<Arrival>, batchSize: nat, start: seq<Reading>, log: seq<bool>,
                 rows: seq<Row>, after: seq<bool>, buffer: seq<Reading>, failures: nat)
    requires batchSize > 0 && Told(arrivals, batchSize, start, log, rows, after, buffer, failures)
    ensures Contents(ReadingsOf(rows)) + Contents(buffer) == start + Contents(ReceivedOf(arrivals))
    ensures log <= after
    ensures Buffered(arrivals, batchSize, after[|log|..]) == Buffering(buffer, |after[|log|..]|)
    ensures failures == multiset(after[|log|..])[false]
    ensures failures == 0 ==> |buffer| < batchSize
    ensures failures == 0 && arrivals != [] && !arrivals[|arrivals| - 1].Received? ==> buffer == []
  {
    if failures == 0 {
      WithoutFailure(arrivals, batchSize, after[|log|..]);
    }
  }

  /** One more arrival, and the save it makes due, if any: `after` says whether that went through. */
  lemma StillTold(arrivals: seq<Arrival>, n: nat, batchSize: nat, start: seq<Reading>, log: seq<bool>,
                  rows: seq<Row>, before: seq<bool>, held: seq<Reading>, tried: seq<Reading>,
                  rows': seq<Row>, after: seq<bool>, buffer: seq<Reading>, failures: nat)
    requires batchSize > 0 && 0 < n <= |arrivals|
    requires tried == held + if arrivals[n - 1].Received? then [arrivals[n - 1].r] else []
    requires var due := tried != [] && (!arrivals[n - 1].Received? || |tried| >= batchSize);
             var failed := if due && buffer != [] then 1 else 0;
             && failures >= failed && Told(arrivals[..n - 1], batchSize, start, log, rows, before, held, failures - failed)
             && after == (if due then before + [buffer == []] else before)
             && buffer == if due && buffer == [] then [] else tried
    requires Contents(ReadingsOf(rows')) + Contents(buffer) == Contents(ReadingsOf(rows)) + Contents(tried)
    ensures Told(arrivals[..n], batchSize, start, log, rows', after, buffer, failures)
  {
    StillKept(arrivals, n, start, rows, held, tried, rows', buffer);
    StillCounted(arrivals, n, batchSize, log, before, held, tried, after, buffer, failures);
    hide Contents, ReadingsOf, Buffered, ReceivedOf;
  }

  lemma StillKept(arrivals: seq<Arrival>, n: nat, start: seq<Reading>, rows: seq<Row>, held: seq<Reading>, tried: seq<Reading>,
                  rows': seq<Row>, buffer: seq<Reading>)
    requires 0 < n <= |arrivals|
    requires tried == held + if arrivals[n - 1].Received? then [arrivals[n - 1].r] else []
    requires Contents(ReadingsOf(rows)) + Contents(held) == start + Contents(ReceivedOf(arrivals[..n - 1]))
    requires Contents(ReadingsOf(rows')) + Contents(buffer) == Contents(ReadingsOf(rows)) + Contents(tried)
    ensures Contents(ReadingsOf(rows')) + Contents(buffer) == start + Contents(ReceivedOf(arrivals[..n]))
  {
    hide *;
    var a := arrivals[n - 1];
    MoreReceived(arrivals, n - 1);
    if a.Received? {
      OneMoreHeld(Contents(ReadingsOf(rows)), held, start, ReceivedOf(arrivals[..n - 1]), a.r);
    } else {
      assert tried == held;
    }
  }

  lemma StillCounted(arrivals: seq<Arrival>, n: nat, batchSize: nat, log: seq<bool>, before: seq<bool>, held: seq<Reading>,
                     tried: seq<Reading>, after: seq<bool>, buffer: seq<Reading>, failures: nat)
    requires batchSize > 0 && 0 < n <= |arrivals| && log <= before
    requires tried == held + if arrivals[n - 1].Received? then [arrivals[n - 1].r] else []
    requires Buffered(arrivals[..n - 1], batchSize, before[|log|..]) == Buffering(held, |before[|log|..]|)
    requires var due := tried != [] && (!arrivals[n - 1].Received? || |tried| >= batchSize);
             var failed := if due && buffer != [] then 1 else 0;
             && failures == multiset(before[|log|..])[false] + failed
             && after == (if due then before + [buffer == []] else before)
             && buffer == if due && buffer == [] then [] else tried
    ensures log <= after && failures == multiset(after[|log|..])[false]
    ensures Buffered(arrivals[..n], batchSize, after[|log|..]) == Buffering(buffer, |after[|log|..]|)
  {
    hide *;
    var earlier, a, oks := arrivals[..n - 1], arrivals[n - 1], before[|log|..];
    assert tried == if a.Received? then held + [a.r] else held;
    assert arrivals[..n] == earlier + [a];
    if after != before {
      assert after[|log|..] == oks + [buffer == []];
    }
    BufferedLonger(earlier, batchSize, oks, [buffer == []]);
    BufferedStep(earlier, a, batchSize, after[|log|..]);
  }

  lemma NothingYet(arrivals: seq<Arrival>, batchSize: nat, rows: seq<Row>, log: seq<bool>)
    ensures Told(arrivals[..0], batchSize, Contents(ReadingsOf(rows)), log, rows, log, [], 0)
  {}

  lemma MoreReceived(arrivals: seq<Arrival>, n: nat)
    requires n < |arrivals|
    ensures ReceivedOf(arrivals[..n + 1]) == ReceivedOf(arrivals[..n]) + if arrivals[n].Received? then [arrivals[n].r] else []
  {
    assert arrivals[..n + 1][..n] == arrivals[..n];
  }

  /** The save that the last arrival makes due, and whether it failed. */
  method FlushAndCount(store: SQLiteStore, buffer: seq<Reading>, failed: nat, ghost arrivals: seq<Arrival>, ghost n: nat,
                       ghost batchSize: nat, ghost start: seq<Reading>, ghost log: seq<bool>, ghost held: seq<Reading>)
    returns (left: seq<Reading>, failures: nat)
    requires store.Valid() && batchSize > 0 && 0 < n <= |arrivals|
    requires buffer == held + if arrivals[n - 1].Received? then [arrivals[n - 1].r] else []
    requires arrivals[n - 1].Received? ==> |buffer| >= batchSize
    requires Told(arrivals[..n - 1], batchSize, start, log, store.rows, store.log, held, failed)
    modifies store
    ensures store.Valid() && Told(arrivals[..n], batchSize, start, log, store.rows, store.log, left, failures)
  {
    hide *;
    ghost var rows, before := store.rows, store.log;
    left := Flush(store, buffer);
    failures := failed + if left == [] then 0 else 1;
    StillTold(arrivals, n, batchSize, start, log, rows, before, held, buffer, store.rows, store.log, left, failures);
  }

  /**
   The buffering loop over any sequence of arrivals, up to the first close or stop. At every head of
   the loop the rows saved followed by the buffer are the readings received, in order, whatever saves
   failed. The buffer is exactly what the outcomes of the saves leave of it, and `failures` counts
   the saves the store refused; without one the buffer stays below the batch size, and is empty after
   a tick, a close or a stop.
   */
  method ConsumeAndWrite(arrivals: seq<Arrival>, store: SQLiteStore, batchSize: nat)
    returns (n: nat, buffer: seq<Reading>, failures: nat)
    requires store.Valid() && batchSize > 0
    modifies store
    ensures store.Valid() && n <= |arrivals|
    ensures forall i | 0 <= i < n - 1 :: arrivals[i].Received? || arrivals[i].Tick?
    ensures n == |arrivals| || (n > 0 && (arrivals[n - 1].Closed? || arrivals[n - 1].Stopped?))
    ensures Contents(ReadingsOf(store.rows)) + Contents(buffer)
         == Contents(ReadingsOf(old(store.rows))) + Contents(ReceivedOf(arrivals[..n]))
    ensures old(store.log) <= store.log
    ensures var oks := store.log[|old(store.log)|..];
            Buffered(arrivals[..n], batchSize, oks) == Buffering(buffer, |oks|) && failures == multiset(oks)[false]
    ensures failures == 0 ==> |buffer| < batchSize
    ensures failures == 0 && n > 0 && (arrivals[n - 1].Closed? || arrivals[n - 1].Stopped?) ==> buffer == []
    ensures failures == 0 && n > 0 && arrivals[n - 1].Tick? ==> buffer == []
  {
    n, buffer, failures := 0, [], 0;
    ghost var start, log := Contents(ReadingsOf(store.rows)), store.log;
    NothingYet(arrivals, batchSize, store.rows, log);
    hide *;
    while n < |arrivals|
      invariant store.Valid() && n <= |arrivals|
      invariant forall i | 0 <= i < n :: arrivals[i].Received? || arrivals[i].Tick?
      invariant Told(arrivals[..n], batchSize, start, log, store.rows, store.log, buffer, failures)
    {
      var arrival := arrivals[n];
      n := n + 1;
      match arrival
      case Received(r) =>
        ghost var held := buffer;
        buffer := buffer + [r];
        if |buffer| >= batchSize {
          buffer, failures := FlushAndCount(store, buffer, failures, arrivals, n, batchSize, start, log, held);
        } else {
          StillTold(arrivals, n, batchSize, start, log, store.rows, store.log, held, buffer, store.rows, store.log, buffer, failures);
        }
      case Tick =>
        buffer, failures := FlushAndCount(store, buffer, failures, arrivals, n, batchSize, start, log, buffer);
      case Closed =>
        buffer, failures := FlushAndCount(store, buffer, failures, arrivals, n, batchSize, start, log, buffer);
        AtTheEnd(arrivals[..n], batchSize, start, log, store.rows, store.log, buffer, failures);
        return;
      case Stopped =>
        buffer, failures := FlushAndCount(store, buffer, failures, arrivals, n, batchSize, start, log, buffer);
        AtTheEnd(arrivals[..n], batchSize, start, log, store.rows, store.log, buffer, failures);
        return;
    }
    AtTheEnd(arrivals[..n], batchSize, start, log, store.rows, store.log, buffer, failures);
  }

  // ---- Uploading one batch ----

  /** What the wait for an acknowledgement ended with. */
  datatype Event = AckArrived(code: byte) | AckTimeout | ContextDone

  /** How one upload of a batch went; `marked` tells whether the concluding status update went through. */
  datatype Outcome =
    | Nothing
    | BuildRefused(marked: bool)
    | SendingNotMarked
    | WriteFailed(marked: bool)
    | Acked(code: byte, marked: bool)
    | TimedOut(marked: bool)
    | Cancelled

  datatype UploadError = BuildFailed | MarkFailed | WriteBroken | ContextCancelled | TooManyTimeouts

  function ErrorOf(o: Outcome): Option<UploadError> {
    match o
    case BuildRefused(_) => Some(BuildFailed)
    case SendingNotMarked => Some(MarkFailed)
    case WriteFailed(_) => Some(WriteBroken)
    case Cancelled => Some(ContextCancelled)
    case _ => None
  }

  /** The status a batch is given at the end, if it is given one. */
  function FinalStatus(o: Outcome): Option<UploadStatus> {
    match o
    case BuildRefused(true) => Some(Failed)
    case WriteFailed(true) => Some(Failed)
    case Acked(code, true) => Some(if code == OK then Sent else NotSent)
    case TimedOut(true) => Some(NotSent)
    case _ => None
  }

  predicate Matches(o: Outcome, event: Event) {
    match event
    case AckArrived(code) => o.Acked? && o.code == code
    case AckTimeout => o.TimedOut?
    case ContextDone => o.Cancelled?
  }

  /** The batch was marked as being sent. */
  predicate WasSending(o: Outcome) {
    !o.Nothing? && !o.BuildRefused? && !o.SendingNotMarked?
  }

  function RowsAfter(rows: seq<Row>, ids: set<int64>, o: Outcome): seq<Row> {
    var sending := if WasSending(o) then Mark(rows, ids, Sending) else rows;
    match FinalStatus(o)
    case None => sending
    case Some(status) => Mark(sending, ids, status)
  }

  /** A row of the batch ends with the status its outcome gives it; every other row keeps its own. */
  lemma RowAfter(rows: seq<Row>, ids: set<int64>, o: Outcome, i: nat)
    requires i < |rows|
    ensures |RowsAfter(rows, ids, o)| == |rows|
    ensures RowsAfter(rows, ids, o)[i] ==
            if rows[i].reading.id !in ids then rows[i]
            else match o
              case Nothing => rows[i]
              case BuildRefused(marked) => if marked then Row(rows[i].reading, Failed) else rows[i]
              case SendingNotMarked => rows[i]
              case WriteFailed(marked) => Row(rows[i].reading, if marked then Failed else Sending)
              case Acked(code, marked) => Row(rows[i].reading, if !marked then Sending else if code == 1 then Sent else NotSent)
              case TimedOut(marked) => Row(rows[i].reading, if marked then NotSent else Sending)
              case Cancelled => Row(rows[i].reading, Sending)
  {
    var sending := Mark(rows, ids, Sending);
    assert |sending| == |rows| && sending[i] == MarkRow(rows[i], ids, Sending);
  }

  function TimeoutsAfter(timeouts: nat, o: Outcome): nat {
    match o
    case Acked(code, _) => if code == OK then 0 else timeouts
    case TimedOut(_) => timeouts + 1
    case _ => timeouts
  }

  class Wire {
    var sent: bytes
    ghost var broken: nat  // writes that failed

    constructor ()
      ensures sent == [] && broken == 0
    {
      sent, broken := [], 0;
    }

    /** A failed write may have sent any part of the data. */
    method Write(data: bytes) returns (ok: bool)
      modifies this
      ensures old(sent) <= sent <= old(sent) + data
      ensures ok ==> sent == old(sent) + data
      ensures broken == if ok then old(broken) else old(broken) + 1
    {
      var n :| 0 <= n <= |data|;
      ok := n == |data|;
      broken := if ok then broken else broken + 1;
      sent := sent + data[..n];
      assert sent == (old(sent) + data)[..|old(sent)| + n];
    }
  }

  class Session {
    const store: SQLiteStore
    const wire: Wire
    const factory: Frame.MsgFactory
    var consecutiveAllTimeout: nat

    constructor (store: SQLiteStore, wire: Wire, factory: Frame.MsgFactory)
      ensures this.store == store && this.wire == wire && this.factory == factory && consecutiveAllTimeout == 0
    {
      this.store, this.wire, this.factory, consecutiveAllTimeout := store, wire, factory, 0;
    }

    ghost predicate Valid()
      reads this, store, factory.idGen
    {
      store.Valid() && factory.idGen.Valid()
    }

    /** Uploads a batch; `event` is what the wait for its acknowledgement will end with. */
    method UploadReadings(table: array<bv16>, readings: seq<Row>, event: Event, now: uint32)
      returns (err: Option<UploadError>, outcome: Outcome)
      requires Valid() && Crc.IsTable(table)
      modifies this, store`rows, store`log, wire, factory.idGen
      ensures Valid() && err == ErrorOf(outcome)
      ensures store.rows == RowsAfter(old(store.rows), IdsOf(readings), outcome)
      ensures consecutiveAllTimeout == TimeoutsAfter(old(consecutiveAllTimeout), outcome)
      ensures store.log == old(store.log) + match outcome
                                            case Nothing => []
                                            case BuildRefused(marked) => [marked]
                                            case SendingNotMarked => [false]
                                            case WriteFailed(marked) => [true, marked]
                                            case Acked(_, marked) => [true, marked]
                                            case TimedOut(marked) => [true, marked]
                                            case Cancelled => [true]
      ensures wire.broken == old(wire.broken) + if outcome.WriteFailed? then 1 else 0
      ensures outcome == Nothing <==> readings == []
      ensures outcome.BuildRefused? <==> readings != [] && FirstOversize(ReadingsOf(readings)).Some?
      ensures !WasSending(outcome) ==> wire.sent == old(wire.sent)
      ensures WasSending(outcome) && !outcome.WriteFailed? ==>
                && wire.sent == old(wire.sent) + Frame.Encoding(UploadFrame(ReadingsOf(readings), factory.idGen.issued, now))
                && Matches(outcome, event)
      ensures outcome.WriteFailed? ==>
                old(wire.sent) <= wire.sent
                && wire.sent <= old(wire.sent) + Frame.Encoding(UploadFrame(ReadingsOf(readings), factory.idGen.issued, now))
    {
      hide Frame.Encoding, UploadBytes, FirstOversize, Mark, UploadFrame, IdsOf;
      if |readings| == 0 {
        return None, Nothing;
      }
      var ids := IdsOf(readings);
      var upload := new UploadPayload(ReadingsOf(readings));
      var packed := upload.Encode();
      var uploadMsg := BuildUpload(packed, ReadingsOf(readings), now);
      if uploadMsg == null {
        var marked := store.UpdateReadingsStatus(ids, Failed);
        return Some(BuildFailed), BuildRefused(marked);
      }
      assert uploadMsg.payloadLen <= MAX_PAYLOAD_SIZE;  // so the batch is never split
      err, outcome := SendBuilt(table, uploadMsg, ids, event);
    }

    method SendBuilt(table: array<bv16>, m: Frame.Msg, ids: set<int64>, event: Event)
      returns (err: Option<UploadError>, outcome: Outcome)
      requires store.Valid() && Crc.IsTable(table)
      modifies this, store`rows, store`log, wire, m
      ensures store.Valid() && err == ErrorOf(outcome) && m.Value() == old(m.Value())
      ensures !outcome.Nothing? && !outcome.BuildRefused?
      ensures store.log == old(store.log) + match outcome
                                            case SendingNotMarked => [false]
                                            case WriteFailed(marked) => [true, marked]
                                            case Acked(_, marked) => [true, marked]
                                            case TimedOut(marked) => [true, marked]
                                            case _ => [true]
      ensures wire.broken == old(wire.broken) + if outcome.WriteFailed? then 1 else 0
      ensures store.rows == RowsAfter(old(store.rows), ids, outcome)
      ensures consecutiveAllTimeout == TimeoutsAfter(old(consecutiveAllTimeout), outcome)
      ensures !WasSending(outcome) ==> wire.sent == old(wire.sent)
      ensures WasSending(outcome) && !outcome.WriteFailed? ==>
                wire.sent == old(wire.sent) + Frame.Encoding(m.Value()) && Matches(outcome, event)
      ensures outcome.WriteFailed? ==> old(wire.sent) <= wire.sent <= old(wire.sent) + Frame.Encoding(m.Value())
    {
      hide Frame.Encoding, Mark;
      var marked := store.UpdateReadingsStatus(ids, Sending);
      if !marked {
        return Some(MarkFailed), SendingNotMarked;
      }
      var written := Transmit(table, m);
      if !written {
        marked := store.UpdateReadingsStatus(ids, Failed);
        return Some(WriteBroken), WriteFailed(marked);
      }
      err, outcome := Conclude(ids, event);
    }

    method Transmit(table: array<bv16>, m: Frame.Msg) returns (written: bool)
      requires Crc.IsTable(table)
      modifies wire, m
      ensures m.Value() == old(m.Value())
      ensures old(wire.sent) <= wire.sent <= old(wire.sent) + Frame.Encoding(m.Value())
      ensures written ==> wire.sent == old(wire.sent) + Frame.Encoding(m.Value())
      ensures wire.broken == if written then old(wire.broken) else old(wire.broken) + 1
    {
      hide Frame.Encoding;
      var encoded := m.Encode(table);
      written := wire.Write(encoded[..]);
    }

    method BuildUpload(packed: Encoded, ghost rs: seq<Reading>, now: uint32) returns (m: Frame.Msg?)
      requires factory.idGen.Valid() && (packed.Bytes? ==> packed.data == UploadBytes(rs))
      modifies factory.idGen
      ensures factory.idGen.Valid()
      ensures m == null <==> packed.Refused?
      ensures m != null ==> fresh(m) && m.Value() == UploadFrame(rs, factory.idGen.issued, now)
    {
      hide UploadBytes;
      m := factory.NewMsg(TYPE_UPLOAD, packed, now);
    }

    /** The wait for the acknowledgement, and the status it gives the batch. */
    method Conclude(ids: set<int64>, event: Event) returns (err: Option<UploadError>, outcome: Outcome)
      requires store.Valid()
      modifies this, store`rows, store`log
      ensures store.Valid() && err == ErrorOf(outcome)
      ensures store.rows == match FinalStatus(outcome)
                            case None => old(store.rows)
                            case Some(status) => Mark(old(store.rows), ids, status)
      ensures consecutiveAllTimeout == TimeoutsAfter(old(consecutiveAllTimeout), outcome)
      ensures Matches(outcome, event)
      ensures match event
              case AckArrived(code) => outcome.Acked? && outcome.code == code
              case AckTimeout => outcome.TimedOut?
              case ContextDone => outcome == Cancelled
      ensures store.log == old(store.log) + match outcome
                                            case Acked(_, marked) => [marked]
                                            case TimedOut(marked) => [marked]
                                            case _ => []
    {
      hide Mark;
      var marked;
      match event
      case AckArrived(code) =>
        if code == OK {
          marked := store.UpdateReadingsStatus(ids, Sent);
          consecutiveAllTimeout := 0;
        } else {
          marked := store.UpdateReadingsStatus(ids, NotSent);
        }
        return None, Acked(code, marked);
      case AckTimeout =>
        marked := store.UpdateReadingsStatus(ids, NotSent);
        consecutiveAllTimeout := consecutiveAllTimeout + 1;
        return None, TimedOut(marked);
      case ContextDone =>
        return Some(ContextCancelled), Cancelled;
    }

    /** The upload arm of the session loop: load, upload, and give up after three timeouts in a row. */
    method UploadTick(table: array<bv16>, limit: nat, event: Event, now: uint32)
      returns (err: Option<UploadError>, outcome: Outcome, batch: seq<Row>, loaded: bool)
      requires Valid() && Crc.IsTable(table)
      modifies this, store`rows, store`log, wire, factory.idGen
      ensures Valid()
      ensures batch == if loaded then Pending(old(store.rows), limit) else []
      ensures batch == [] <==> outcome == Nothing
      ensures store.log == old(store.log) + [loaded] + match outcome
                                                       case Nothing => []
                                                       case BuildRefused(marked) => [marked]
                                                       case SendingNotMarked => [false]
                                                       case WriteFailed(marked) => [true, marked]
                                                       case Acked(_, marked) => [true, marked]
                                                       case TimedOut(marked) => [true, marked]
                                                       case Cancelled => [true]
      ensures wire.broken == old(wire.broken) + if outcome.WriteFailed? then 1 else 0
      ensures store.rows == RowsAfter(old(store.rows), IdsOf(batch), outcome)
      ensures consecutiveAllTimeout == TimeoutsAfter(old(consecutiveAllTimeout), outcome)
      ensures consecutiveAllTimeout == match outcome
                                       case Acked(code, _) => if code == 1 then 0 else old(consecutiveAllTimeout)
                                       case TimedOut(_) => old(consecutiveAllTimeout) + 1
                                       case _ => old(consecutiveAllTimeout)
      ensures err == match outcome
                     case Nothing => None
                     case BuildRefused(_) => Some(BuildFailed)
                     case SendingNotMarked => Some(MarkFailed)
                     case WriteFailed(_) => Some(WriteBroken)
                     case Cancelled => Some(ContextCancelled)
                     case _ => if consecutiveAllTimeout >= 3 then Some(TooManyTimeouts) else None
      ensures WasSending(outcome) && !outcome.WriteFailed? ==>
                match event
                case AckArrived(code) => outcome.Acked? && outcome.code == code
                case AckTimeout => outcome.TimedOut?
                case ContextDone => outcome == Cancelled
      ensures outcome.BuildRefused? <==> batch != [] && FirstOversize(ReadingsOf(batch)).Some?
      ensures !WasSending(outcome) ==> wire.sent == old(wire.sent)
      ensures WasSending(outcome) && !outcome.WriteFailed? ==>
                && wire.sent == old(wire.sent) + Frame.Encoding(UploadFrame(ReadingsOf(batch), factory.idGen.issued, now))
                && Matches(outcome, event)
      ensures err == if ErrorOf(outcome).Some? then ErrorOf(outcome)
                     else if outcome != Nothing && consecutiveAllTimeout >= MAX_CONSECUTIVE_ALL_TIMEOUT then Some(TooManyTimeouts)
                     else None
    {
      hide Mark, IdsOf, Frame.Encoding, UploadFrame, FirstOversize, ReadingsOf;
      var pending := store.LoadPendingReadings(limit);
      if pending == None || |pending.value| == 0 {
        return None, Nothing, [], pending.Some?;
      }
      batch, loaded := pending.value, true;
      err, outcome := UploadReadings(table, batch, event, now);
      if err == None && consecutiveAllTimeout >= MAX_CONSECUTIVE_ALL_TIMEOUT {
        err := Some(TooManyTimeouts);
      }
    }
  }

  /** On the wire a batch is a frame of the upload type, from which the very batch is decoded. */
  lemma UploadOnWire(rs: seq<Reading>, issued: nat, now: uint32)
    requires FirstOversize(rs) == None && |UploadBytes(rs)| <= 65535
    ensures var d := Frame.Decode(Frame.Encoding(UploadFrame(rs, issued, now)));
            && d.Decoded? && d.rest == []
            && d.frame == Frame.Frame(0x4E59, 1, 0, 3, issued % 0x1_0000, |UploadBytes(rs)|, now, UploadBytes(rs))
            && DecodeUpload([], d.frame.payload) == Progress(rs, None, [])
  {
    PayloadProperties.FitsIff(rs);
    UploadLength(rs);
    var f := UploadFrame(rs, issued, now);
    hide Frame.Decode, Frame.Encoding, Frame.Body, Crc.Checksum, DecodeUpload, UploadBytes, FirstOversize, PayloadProperties.AllFit;
    FrameProperties.RoundTrip(f, []);
    assert Frame.Encoding(f) + [] == Frame.Encoding(f);
    PayloadProperties.UploadRoundTripIff([], rs);
  }

  function UploadFrame(rs: seq<Reading>, issued: nat, now: uint32): Frame.Frame {
    var payload := UploadBytes(rs);
    Frame.Frame(Frame.MAGIC, Frame.VERSION, 0, TYPE_UPLOAD, issued % 0x1_0000, |payload| % 0x1_0000, now, payload)
  }
}
