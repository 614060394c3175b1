/**
 The client's local table of readings with their upload status, in order of row id.
 Every statement is atomic and may fail, leaving the table as it was.
 */
module ClientStore {
  import opened Bytes
  import opened Payload

  datatype UploadStatus = NotSent | Sending | Sent | Failed

  datatype Row = Row(reading: Reading, status: UploadStatus)

  const LAST_ID: int64 := 0x7FFF_FFFF_FFFF_FFFF

  predicate IsPending(r: Row) {
    r.status == NotSent || r.status == Failed
  }

  /** Rows in strictly ascending order of id. */
  ghost predicate Ascending(rows: seq<Row>) {
    forall i, j | 0 <= i < j < |rows| :: rows[i].reading.id < rows[j].reading.id
  }

  function IdsOf(rows: seq<Row>): (ids: set<int64>)
    ensures forall r | r in rows :: r.reading.id in ids
  {
    set r | r in rows :: r.reading.id
  }

  function ReadingsOf(rows: seq<Row>): (rs: seq<Reading>)
    ensures |rs| == |rows| && forall i | 0 <= i < |rows| :: rs[i] == rows[i].reading
  {
    seq(|rows|, i requires 0 <= i < |rows| => rows[i].reading)
  }

  /** New rows get the ids from `first` on. */
  function NewRows(first: int64, rs: seq<Reading>): (rows: seq<Row>)
    requires first + |rs| <= LAST_ID
    ensures |rows| == |rs|
    ensures forall i | 0 <= i < |rs| :: rows[i] == Row(rs[i].(id := first + i), NotSent)
  {
    seq(|rs|, i requires 0 <= i < |rs| => Row(rs[i].(id := first + i), NotSent))
  }

  /** The first `limit` rows still to be uploaded. */
  function Pending(rows: seq<Row>, limit: nat): (batch: seq<Row>)
    ensures |batch| <= limit
    ensures forall r | r in batch :: r in rows && IsPending(r)
  {
    if rows == [] || limit == 0 then []
    else if IsPending(rows[0]) then [rows[0]] + Pending(rows[1..], limit - 1)
    else Pending(rows[1..], limit)
  }

  function MarkRow(r: Row, ids: set<int64>, status: UploadStatus): Row {
    if r.reading.id in ids then r.(status := status) else r
  }

  function Mark(rows: seq<Row>, ids: set<int64>, status: UploadStatus): (marked: seq<Row>)
    ensures |marked| == |rows| && forall i | 0 <= i < |rows| :: marked[i] == MarkRow(rows[i], ids, status)
  {
    seq(|rows|, i requires 0 <= i < |rows| => MarkRow(rows[i], ids, status))
  }

  class SQLiteStore {
    var rows: seq<Row>
    var nextId: int64
    ghost var log: seq<bool>  // whether each statement went through

    ghost predicate Valid()
      reads this
    {
      Ascending(rows) && forall r | r in rows :: r.reading.id < nextId
    }

    constructor ()
      ensures Valid() && rows == [] && nextId == 1 && log == []
    {
      rows, nextId, log := [], 1, [];
    }

    method SaveReadings(rs: seq<Reading>) returns (ok: bool)
      requires Valid()
      modifies this
      ensures Valid()
      ensures ok && rs != [] ==> old(nextId) + |rs| <= LAST_ID
                                 && rows == old(rows) + NewRows(old(nextId), rs) && nextId == old(nextId) + |rs|
      ensures !ok || rs == [] ==> rows == old(rows) && nextId == old(nextId)
      ensures ok && rs != [] ==>
                && |rows| == |old(rows)| + |rs| && rows[..|old(rows)|] == old(rows)
                && forall i | 0 <= i < |rs| ::
                     rows[|old(rows)| + i] == Row(rs[i].(id := old(nextId) + i), NotSent)
      ensures rs == [] ==> ok
      ensures log == if rs == [] then old(log) else old(log) + [ok]
    {
      if |rs| == 0 {
        return true;
      }
      ok := *;
      if nextId + |rs| > LAST_ID {
        ok := false;
      }
      log := log + [ok];
      if ok {
        rows := rows + NewRows(nextId, rs);
        nextId := nextId + |rs|;
      }
    }

    method LoadPendingReadings(limit: nat) returns (batch: Option<seq<Row>>)
      modifies this`log
      ensures batch.Some? ==> batch.value == Pending(rows, limit)
      ensures log == old(log) + [batch.Some?]
      ensures batch.Some? ==> forall r | r in batch.value :: r in rows && (r.status == NotSent || r.status == Failed)
      ensures batch.Some? && |batch.value| < limit ==>
                forall r | r in rows && (r.status == NotSent || r.status == Failed) :: r in batch.value
      ensures batch.Some? ==> |batch.value| <= limit
    {
      var ok: bool := *;
      log := log + [ok];
      if !ok {
        return None;
      }
      var found: seq<Row> := [];
      var i := 0;
      while i < |rows| && |found| < limit
        invariant i <= |rows| && |found| <= limit
        invariant Pending(rows, limit) == found + Pending(rows[i..], limit - |found|)
      {
        assert rows[i..][1..] == rows[i + 1..];
        if IsPending(rows[i]) {
          assert found + ([rows[i]] + Pending(rows[i + 1..], limit - |found| - 1))
              == found + [rows[i]] + Pending(rows[i + 1..], limit - |found| - 1);
          found := found + [rows[i]];
        }
        i := i + 1;
      }
      assert found + [] == found;
      PendingIsFull(rows, limit);
      batch := Some(found);
    }

    method UpdateReadingsStatus(ids: set<int64>, status: UploadStatus) returns (ok: bool)
      requires Valid()
      modifies this`rows, this`log
      ensures Valid()
      ensures rows == if ok then Mark(old(rows), ids, status) else old(rows)
      ensures |rows| == |old(rows)| && log == old(log) + [ok]
      ensures forall i | 0 <= i < |rows| ::
                && rows[i].reading == old(rows)[i].reading
                && rows[i].status == if ok && rows[i].reading.id in ids then status else old(rows)[i].status
    {
      ok := *;
      log := log + [ok];
      if ok {
        rows := Mark(rows, ids, status);
      }
    }
  }

  // ---- Facts about the table functions ----

  /** A batch short of the limit holds every row still to be uploaded. */
  lemma {:induction false} PendingIsFull(rows: seq<Row>, limit: nat)
    ensures |Pending(rows, limit)| < limit ==>
              forall r | r in rows && (r.status == NotSent || r.status == Failed) :: r in Pending(rows, limit)
    decreases rows
  {
    if rows != [] && limit > 0 {
      PendingIsFull(rows[1..], if IsPending(rows[0]) then limit - 1 else limit);
      assert rows == [rows[0]] + rows[1..];
    }
  }

  /** The rows in `rows` still to be uploaded, in order. */
  function AllPending(rows: seq<Row>): seq<Row> {
    if rows == [] then []
    else
      var last, before := rows[|rows| - 1], AllPending(rows[..|rows| - 1]);
      if last.status == NotSent || last.status == Failed then before + [last] else before
  }

  lemma {:induction false} AllPendingAre(rows: seq<Row>, r: Row)
    ensures r in AllPending(rows) <==> r in rows && (r.status == NotSent || r.status == Failed)
    decreases rows
  {
    if rows != [] {
      AllPendingAre(rows[..|rows| - 1], r);
      assert rows == rows[..|rows| - 1] + [rows[|rows| - 1]];
    }
  }

  lemma {:induction false} AllPendingFront(r: Row, rows: seq<Row>)
    ensures AllPending([r] + rows) == (if r.status == NotSent || r.status == Failed then [r] else []) + AllPending(rows)
    decreases rows
  {
    var all := [r] + rows;
    if rows == [] {
      assert all[..|all| - 1] == [];
    } else {
      AllPendingFront(r, rows[..|rows| - 1]);
      assert all[..|all| - 1] == [r] + rows[..|rows| - 1];
    }
  }

  /** The batch is the front of the rows still to be uploaded: `limit` of them, or all. */
  lemma {:induction false} PendingIsFront(rows: seq<Row>, limit: nat)
    ensures var all := AllPending(rows); Pending(rows, limit) == if |all| <= limit then all else all[..limit]
    decreases rows
  {
    if rows != [] && limit > 0 {
      PendingIsFront(rows[1..], if IsPending(rows[0]) then limit - 1 else limit);
      AllPendingFront(rows[0], rows[1..]);
      assert rows == [rows[0]] + rows[1..];
    }
  }

  lemma {:induction false} PendingAscending(rows: seq<Row>, limit: nat)
    requires Ascending(rows)
    ensures Ascending(Pending(rows, limit))
    decreases rows
  {
    if rows != [] && limit > 0 {
      var more := if IsPending(rows[0]) then Pending(rows[1..], limit - 1) else Pending(rows[1..], limit);
      PendingAscending(rows[1..], if IsPending(rows[0]) then limit - 1 else limit);
      forall r | r in more
        ensures rows[0].reading.id < r.reading.id
      {
        assert r in rows[1..];
      }
    }
  }

  /** The oldest row still to be uploaded leads the next batch. */
  lemma {:induction false} OldestPendingFirst(rows: seq<Row>, limit: nat, i: nat)
    requires i < |rows| && limit > 0 && IsPending(rows[i])
    requires forall j | 0 <= j < i :: !IsPending(rows[j])
    ensures Pending(rows, limit) != [] && Pending(rows, limit)[0] == rows[i]
    decreases rows
  {
    if i > 0 {
      OldestPendingFirst(rows[1..], limit, i - 1);
    }
  }

  lemma SameId(rows: seq<Row>, r: Row, s: Row)
    requires Ascending(rows) && r in rows && s in rows && r.reading.id == s.reading.id
    ensures r == s
  {}

  /** Marking a batch of pending rows leaves every other row alone. */
  lemma MarkPending(rows: seq<Row>, limit: nat, status: UploadStatus, i: nat)
    requires Ascending(rows) && i < |rows|
    ensures var batch := Pending(rows, limit);
            Mark(rows, IdsOf(batch), status)[i] == if rows[i] in batch then rows[i].(status := status) else rows[i]
  {
    var batch := Pending(rows, limit);
    if rows[i].reading.id in IdsOf(batch) {
      var r :| r in batch && r.reading.id == rows[i].reading.id;
      SameId(rows, r, rows[i]);
    }
  }
}
