/**
 The server's store: saving a batch inserts its readings and then registers each device
 seen in it. Inserts and upserts may fail one by one, and the upserts come in any order.
 */
module DeviceIndex {
  import opened Bytes
  import opened Payload

  datatype StoredReading = StoredReading(sn: bytes, uploadTime: int, device: bytes, deviceName: bytes, point: bytes,
                                         pointName: bytes, dataType: bytes, value: bytes, quality: byte, unit: bytes,
                                         timestamp: int64)

  datatype DeviceKey = DeviceKey(sn: bytes, device: bytes)

  datatype DeviceRow = DeviceRow(name: bytes, firstSeen: int, lastSeen: int)

  type Devices = map<DeviceKey, DeviceRow>

  datatype StoreError = InsertFailed | UpsertFailed(device: bytes)

  function Stored(sn: bytes, now: int, r: Reading): StoredReading {
    StoredReading(sn, now, r.device, r.deviceName, r.point, r.pointName, r.dataType, r.value, r.quality, r.unit, r.timestamp)
  }

  function StoredAll(sn: bytes, now: int, rs: seq<Reading>): (s: seq<StoredReading>)
    ensures |s| == |rs| && forall i | 0 <= i < |rs| :: s[i] == Stored(sn, now, rs[i])
  {
    seq(|rs|, i requires 0 <= i < |rs| => Stored(sn, now, rs[i]))
  }

  /** Each device of a batch with the name its last reading gives it. */
  function Seen(rs: seq<Reading>): map<bytes, bytes> {
    if rs == [] then map[]
    else Seen(rs[..|rs| - 1])[rs[|rs| - 1].device := rs[|rs| - 1].deviceName]
  }

  /** One upsert: a known device keeps its first appearance. */
  function Upsert(devices: Devices, key: DeviceKey, name: bytes, now: int): Devices {
    devices[key := DeviceRow(name, if key in devices then devices[key].firstSeen else now, now)]
  }

  /** The upserts of the devices in `done`, in whatever order. */
  function UpsertAll(devices: Devices, sn: bytes, seen: map<bytes, bytes>, done: set<bytes>, now: int): Devices
    requires done <= seen.Keys
  {
    var keys := set d | d in done :: DeviceKey(sn, d);
    map key | key in devices.Keys + keys ::
      if key in keys then Upsert(devices, key, seen[key.device], now)[key] else devices[key]
  }

  /** Attempted saves: what was given, and which statements went through. */
  datatype Save = Save(sn: bytes, rs: seq<Reading>, now: int, inserted: bool, done: set<bytes>)

  datatype Tables = Tables(readings: seq<StoredReading>, devices: Devices)

  predicate Possible(s: Save) {
    s.done <= Seen(s.rs).Keys && (s.inserted || s.done == {})
  }

  predicate UpsertsSucceeded(s: Save) {
    s.inserted ==> s.done == Seen(s.rs).Keys
  }

  function Apply(t: Tables, s: Save): Tables
    requires Possible(s)
  {
    Tables(if s.inserted then t.readings + StoredAll(s.sn, s.now, s.rs) else t.readings,
           UpsertAll(t.devices, s.sn, Seen(s.rs), s.done, s.now))
  }

  class PostgresStore {
    var readings: seq<StoredReading>
    var devices: Devices
    ghost var refused: nat  // statements that failed

    constructor ()
      ensures readings == [] && devices == map[] && refused == 0
    {
      readings, devices, refused := [], map[], 0;
    }

    function Contents(): Tables
      reads this
    {
      Tables(readings, devices)
    }

    /** One INSERT statement: all rows, or none. */
    method InsertRows(rows: seq<StoredReading>) returns (ok: bool)
      modifies this`readings, this`refused
      ensures readings == if ok then old(readings) + rows else old(readings)
      ensures refused == if ok then old(refused) else old(refused) + 1
    {
      ok := *;
      if ok {
        readings := readings + rows;
      } else {
        refused := refused + 1;
      }
    }

    /** One upsert statement: a known device keeps its first appearance. */
    method UpsertDevice(key: DeviceKey, name: bytes, now: int) returns (ok: bool)
      modifies this`devices, this`refused
      ensures devices == if ok then Upsert(old(devices), key, name, now) else old(devices)
      ensures ok ==> key in devices && devices[key].name == name && devices[key].lastSeen == now
                     && devices[key].firstSeen == if key in old(devices) then old(devices)[key].firstSeen else now
      ensures refused == if ok then old(refused) else old(refused) + 1
    {
      ok := *;
      if ok {
        devices := Upsert(devices, key, name, now);
      } else {
        refused := refused + 1;
      }
    }

    /** `save` records which statements went through; without an error all of them did. */
    method SaveReadings(sn: bytes, rs: seq<Reading>, now: int) returns (err: Option<StoreError>, save: Save)
      modifies this
      ensures Possible(save) && (save.sn, save.rs, save.now) == (sn, rs, now)
      ensures Contents() == Apply(old(Contents()), save)
      ensures err == None <==> rs == [] || (save.inserted && save.done == Seen(rs).Keys)
      ensures err == Some(InsertFailed) <==> rs != [] && !save.inserted
      ensures err.Some? && err.value.UpsertFailed? ==> err.value.device in Seen(rs).Keys - save.done
      ensures refused == if err == None then old(refused) else old(refused) + 1
      ensures !save.inserted ==> readings == old(readings)
      ensures save.inserted ==> |readings| == |old(readings)| + |rs| && readings[..|old(readings)|] == old(readings)
      ensures save.inserted ==>
                forall i | 0 <= i < |rs| ::
                  var x, r := readings[|old(readings)| + i], rs[i];
                  && x.sn == sn && x.uploadTime == now && x.device == r.device && x.deviceName == r.deviceName
                  && x.point == r.point && x.pointName == r.pointName && x.dataType == r.dataType && x.value == r.value
                  && x.quality == r.quality && x.unit == r.unit && x.timestamp == r.timestamp
    {
      save := Save(sn, rs, now, false, {});
      UpsertNone(devices, sn, Seen(rs), now);
      if |rs| == 0 {
        return None, save;
      }
      ghost var before := devices;
      hide UpsertAll, Seen, Upsert;
      var stored := StoredRows(sn, rs, now);
      var inserted := InsertRows(stored);
      if !inserted {
        return Some(InsertFailed), save;
      }
      save := save.(inserted := true);

      var seen := SeenDevices(rs);
      var left := seen.Keys;
      while left != {}
        invariant left <= seen.Keys && save == Save(sn, rs, now, true, seen.Keys - left)
        invariant devices == UpsertAll(before, sn, seen, save.done, now)
        invariant readings == old(readings) + stored && refused == old(refused)
      {
        var d :| d in left;
        var upserted := UpsertDevice(DeviceKey(sn, d), seen[d], now);
        if !upserted {
          return Some(UpsertFailed(d)), save;
        }
        UpsertOneMore(before, sn, seen, save.done, d, now);
        left := left - {d};
        save := save.(done := save.done + {d});
      }
      err := None;
    }
  }

  /** The stored row repeats the reading, all but its id, and adds the gateway and the time of the upload. */
  lemma StoredFields(sn: bytes, now: int, r: Reading)
    ensures var x := Stored(sn, now, r);
            && x.sn == sn && x.uploadTime == now && x.device == r.device && x.deviceName == r.deviceName
            && x.point == r.point && x.pointName == r.pointName && x.dataType == r.dataType && x.value == r.value
            && x.quality == r.quality && x.unit == r.unit && x.timestamp == r.timestamp
  {}

  method StoredRows(sn: bytes, rs: seq<Reading>, now: int) returns (stored: seq<StoredReading>)
    ensures stored == StoredAll(sn, now, rs)
  {
    stored := [];
    for i := 0 to |rs|
      invariant stored == StoredAll(sn, now, rs[..i])
    {
      stored := stored + [Stored(sn, now, rs[i])];
    }
    assert rs[..|rs|] == rs;
  }

  method SeenDevices(rs: seq<Reading>) returns (seen: map<bytes, bytes>)
    ensures seen == Seen(rs)
  {
    seen := map[];
    for i := 0 to |rs|
      invariant seen == Seen(rs[..i])
    {
      assert rs[..i + 1][..i] == rs[..i];
      seen := seen[rs[i].device := rs[i].deviceName];
    }
    assert rs[..|rs|] == rs;
  }

  lemma UpsertNone(devices: Devices, sn: bytes, seen: map<bytes, bytes>, now: int)
    ensures UpsertAll(devices, sn, seen, {}, now) == devices
  {}

  lemma UpsertOneMore(devices: Devices, sn: bytes, seen: map<bytes, bytes>, done: set<bytes>, d: bytes, now: int)
    requires done <= seen.Keys && d in seen.Keys - done
    ensures UpsertAll(devices, sn, seen, done + {d}, now)
         == Upsert(UpsertAll(devices, sn, seen, done, now), DeviceKey(sn, d), seen[d], now)
  {
    var all := UpsertAll(devices, sn, seen, done, now);
    var a, b := UpsertAll(devices, sn, seen, done + {d}, now), Upsert(all, DeviceKey(sn, d), seen[d], now);
    hide UpsertAll;
    forall key
      ensures (key in a <==> key in b) && (key in a ==> a[key] == b[key])
    {
      UpsertAt(devices, sn, seen, done, now, key);
      UpsertAt(devices, sn, seen, done + {d}, now, key);
    }
    assert a.Keys == b.Keys;
  }

  /** Upserting `done` touches exactly its devices of this gateway. */
  lemma UpsertAt(devices: Devices, sn: bytes, seen: map<bytes, bytes>, done: set<bytes>, now: int, key: DeviceKey)
    requires done <= seen.Keys
    ensures var hit, u := key.sn == sn && key.device in done, UpsertAll(devices, sn, seen, done, now);
            && (key in u <==> key in devices || hit)
            && (hit ==> u[key] == DeviceRow(seen[key.device], if key in devices then devices[key].firstSeen else now, now))
            && (!hit && key in devices ==> u[key] == devices[key])
  {
    assert key in (set d | d in done :: DeviceKey(sn, d)) <==> key.sn == sn && key.device in done by {
      if key.sn == sn && key.device in done {
        assert key == DeviceKey(sn, key.device);
      }
    }
  }

  // ---- The two tables over whole runs ----

  function KeyOf(r: StoredReading): DeviceKey {
    DeviceKey(r.sn, r.device)
  }

  function FirstOf(readings: seq<StoredReading>, key: DeviceKey): Option<StoredReading> {
    if readings == [] then None
    else if KeyOf(readings[0]) == key then Some(readings[0])
    else FirstOf(readings[1..], key)
  }

  function LastOf(readings: seq<StoredReading>, key: DeviceKey): Option<StoredReading> {
    if readings == [] then None
    else
      var last := readings[|readings| - 1];
      if KeyOf(last) == key then Some(last) else LastOf(readings[..|readings| - 1], key)
  }

  function Run(saves: seq<Save>): Tables
    requires forall s | s in saves :: Possible(s)
  {
    if saves == [] then Tables([], map[]) else Apply(Run(saves[..|saves| - 1]), saves[|saves| - 1])
  }

  lemma {:induction false} FirstOfAppend(a: seq<StoredReading>, b: seq<StoredReading>, key: DeviceKey)
    ensures FirstOf(a + b, key) == if FirstOf(a, key).Some? then FirstOf(a, key) else FirstOf(b, key)
  {
    if a == [] {
      assert a + b == b;
    } else {
      assert (a + b)[1..] == a[1..] + b;
      FirstOfAppend(a[1..], b, key);
    }
  }

  lemma {:induction false} LastOfAppend(a: seq<StoredReading>, b: seq<StoredReading>, key: DeviceKey)
    ensures LastOf(a + b, key) == if LastOf(b, key).Some? then LastOf(b, key) else LastOf(a, key)
    decreases b
  {
    if b == [] {
      assert a + b == a;
    } else {
      assert (a + b)[..|a + b| - 1] == a + b[..|b| - 1];
      LastOfAppend(a, b[..|b| - 1], key);
    }
  }

  predicate Occurs(readings: seq<StoredReading>, key: DeviceKey) {
    exists r :: r in readings && KeyOf(r) == key
  }

  lemma OccursAppend(a: seq<StoredReading>, b: seq<StoredReading>, key: DeviceKey)
    ensures Occurs(a + b, key) <==> Occurs(a, key) || Occurs(b, key)
  {
    if r :| r in a && KeyOf(r) == key {
      assert r in a + b;
    } else if r :| r in b && KeyOf(r) == key {
      assert r in a + b;
    }
  }

  lemma OccursOne(r: StoredReading, key: DeviceKey)
    ensures Occurs([r], key) <==> KeyOf(r) == key
  {
    assert r in [r];
  }

  /** A device occurs exactly when its first reading exists. */
  lemma {:induction false} FirstIff(readings: seq<StoredReading>, key: DeviceKey)
    ensures FirstOf(readings, key).Some? <==> Occurs(readings, key)
  {
    if readings != [] {
      hide Occurs, KeyOf;
      FirstIff(readings[1..], key);
      OccursOne(readings[0], key);
      OccursAppend([readings[0]], readings[1..], key);
      assert readings == [readings[0]] + readings[1..];
    }
  }

  /** And exactly when its last one does. */
  lemma {:induction false} LastIff(readings: seq<StoredReading>, key: DeviceKey)
    ensures LastOf(readings, key).Some? <==> Occurs(readings, key)
    decreases readings
  {
    if readings != [] {
      hide Occurs, KeyOf;
      var init, last := readings[..|readings| - 1], readings[|readings| - 1];
      LastIff(init, key);
      OccursOne(last, key);
      OccursAppend(init, [last], key);
      assert readings == init + [last];
    }
  }

  /** A batch's device map is read off its stored rows. */
  lemma {:induction false} SeenIsLast(sn: bytes, now: int, rs: seq<Reading>, key: DeviceKey)
    ensures var last, seen := LastOf(StoredAll(sn, now, rs), key), Seen(rs);
            (last.Some? <==> key.sn == sn && key.device in seen)
            && (last.Some? ==> last.value.deviceName == seen[key.device] && last.value.uploadTime == now)
    decreases rs
  {
    if rs != [] {
      var init := rs[..|rs| - 1];
      SeenIsLast(sn, now, init, key);
      assert StoredAll(sn, now, rs)[..|rs| - 1] == StoredAll(sn, now, init);
    }
  }

  lemma {:induction false} FirstIsNow(sn: bytes, now: int, rs: seq<Reading>, key: DeviceKey)
    ensures var first := FirstOf(StoredAll(sn, now, rs), key);
            first.Some? ==> first.value.uploadTime == now
    decreases rs
  {
    if rs != [] {
      FirstIsNow(sn, now, rs[1..], key);
      assert StoredAll(sn, now, rs)[1..] == StoredAll(sn, now, rs[1..]);
    }
  }

  /** The device row the readings table implies: latest name, first and last upload time. */
  ghost predicate RowMatches(t: Tables, key: DeviceKey) {
    var first, last := FirstOf(t.readings, key), LastOf(t.readings, key);
    && (key in t.devices <==> first.Some?)
    && (first.Some? <==> last.Some?)
    && (key in t.devices ==>
          t.devices[key] == DeviceRow(last.value.deviceName, first.value.uploadTime, last.value.uploadTime))
  }

  lemma ApplyMatches(t: Tables, s: Save, key: DeviceKey)
    requires Possible(s) && UpsertsSucceeded(s) && RowMatches(t, key)
    ensures RowMatches(Apply(t, s), key)
  {
    if s.inserted {
      var batch := StoredAll(s.sn, s.now, s.rs);
      FirstOfAppend(t.readings, batch, key);
      LastOfAppend(t.readings, batch, key);
      SeenIsLast(s.sn, s.now, s.rs, key);
      FirstIsNow(s.sn, s.now, s.rs, key);
      FirstIff(batch, key);
      LastIff(batch, key);
      UpsertAt(t.devices, s.sn, Seen(s.rs), s.done, s.now, key);
      hide FirstOf, LastOf, StoredAll, Seen, UpsertAll, Occurs;
    } else {
      UpsertNone(t.devices, s.sn, Seen(s.rs), s.now);
    }
  }

  /**
   In every run without a failed upsert, with inserts failing at will and any clock, the device
   table is a function of the readings table: same devices, the name of the last stored reading,
   and the upload times of the first and the last.
   */
  lemma {:induction false} DeviceTableIsIndex(saves: seq<Save>, key: DeviceKey)
    requires forall s | s in saves :: Possible(s) && UpsertsSucceeded(s)
    ensures RowMatches(Run(saves), key)
  {
    if saves != [] {
      DeviceTableIsIndex(saves[..|saves| - 1], key);
      ApplyMatches(Run(saves[..|saves| - 1]), saves[|saves| - 1], key);
    }
  }

  /** In every run, also with failed upserts, each device row has a stored reading. */
  lemma {:induction false} DeviceHasReading(saves: seq<Save>, key: DeviceKey)
    requires forall s | s in saves :: Possible(s)
    requires key in Run(saves).devices
    ensures Occurs(Run(saves).readings, key)
  {
    var before, s := Run(saves[..|saves| - 1]), saves[|saves| - 1];
    var batch := StoredAll(s.sn, s.now, s.rs);
    assert s in saves && Run(saves) == Apply(before, s);
    if key in before.devices {
      DeviceHasReading(saves[..|saves| - 1], key);
      OccursAppend(before.readings, batch, key);
    } else {
      UpsertAt(before.devices, s.sn, Seen(s.rs), s.done, s.now, key);
      assert key.sn == s.sn && key.device in Seen(s.rs) && s.inserted;
      SeenIsLast(s.sn, s.now, s.rs, key);
      LastIff(batch, key);
      OccursAppend(before.readings, batch, key);
    }
  }

  // ---- Which rows are in the readings table ----

  /** Every reading of a batch whose insert went through has its row in the table. */
  lemma {:induction false} BatchIsStored(saves: seq<Save>, k: nat, r: Reading)
    requires forall s | s in saves :: Possible(s)
    requires k < |saves| && saves[k].inserted && r in saves[k].rs
    ensures Stored(saves[k].sn, saves[k].now, r) in Run(saves).readings
    ensures StoredReading(saves[k].sn, saves[k].now, r.device, r.deviceName, r.point, r.pointName, r.dataType, r.value, r.quality,
                          r.unit, r.timestamp) in Run(saves).readings
    decreases saves
  {
    var n := |saves| - 1;
    var last := saves[n];
    var before, batch := Run(saves[..n]).readings, StoredAll(last.sn, last.now, last.rs);
    if k < n {
      BatchIsStored(saves[..n], k, r);
      if last.inserted {
        assert Stored(saves[k].sn, saves[k].now, r) in before + batch;
      }
    } else {
      var i :| 0 <= i < |last.rs| && last.rs[i] == r;
      assert batch[i] in before + batch;
    }
  }

  /** And every row of the table came with such a batch. */
  lemma {:induction false} StoredFromBatch(saves: seq<Save>, x: StoredReading) returns (k: nat, r: Reading)
    requires forall s | s in saves :: Possible(s)
    requires x in Run(saves).readings
    ensures k < |saves| && saves[k].inserted && r in saves[k].rs && x == Stored(saves[k].sn, saves[k].now, r)
    ensures x == StoredReading(saves[k].sn, saves[k].now, r.device, r.deviceName, r.point, r.pointName, r.dataType, r.value,
                               r.quality, r.unit, r.timestamp)
    decreases saves
  {
    var n := |saves| - 1;
    var last := saves[n];
    if last.inserted && x in StoredAll(last.sn, last.now, last.rs) {
      var i :| 0 <= i < |last.rs| && StoredAll(last.sn, last.now, last.rs)[i] == x;
      k, r := n, last.rs[i];
    } else {
      k, r := StoredFromBatch(saves[..n], x);
    }
  }

  /** The clock never went back between saves. */
  predicate ClockMonotone(saves: seq<Save>) {
    forall i, j | 0 <= i < j < |saves| :: saves[i].now <= saves[j].now
  }

  /** Upload times ascend along the table and stay at or below `now`. */
  ghost predicate SortedUpTo(rows: seq<StoredReading>, now: int) {
    && (forall i, j | 0 <= i < j < |rows| :: rows[i].uploadTime <= rows[j].uploadTime)
    && (forall i | 0 <= i < |rows| :: rows[i].uploadTime <= now)
  }

  lemma {:induction false} UploadTimesSorted(saves: seq<Save>)
    requires forall s | s in saves :: Possible(s)
    requires saves != [] && ClockMonotone(saves)
    ensures SortedUpTo(Run(saves).readings, saves[|saves| - 1].now)
  {
    var init, s := saves[..|saves| - 1], saves[|saves| - 1];
    if init != [] {
      UploadTimesSorted(init);
      assert init[|init| - 1].now <= s.now;
    }
    assert SortedUpTo(Run(init).readings, s.now);
    SortedAppend(Run(init).readings, StoredAll(s.sn, s.now, s.rs), s.now);
  }

  lemma SortedAppend(rows: seq<StoredReading>, batch: seq<StoredReading>, now: int)
    requires SortedUpTo(rows, now) && forall i | 0 <= i < |batch| :: batch[i].uploadTime == now
    ensures SortedUpTo(rows + batch, now)
  {}

  lemma {:induction false} FirstIsEarliest(rows: seq<StoredReading>, key: DeviceKey, r: StoredReading)
    requires forall i, j | 0 <= i < j < |rows| :: rows[i].uploadTime <= rows[j].uploadTime
    requires r in rows && KeyOf(r) == key
    ensures FirstOf(rows, key).Some? && FirstOf(rows, key).value in rows && FirstOf(rows, key).value.uploadTime <= r.uploadTime
    decreases rows
  {
    assert rows == [rows[0]] + rows[1..];
    if KeyOf(rows[0]) != key {
      FirstIsEarliest(rows[1..], key, r);
    }
  }

  lemma {:induction false} LastIsLatest(rows: seq<StoredReading>, key: DeviceKey, r: StoredReading)
    requires forall i, j | 0 <= i < j < |rows| :: rows[i].uploadTime <= rows[j].uploadTime
    requires r in rows && KeyOf(r) == key
    ensures LastOf(rows, key).Some? && LastOf(rows, key).value in rows && r.uploadTime <= LastOf(rows, key).value.uploadTime
    decreases rows
  {
    var init := rows[..|rows| - 1];
    assert rows == init + [rows[|rows| - 1]];
    if KeyOf(rows[|rows| - 1]) != key {
      LastIsLatest(init, key, r);
    }
  }

  /** With a clock that never goes back, first and last seen bound every upload time of the device. */
  lemma SeenTimesAreBounds(saves: seq<Save>, key: DeviceKey, r: StoredReading)
    requires forall s | s in saves :: Possible(s) && UpsertsSucceeded(s)
    requires ClockMonotone(saves)
    requires r in Run(saves).readings && KeyOf(r) == key
    ensures key in Run(saves).devices
    ensures var row := Run(saves).devices[key]; row.firstSeen <= r.uploadTime <= row.lastSeen
  {
    DeviceTableIsIndex(saves, key);
    UploadTimesSorted(saves);
    FirstIsEarliest(Run(saves).readings, key, r);
    LastIsLatest(Run(saves).readings, key, r);
  }
}
