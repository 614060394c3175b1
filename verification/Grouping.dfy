/**
 Grouping readings by device name: the plain loop for small batches and the two-pass
 form that reserves each group's capacity first.
 */
module Grouping {
  import opened Bytes
  import opened Payload
  import opened Recency

  const UNKNOWN: bytes := [95, 95, 117, 110, 107, 110, 111, 119, 110, 95, 95]  // "__unknown__"

  function NameOf(r: Reading): bytes {
    if r.deviceName == [] then UNKNOWN else r.deviceName
  }

  /** The readings of one group, in order. */
  function Group(rs: seq<Reading>, name: bytes): seq<Reading> {
    if rs == [] then []
    else
      var init, last := rs[..|rs| - 1], rs[|rs| - 1];
      if NameOf(last) == name then Group(init, name) + [last] else Group(init, name)
  }

  function Names(rs: seq<Reading>): set<bytes> {
    set r | r in rs :: NameOf(r)
  }

  function ByName(rs: seq<Reading>): map<bytes, seq<Reading>> {
    map name | name in Names(rs) :: Group(rs, name)
  }

  lemma NamesSnoc(rs: seq<Reading>, i: nat)
    requires i < |rs|
    ensures Names(rs[..i + 1]) == Names(rs[..i]) + {NameOf(rs[i])}
    ensures forall name :: Group(rs[..i + 1], name) ==
                           if NameOf(rs[i]) == name then Group(rs[..i], name) + [rs[i]] else Group(rs[..i], name)
  {
    assert rs[..i + 1] == rs[..i] + [rs[i]];
    assert rs[..i + 1][..i] == rs[..i];
    assert forall r :: r in rs[..i + 1] <==> r in rs[..i] || r == rs[i];
  }

  lemma {:induction false} GroupEmptyIff(rs: seq<Reading>, name: bytes)
    ensures Group(rs, name) == [] <==> name !in Names(rs)
  {
    if rs != [] {
      GroupEmptyIff(rs[..|rs| - 1], name);
      NamesSnoc(rs, |rs| - 1);
      assert rs[..|rs|] == rs;
    }
  }

  lemma ByNameSnoc(rs: seq<Reading>, i: nat, key: bytes)
    requires i < |rs| && key == NameOf(rs[i])
    ensures var before := ByName(rs[..i]);
            ByName(rs[..i + 1]) == before[key := (if key in before then before[key] else []) + [rs[i]]]
  {
    hide NameOf;
    NamesSnoc(rs, i);
    GroupEmptyIff(rs[..i], key);
  }

  method GroupReadingsByDeviceName(rs: seq<Reading>) returns (grouped: map<bytes, seq<Reading>>)
    ensures grouped == ByName(rs)
  {
    grouped := map[];
    for i := 0 to |rs|
      invariant grouped == ByName(rs[..i])
    {
      hide ByName;
      var key := rs[i].deviceName;
      if key == [] {
        key := UNKNOWN;
      }
      ByNameSnoc(rs, i, key);
      grouped := grouped[key := (if key in grouped then grouped[key] else []) + [rs[i]]];
    }
    assert rs[..|rs|] == rs;
  }

  /** A Go slice: its elements, and how many fit before an append must reallocate. */
  datatype Slice = Slice(data: seq<Reading>, capacity: nat)

  function Data(grouped: map<bytes, Slice>): map<bytes, seq<Reading>> {
    map name | name in grouped :: grouped[name].data
  }

  function Counts(rs: seq<Reading>): map<bytes, nat> {
    map name | name in Names(rs) :: |Group(rs, name)|
  }

  lemma CountsSnoc(rs: seq<Reading>, i: nat, key: bytes)
    requires i < |rs| && key == NameOf(rs[i])
    ensures var before := Counts(rs[..i]);
            Counts(rs[..i + 1]) == before[key := (if key in before then before[key] else 0) + 1]
  {
    hide NameOf;
    NamesSnoc(rs, i);
    GroupEmptyIff(rs[..i], key);
  }

  /** The slices once the first `n` readings are in them. */
  function Filled(rs: seq<Reading>, n: nat): map<bytes, Slice>
    requires n <= |rs|
  {
    map name | name in Names(rs) :: Slice(Group(rs[..n], name), |Group(rs, name)|)
  }

  lemma FilledSnoc(rs: seq<Reading>, i: nat, key: bytes)
    requires i < |rs| && key == NameOf(rs[i])
    ensures key in Filled(rs, i)
    ensures var slice := Filled(rs, i)[key];
            |slice.data| < slice.capacity
            && Filled(rs, i + 1) == Filled(rs, i)[key := Slice(slice.data + [rs[i]], slice.capacity)]
  {
    hide NameOf;
    NamesSnoc(rs, i);
    GroupGrows(rs, i + 1, key);
  }

  /** The same groups; each slice was reserved once, never overflowed, and ends exactly full. */
  method GroupReadingsPrealloc(rs: seq<Reading>) returns (grouped: map<bytes, Slice>)
    ensures Data(grouped) == ByName(rs)
    ensures forall name | name in grouped :: |grouped[name].data| == grouped[name].capacity
  {
    hide *;
    NothingCounted(rs);
    var counts: map<bytes, nat> := map[];
    for i := 0 to |rs|
      invariant counts == Counts(rs[..i])
    {
      var key := rs[i].deviceName;
      if key == [] {
        key := UNKNOWN;
      }
      NameIs(rs[i]);
      CountsSnoc(rs, i, key);
      counts := counts[key := (if key in counts then counts[key] else 0) + 1];
    }
    assert rs[..|rs|] == rs;
    grouped := Reserve(counts);
    FilledFirst(rs);
    for i := 0 to |rs|
      invariant grouped == Filled(rs, i)
    {
      var key := rs[i].deviceName;
      if key == [] {
        key := UNKNOWN;
      }
      NameIs(rs[i]);
      FilledSnoc(rs, i, key);
      var slice := grouped[key];
      assert |slice.data| < slice.capacity;
      grouped := grouped[key := Slice(slice.data + [rs[i]], slice.capacity)];
    }
    FilledLast(rs);
  }

  lemma NameIs(r: Reading)
    ensures NameOf(r) == if r.deviceName == [] then UNKNOWN else r.deviceName
  {}

  lemma NothingCounted(rs: seq<Reading>)
    ensures Counts(rs[..0]) == map[]
  {}

  lemma FilledFirst(rs: seq<Reading>)
    ensures var counts := Counts(rs); Filled(rs, 0) == map name | name in counts :: Slice([], counts[name])
  {}

  lemma FilledLast(rs: seq<Reading>)
    ensures var grouped := Filled(rs, |rs|);
            Data(grouped) == ByName(rs) && forall name | name in grouped :: |grouped[name].data| == grouped[name].capacity
  {
    assert rs[..|rs|] == rs;
  }

  /** Empty slices of the counted capacities, made in whatever order the map is walked. */
  method Reserve(counts: map<bytes, nat>) returns (grouped: map<bytes, Slice>)
    ensures grouped == map name | name in counts :: Slice([], counts[name])
  {
    grouped := map[];
    var left := counts.Keys;
    while left != {}
      invariant left <= counts.Keys
      invariant grouped == map name | name in counts.Keys - left :: Slice([], counts[name])
    {
      var name :| name in left;
      grouped := grouped[name := Slice([], counts[name])];
      left := left - {name};
    }
  }

  lemma {:induction false} GroupGrows(rs: seq<Reading>, n: nat, name: bytes)
    requires n <= |rs|
    ensures |Group(rs[..n], name)| <= |Group(rs, name)|
    decreases |rs| - n
  {
    if n < |rs| {
      NamesSnoc(rs, n);
      GroupGrows(rs, n + 1, name);
    } else {
      assert rs[..n] == rs;
    }
  }

  /** The choice by size makes no difference to the result. */
  method GroupReadings(rs: seq<Reading>) returns (grouped: map<bytes, seq<Reading>>)
    ensures grouped == ByName(rs)
  {
    if |rs| < 8 {
      grouped := GroupReadingsByDeviceName(rs);
    } else {
      var slices := GroupReadingsPrealloc(rs);
      grouped := Data(slices);
    }
  }

  /** `at` lists, in ascending order, the positions of all readings named `name`, and `group` is what stands there. */
  ghost predicate Selects(at: seq<nat>, rs: seq<Reading>, name: bytes, group: seq<Reading>) {
    && |at| == |group|
    && (forall i, j | 0 <= i < j < |at| :: at[i] < at[j])
    && (forall i | 0 <= i < |at| :: at[i] < |rs| && rs[at[i]] == group[i] && NameOf(group[i]) == name)
    && (forall j | 0 <= j < |rs| && NameOf(rs[j]) == name :: j in at)
  }

  /** A group is the subsequence of exactly the readings with its name: none missed, the order kept. */
  lemma GroupIsSubsequence(rs: seq<Reading>, name: bytes) returns (at: seq<nat>)
    ensures Selects(at, rs, name, Group(rs, name))
    ensures var group := Group(rs, name);
            && |at| == |group|
            && (forall i, j | 0 <= i < j < |at| :: at[i] < at[j])
            && (forall i | 0 <= i < |at| :: at[i] < |rs| && group[i] == rs[at[i]])
            && (forall j | 0 <= j < |rs| ::
                  j in at <==> name == if rs[j].deviceName == [] then [95, 95, 117, 110, 107, 110, 111, 119, 110, 95, 95]  // "__unknown__"
                                       else rs[j].deviceName)
    ensures name in ByName(rs) <==> at != []
    ensures name in ByName(rs) ==> ByName(rs)[name] == Group(rs, name)
  {
    at := Selected(rs, name);
    GroupEmptyIff(rs, name);
    hide Group;
  }

  lemma {:induction false} Selected(rs: seq<Reading>, name: bytes) returns (at: seq<nat>)
    ensures Selects(at, rs, name, Group(rs, name))
    decreases rs
  {
    if rs == [] {
      at := [];
    } else {
      var n := |rs| - 1;
      at := Selected(rs[..n], name);
      SelectsSnoc(at, rs[..n], name, Group(rs[..n], name), rs[n]);
      assert rs == rs[..n] + [rs[n]];
      hide Selects;
      if NameOf(rs[n]) == name {
        at := at + [n];
      }
    }
  }

  lemma SelectsSnoc(at: seq<nat>, rs: seq<Reading>, name: bytes, group: seq<Reading>, r: Reading)
    requires Selects(at, rs, name, group)
    ensures if NameOf(r) == name then Selects(at + [|rs|], rs + [r], name, group + [r])
            else Selects(at, rs + [r], name, group)
  {
    hide NameOf;
    var more := at + [|rs|];
    assert more[|at|] == |rs|;
    assert forall j :: j in at ==> j in more;
  }

  function Flatten(rs: seq<Reading>, names: seq<bytes>): seq<Reading> {
    if names == [] then [] else Group(rs, names[0]) + Flatten(rs, names[1..])
  }

  /** Whatever the order of the groups, together they hold exactly the readings of the batch. */
  lemma {:induction false} GroupsArePermutation(rs: seq<Reading>, names: seq<bytes>)
    requires Distinct(names) && forall r | r in rs :: NameOf(r) in names
    ensures multiset(Flatten(rs, names)) == multiset(rs)
    decreases rs
  {
    if rs == [] {
      FlattenEmpty(names);
    } else {
      var init, last := rs[..|rs| - 1], rs[|rs| - 1];
      assert rs == init + [last];
      GroupsArePermutation(init, names);
      FlattenSnoc(init, last, names);
    }
  }

  lemma {:induction false} FlattenEmpty(names: seq<bytes>)
    ensures Flatten([], names) == []
  {
    if names != [] {
      FlattenEmpty(names[1..]);
    }
  }

  lemma {:induction false} FlattenSnoc(rs: seq<Reading>, r: Reading, names: seq<bytes>)
    requires Distinct(names)
    ensures multiset(Flatten(rs + [r], names)) ==
            multiset(Flatten(rs, names)) + if NameOf(r) in names then multiset{r} else multiset{}
    decreases names
  {
    if names != [] {
      FlattenSnoc(rs, r, names[1..]);
      assert (rs + [r])[..|rs|] == rs;
      assert names == [names[0]] + names[1..];
      assert names[0] !in names[1..];
    }
  }
}
