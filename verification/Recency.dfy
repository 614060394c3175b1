/**
 What the deduplication cache remembers, as plain sequences: the keys in order of
 their last use, most recent first, cut off at the capacity.
 */
module Recency {

  /** `s` without `k`, in order. */
  function Without<K(==, !new)>(s: seq<K>, k: K): (r: seq<K>)
    ensures |r| <= |s|
    ensures k !in r && forall x :: x in r <==> x in s && x != k
    ensures k !in s ==> r == s
  {
    if s == [] then [] else if s[0] == k then Without(s[1..], k) else [s[0]] + Without(s[1..], k)
  }

  function Touch<K(==, !new)>(s: seq<K>, k: K): seq<K> {
    [k] + Without(s, k)
  }

  /** The effect of a lookup. */
  function Hit<K(==, !new)>(s: seq<K>, k: K): seq<K> {
    if k in s then Touch(s, k) else s
  }

  /** The effect of an insertion: a known key moves to the front, a new one may evict the oldest. */
  function Added<K(==, !new)>(s: seq<K>, k: K, capacity: nat): seq<K> {
    if k in s then Touch(s, k)
    else
      var t := [k] + s;
      if |t| > capacity then t[..|t| - 1] else t
  }

  ghost predicate Distinct<K>(s: seq<K>) {
    forall i, j | 0 <= i < j < |s| :: s[i] != s[j]
  }

  lemma {:induction false} WithoutDistinct<K(!new)>(s: seq<K>, k: K)
    requires Distinct(s)
    ensures Distinct(Without(s, k))
    ensures k in s ==> |Without(s, k)| == |s| - 1
  {
    if s != [] {
      WithoutDistinct(s[1..], k);
      if s[0] == k {
        assert k !in s[1..];
      } else {
        assert s == [s[0]] + s[1..];
        assert s[0] !in Without(s[1..], k);
      }
    }
  }

  /** Removing the key at a known position. */
  lemma {:induction false} WithoutAt<K(!new)>(s: seq<K>, i: nat)
    requires Distinct(s) && i < |s|
    ensures Without(s, s[i]) == s[..i] + s[i + 1..]
  {
    if i == 0 {
      assert s[0] !in s[1..];
    } else {
      WithoutAt(s[1..], i - 1);
      assert s[1..][..i - 1] == s[..i][1..] && s[1..][i..] == s[i + 1..];
      assert s[..i] == [s[0]] + s[..i][1..];
    }
  }

  // ---- Runs of cache operations ----

  datatype Op<K> = Exists(key: K) | Add(key: K) | Clear

  function Apply<K(==, !new)>(s: seq<K>, op: Op<K>, capacity: nat): seq<K> {
    match op
    case Exists(k) => Hit(s, k)
    case Add(k) => Added(s, k, capacity)
    case Clear => []
  }

  /** The cache after a run of operations on an empty cache. */
  function Run<K(==, !new)>(ops: seq<Op<K>>, capacity: nat): seq<K> {
    if ops == [] then [] else Apply(Run(ops[..|ops| - 1], capacity), ops[|ops| - 1], capacity)
  }

  /** The keys used since the last clear, oldest first: every insertion, and every lookup that hit. */
  function Used<K(==, !new)>(ops: seq<Op<K>>, capacity: nat): seq<K> {
    if ops == [] then []
    else
      var before := ops[..|ops| - 1];
      match ops[|ops| - 1]
      case Exists(k) => if k in Run(before, capacity) then Used(before, capacity) + [k] else Used(before, capacity)
      case Add(k) => Used(before, capacity) + [k]
      case Clear => []
  }

  /** `k` was inserted since the last clear. */
  predicate AddedSinceClear<K(==, !new)>(ops: seq<Op<K>>, k: K) {
    ops != [] && ops[|ops| - 1] != Clear
    && (ops[|ops| - 1] == Add(k) || AddedSinceClear(ops[..|ops| - 1], k))
  }

  /** The distinct keys used after the last use of `k`. */
  function UsedAfter<K(==, !new)>(used: seq<K>, k: K): set<K> {
    if used == [] then {}
    else
      var last := used[|used| - 1];
      if last == k then {} else UsedAfter(used[..|used| - 1], k) + {last}
  }

  /** All keys used, most recently used first. */
  function Recent<K(==, !new)>(used: seq<K>): seq<K> {
    if used == [] then [] else Touch(Recent(used[..|used| - 1]), used[|used| - 1])
  }

  lemma {:induction false} RecentKeys<K(!new)>(used: seq<K>)
    ensures Distinct(Recent(used))
    ensures forall k :: k in Recent(used) <==> k in used
  {
    if used != [] {
      var init, last := used[..|used| - 1], used[|used| - 1];
      RecentKeys(init);
      WithoutDistinct(Recent(init), last);
      assert used == init + [last];
    }
  }

  /** A key stands behind exactly the keys used after it. */
  lemma {:induction false} RecentRank<K(!new)>(used: seq<K>, k: K)
    requires k in used
    ensures var r, after := Recent(used), UsedAfter(used, k);
            |after| < |r| && r[|after|] == k && forall x :: x in r[..|after|] <==> x in after
  {
    var init, last := used[..|used| - 1], used[|used| - 1];
    assert used == init + [last];
    RecentKeys(init);
    if last != k {
      RecentRank(init, k);
      var r, after := Recent(init), UsedAfter(init, k);
      var n := |after|;
      WithoutDistinct(r, last);
      if last in r {
        var i :| 0 <= i < |r| && r[i] == last;
        WithoutAt(r, i);
        assert i < n <==> last in r[..n];
      }
      RankStep(r, after, k, last);
    }
  }

  lemma TouchAt<K(!new)>(s: seq<K>, i: nat)
    requires Distinct(s) && i < |s|
    ensures Touch(s, s[i]) == [s[i]] + (s[..i] + s[i + 1..])
  {
    WithoutAt(s, i);
  }

  lemma RankStep<K(!new)>(r: seq<K>, after: set<K>, k: K, last: K)
    requires Distinct(r) && last != k
    requires |after| < |r| && r[|after|] == k
    requires forall x :: x in r[..|after|] <==> x in after
    ensures var t, n := Touch(r, last), |after + {last}|;
            n < |t| && t[n] == k && forall x :: x in t[..n] <==> x in after + {last}
  {
    var n := |after|;
    if last in after {
      assert last in r[..n];
      var i :| 0 <= i < n && r[i] == last;
      TouchAt(r, i);
      assert after + {last} == after;
      MoveWithin(r, i, n);
    } else {
      assert last !in r[..n];
      assert |after + {last}| == n + 1;
      RankStepNew(r, n, last);
      var t := [last] + r[..n];
      assert forall x :: x in t <==> x == last || x in r[..n];
    }
  }

  lemma RankStepNew<K(!new)>(r: seq<K>, n: nat, last: K)
    requires Distinct(r) && n < |r| && last !in r[..n] && last != r[n]
    ensures |Touch(r, last)| > n + 1 && Touch(r, last)[..n + 1] == [last] + r[..n] && Touch(r, last)[n + 1] == r[n]
  {
    if last in r {
      assert forall j | 0 <= j < n :: r[j] == r[..n][j];
      var i :| 0 <= i < |r| && r[i] == last;
      TouchAt(r, i);
      assert (r[..i] + r[i + 1..])[..n + 1] == r[..n + 1];
    } else {
      assert Touch(r, last) == [last] + r;
    }
  }

  /** Moving position `i` to the front keeps the first `n` keys together when `i` is among them. */
  lemma MoveWithin<K(!new)>(r: seq<K>, i: nat, n: nat)
    requires i < n < |r|
    ensures var t := [r[i]] + (r[..i] + r[i + 1..]);
            |t| == |r| && t[n] == r[n] && forall x :: x in t[..n] <==> x in r[..n]
  {
    var t := [r[i]] + (r[..i] + r[i + 1..]);
    var mid := r[i + 1..n];
    assert t[..n] == [r[i]] + r[..i] + mid;
    assert r[..n] == r[..i] + [r[i]] + mid;
  }

  function Cut<K>(s: seq<K>, capacity: nat): seq<K> {
    if |s| > capacity then s[..capacity] else s
  }

  /** The cache holds the most recently used keys, as many as fit. */
  lemma {:induction false} RunIsRecent<K(!new)>(ops: seq<Op<K>>, capacity: nat)
    ensures Run(ops, capacity) == Cut(Recent(Used(ops, capacity)), capacity)
  {
    if ops != [] {
      var before, op := ops[..|ops| - 1], ops[|ops| - 1];
      RunIsRecent(before, capacity);
      var used := Used(before, capacity);
      RecentKeys(used);
      if op != Clear && (op.Add? || op.key in Run(before, capacity)) {
        assert (used + [op.key])[..|used|] == used;
        CutTouch(Recent(used), op.key, capacity);
      }
    }
  }

  lemma CutInside<K>(r: seq<K>, i: nat, capacity: nat)
    requires i < capacity < |r|
    ensures var c := r[..capacity];
            ([r[i]] + (r[..i] + r[i + 1..]))[..capacity] == [c[i]] + (c[..i] + c[i + 1..])
  {}

  lemma CutOutside<K>(r: seq<K>, i: nat, capacity: nat)
    requires capacity <= i < |r|
    ensures ([r[i]] + (r[..i] + r[i + 1..]))[..capacity] == ([r[i]] + r[..capacity])[..capacity]
  {}

  lemma CutTouch<K(!new)>(r: seq<K>, k: K, capacity: nat)
    requires Distinct(r)
    ensures Cut(Touch(r, k), capacity) == Added(Cut(r, capacity), k, capacity)
  {
    var c := Cut(r, capacity);
    WithoutDistinct(r, k);
    if k !in r {
      assert k !in c;
      assert Touch(r, k) == [k] + r;
    } else if |r| > capacity {
      var i :| 0 <= i < |r| && r[i] == k;
      TouchAt(r, i);
      if i < capacity {
        assert c[i] == k;
        TouchAt(c, i);
        CutInside(r, i, capacity);
      } else {
        assert k !in c;
        CutOutside(r, i, capacity);
      }
    }
  }

  /**
   A lookup finds a key exactly when it was inserted since the last clear and fewer than
   `capacity` distinct other keys were used after its last use.
   */
  lemma ExistsIff<K(!new)>(ops: seq<Op<K>>, capacity: nat, k: K)
    ensures k in Run(ops, capacity) <==>
            AddedSinceClear(ops, k) && |UsedAfter(Used(ops, capacity), k)| < capacity
    ensures k !in UsedAfter(Used(ops, capacity), k)
  {
    var used := Used(ops, capacity);
    var r := Recent(used);
    RunIsRecent(ops, capacity);
    RecentKeys(used);
    UsedIff(ops, capacity, k);
    NotAfterItself(used, k);
    if k in used {
      RecentRank(used, k);
      var n := |UsedAfter(used, k)|;
      if n < capacity {
        assert Cut(r, capacity)[n] == k;
      } else {
        assert forall i | 0 <= i < capacity && i < |r| :: r[i] != r[n];
      }
    }
  }

  lemma {:induction false} NotAfterItself<K(!new)>(used: seq<K>, k: K)
    ensures k !in UsedAfter(used, k)
  {
    if used != [] {
      NotAfterItself(used[..|used| - 1], k);
    }
  }

  lemma {:induction false} UsedIff<K(!new)>(ops: seq<Op<K>>, capacity: nat, k: K)
    ensures k in Used(ops, capacity) <==> AddedSinceClear(ops, k)
  {
    if ops != [] {
      var before, op := ops[..|ops| - 1], ops[|ops| - 1];
      UsedIff(before, capacity, k);
      if op.Exists? && op.key in Run(before, capacity) {
        RunIsRecent(before, capacity);
        RecentKeys(Used(before, capacity));
        assert op.key in Used(before, capacity);
      }
    }
  }
}
