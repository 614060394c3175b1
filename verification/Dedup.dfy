/**
 The deduplication cache: an LRU over a ring of doubly linked elements, with a map from
 keys to elements. Every operation refines the recency-ordered sequence of its keys.
 */
module Dedup {
  import opened Bytes
  import opened Recency

  type Key = bytes

  class Element {
    const value: Key
    var next: Element?
    var prev: Element?

    constructor (value: Key)
      ensures this.value == value
    {
      this.value := value;
      next, prev := null, null;
    }
  }

  /** A doubly linked list, as a ring through a sentinel. */
  class LinkedList {
    const root: Element
    var len: nat
    ghost var elems: seq<Element>

    /** Once around the ring, from the sentinel back to itself. */
    ghost function Ring(): seq<Element>
      reads this
    {
      [root] + elems + [root]
    }

    ghost predicate Valid()
      reads this, root, elems
    {
      len == |elems| && root !in elems && Distinct(elems) && Linked(Ring())
    }

    ghost function Nodes(): set<Element>
      reads this
    {
      set e | e in elems
    }

    constructor ()
      ensures Valid() && elems == []
      ensures fresh(root)
    {
      root := new Element([]);
      len, elems := 0, [];
      new;
      root.next, root.prev := root, root;
    }

    /** Empties the list; the elements it held are left as they are. */
    method Init()
      modifies this, root
      ensures Valid() && elems == []
    {
      root.next, root.prev := root, root;
      len, elems := 0, [];
    }

    method Back() returns (e: Element)
      requires Valid() && elems != []
      ensures e == elems[|elems| - 1]
    {
      LinksAt(Ring(), |elems|);
      e := root.prev;
    }

    method Front() returns (e: Element)
      requires Valid() && elems != []
      ensures e == elems[0]
    {
      LinksAt(Ring(), 0);
      e := root.next;
    }

    /** Takes the element at position `k` out of the ring. */
    method Unlink(e: Element, ghost k: nat)
      requires Valid() && k < |elems| && elems[k] == e
      modifies this, root, elems
      ensures Valid() && elems == old(elems)[..k] + old(elems)[k + 1..]
    {
      ghost var ring, n := Ring(), |elems| + 2;
      DistinctWithout(elems, k, root);
      hide Linked;
      LinksAt(ring, k);
      LinksAt(ring, k + 1);
      e.prev.next := e.next;
      e.next.prev := e.prev;
      len := len - 1;
      elems := elems[..k] + elems[k + 1..];
      ghost var rest := ring[..k + 1] + ring[k + 2..];
      assert Ring() == rest;
      forall i | 0 <= i < n - 2
        ensures rest[i].next == rest[i + 1] && rest[i + 1].prev == rest[i]
      {
        ghost var j := if i <= k then i else i + 1;
        assert rest[i] == ring[j];
        assert old(ring[j].next == ring[j + 1] && ring[j + 1].prev == ring[j]);
      }
    }

    /** Puts an element that is not in the ring at the front. */
    method LinkFront(e: Element)
      requires Valid() && e != root && e !in elems
      modifies this, root, elems, e
      ensures Valid() && elems == [e] + old(elems)
    {
      ghost var ring, n := Ring(), |elems| + 2;
      LinksAt(ring, 0);
      e.prev := root;
      e.next := root.next;
      e.prev.next := e;
      e.next.prev := e;
      len := len + 1;
      elems := [e] + elems;
      ghost var more := [root, e] + ring[1..];
      assert Ring() == more;
      forall i | 0 <= i < n
        ensures more[i].next == more[i + 1] && more[i + 1].prev == more[i]
      {
        if i > 1 {
          assert old(ring[i - 1].next == ring[i] && ring[i].prev == ring[i - 1]);
        }
      }
    }

    method PushFront(value: Key) returns (e: Element)
      requires Valid()
      modifies this, root, elems
      ensures Valid() && fresh(e) && e.value == value && elems == [e] + old(elems)
    {
      e := new Element(value);
      LinkFront(e);
    }

    method Remove(e: Element, ghost k: nat)
      requires Valid() && k < |elems| && elems[k] == e
      modifies this, root, elems
      ensures Valid() && elems == old(elems)[..k] + old(elems)[k + 1..]
    {
      Unlink(e, k);
      e.next := null;
      e.prev := null;
    }

    method MoveToFront(e: Element, ghost k: nat)
      requires Valid() && k < |elems| && elems[k] == e
      modifies this, root, elems
      ensures Valid() && elems == [e] + (old(elems)[..k] + old(elems)[k + 1..]) && Nodes() == old(Nodes())
    {
      MovedNodes(elems, k);
      var front := Front();
      if front != e {
        Unlink(e, k);
        LinkFront(e);
      }
    }
  }

  lemma MovedNodes(elems: seq<Element>, k: nat)
    requires k < |elems|
    ensures var moved := [elems[k]] + (elems[..k] + elems[k + 1..]);
            (set e | e in moved) == set e | e in elems
  {
    assert elems == elems[..k] + [elems[k]] + elems[k + 1..];
  }

  lemma LastNode(elems: seq<Element>)
    requires Distinct(elems) && elems != []
    ensures var init := elems[..|elems| - 1];
            (set e | e in init) == (set e | e in elems) - {elems[|elems| - 1]}
  {
    var init, last := elems[..|elems| - 1], elems[|elems| - 1];
    assert elems == init + [last];
  }

  lemma DistinctWithout(elems: seq<Element>, k: nat, root: Element)
    requires Distinct(elems) && k < |elems| && root !in elems
    ensures Distinct(elems[..k] + elems[k + 1..]) && root !in elems[..k] + elems[k + 1..]
  {}

  /** The keys on a list of elements. */
  ghost function Values(elems: seq<Element>): (keys: seq<Key>)
    ensures |keys| == |elems| && forall i | 0 <= i < |keys| :: keys[i] == elems[i].value
  {
    seq(|elems|, i requires 0 <= i < |elems| => elems[i].value)
  }

  class DedupCache {
    const capacity: nat
    const lruList: LinkedList
    var items: map<Key, Element>

    /** The keys held, most recently used first. */
    ghost function Keys(): seq<Key>
      reads this, lruList
    {
      Values(lruList.elems)
    }

    /** The map's domain is the list's keys, each entry points at the node holding its key, and all fit. */
    ghost predicate Valid()
      reads this, lruList, lruList.root, lruList.elems
    {
      Agrees() && lruList.len <= capacity
    }

    /** Everything but the bound: what holds between an insertion and the eviction it causes. */
    ghost predicate Agrees()
      reads this, lruList, lruList.root, lruList.elems
    {
      && lruList.Valid()
      && (forall k | k in items :: items[k] in lruList.Nodes() && items[k].value == k)
      && (forall e | e in lruList.Nodes() :: e.value in items && items[e.value] == e)
    }

    constructor (capacity: nat)
      ensures Valid() && Keys() == [] && this.capacity == capacity
      ensures fresh(lruList) && fresh(lruList.root)
    {
      this.capacity := capacity;
      lruList := new LinkedList();
      items := map[];
    }

    lemma KeysDistinct()
      requires Agrees()
      ensures Distinct(Keys())
      ensures forall k :: k in items <==> k in Keys()
    {
      var keys, elems := Keys(), lruList.elems;
      forall i, j | 0 <= i < j < |keys|
        ensures keys[i] != keys[j]
      {
        assert elems[i] in elems && elems[j] in elems;
      }
      forall k
        ensures k in items <==> k in keys
      {
        if k in items {
          var i :| 0 <= i < |elems| && elems[i] == items[k];
          assert keys[i] == k;
        }
        if k in keys {
          var i :| 0 <= i < |keys| && keys[i] == k;
          assert elems[i] in elems;
        }
      }
    }

    /** Looks a key up; a hit makes it the most recent one. */
    method Exists(key: Key) returns (found: bool)
      requires Valid()
      modifies lruList, lruList.root, lruList.elems
      ensures Valid() && lruList.Nodes() == old(lruList.Nodes())
      ensures found == (key in old(Keys()))
      ensures Keys() == Hit(old(Keys()), key)
    {
      KeysDistinct();
      found := key in items;
      if found {
        Promote(key);
      }
    }

    /** Moves the element of a known key to the front of the list. */
    method Promote(key: Key)
      requires Valid() && key in items
      modifies lruList, lruList.root, lruList.elems
      ensures Valid() && lruList.Nodes() == old(lruList.Nodes())
      ensures Keys() == Touch(old(Keys()), key)
    {
      KeysDistinct();
      hide Linked, Touch, Distinct;
      var elem := items[key];
      ghost var elems := lruList.elems;
      ghost var k :| 0 <= k < |elems| && elems[k] == elem;
      Moved(elems, k);
      TouchAt(Keys(), k);
      lruList.MoveToFront(elem, k);
    }

    /** Inserts a key, evicting the least recent one when the cache overflows. */
    method Add(key: Key)
      requires Valid()
      modifies this`items, lruList, lruList.root, lruList.elems
      ensures Valid() && fresh(lruList.Nodes() - old(lruList.Nodes()))
      ensures Keys() == Added(old(Keys()), key, capacity)
    {
      KeysDistinct();
      if key in items {
        Promote(key);
        return;
      }
      hide Linked, Touch, Distinct;
      ghost var before := Keys();
      var elem := lruList.PushFront(key);
      items := items[key := elem];
      assert Keys() == [key] + before;
      if lruList.len > capacity {
        EvictOldest();
      }
    }

    method EvictOldest()
      requires Agrees() && lruList.elems != []
      modifies this`items, lruList, lruList.root, lruList.elems
      ensures Agrees() && lruList.Nodes() <= old(lruList.Nodes())
      ensures Keys() == old(Keys())[..|old(Keys())| - 1]
    {
      ghost var elems := lruList.elems;
      ghost var last := |elems| - 1;
      LastNode(elems);
      hide Linked, Distinct;
      var oldest := lruList.Back();
      lruList.Remove(oldest, last);
      assert lruList.elems == elems[..last];
      items := items - {oldest.value};
    }

    method Clear()
      requires Valid()
      modifies this`items, lruList, lruList.root
      ensures Valid() && Keys() == [] && lruList.Nodes() == {}
    {
      lruList.Init();
      items := map[];
    }
  }

  /** Moving position `k` to the front takes its key along. */
  lemma Moved(elems: seq<Element>, k: nat)
    requires k < |elems|
    ensures var moved := [elems[k]] + (elems[..k] + elems[k + 1..]);
            var keys := Values(elems);
            Values(moved) == [keys[k]] + (keys[..k] + keys[k + 1..])
  {}

  /** Each element is linked to the next one. */
  ghost predicate Linked(ring: seq<Element>)
    reads ring
  {
    && (forall i | 0 <= i < |ring| - 1 :: ring[i].next == ring[i + 1])
    && (forall i | 0 <= i < |ring| - 1 :: ring[i + 1].prev == ring[i])
  }

  lemma LinksAt(ring: seq<Element>, i: nat)
    requires Linked(ring) && i + 1 < |ring|
    ensures ring[i].next == ring[i + 1] && ring[i + 1].prev == ring[i]
  {}
}
