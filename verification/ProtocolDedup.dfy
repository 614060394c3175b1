/**
 Deduplication over interleaved connections: how often one payload of one gateway can be
 saved, and who can suppress whom.
 */
module ProtocolDedup {
  import opened Bytes
  import opened Payload
  import opened Recency
  import opened Protocol
  import opened ProtocolSafety
  import opened ProtocolTheorems
  import Dedup
  import Server

  /** All hashes have the same length. */
  ghost predicate FixedHash(env: Env) {
    forall p, q :: |env.hash(p)| == |env.hash(q)|
  }

  /** A handler takes up a request only when no other handler of the same gateway is busy. */
  predicate Serial(s: State, step: Step) {
    step.Look? && step.c in s.conns ==>
      forall d | d in s.conns :: s.conns[d].sn == s.conns[step.c].sn ==> s.conns[d].handler.Free?
  }

  function One(b: bool): nat {
    if b then 1 else 0
  }

  /** At most one handler of a gateway is busy, and a key it missed has not been inserted since. */
  ghost predicate HandlersOk(env: Env, conns: map<nat, Conn>, keys: seq<Dedup.Key>) {
    && (forall c, d | c in conns && d in conns ::
          conns[c].sn == conns[d].sn && !conns[c].handler.Free? && !conns[d].handler.Free? ==> c == d)
    && (forall c | c in conns :: conns[c].handler.Missed? ==> KeyOf(env, conns[c].handler.request.upload) !in keys)
  }

  /** The handlers about to save an upload. */
  function Owing(conns: map<nat, Conn>, u: Upload): set<nat> {
    set c | c in conns && conns[c].handler.Owes? && conns[c].handler.request.upload == u
  }

  /** Every insertion is still there or was evicted, and every save attempt had its own insertion, of a new key or a present one. */
  ghost predicate CountsOk(env: Env, s: State) {
    && Distinct(s.hub.keys)
    && (forall key :: s.hub.inserted[key] == s.hub.evicted[key] + One(key in s.hub.keys))
    && (forall u :: s.hub.attempts[u] + |Owing(s.conns, u)| <= s.hub.inserted[KeyOf(env, u)] + s.hub.reinserted[KeyOf(env, u)])
  }

  // ---- Steps that are not a handler's ----

  lemma OtherStepHandlers(env: Env, s: State, step: Step)
    requires Enabled(env, s, step) && !step.Look? && !step.Insert? && !step.Finish?
    ensures var s' := Next(env, s, step);
            s'.hub == s.hub.(payloads := s'.hub.payloads)
            && (forall c | c in s.conns :: c in s'.conns && s'.conns[c].sn == s.conns[c].sn && s'.conns[c].handler == s.conns[c].handler)
            && (forall c | c in s'.conns && c !in s.conns :: s'.conns[c].handler.Free?)
  {
    hide BatchOf, MarkBatch, UploadBytes;
  }

  lemma SameHandlers(env: Env, conns: map<nat, Conn>, conns': map<nat, Conn>, keys: seq<Dedup.Key>)
    requires HandlersOk(env, conns, keys)
    requires forall c | c in conns :: c in conns' && conns'[c].sn == conns[c].sn && conns'[c].handler == conns[c].handler
    requires forall c | c in conns' && c !in conns :: conns'[c].handler.Free?
    ensures HandlersOk(env, conns', keys)
  {
    hide KeyOf;
  }

  lemma SameOwing(conns: map<nat, Conn>, conns': map<nat, Conn>, u: Upload)
    requires forall c | c in conns :: c in conns' && conns'[c].handler == conns[c].handler
    requires forall c | c in conns' && c !in conns :: conns'[c].handler.Free?
    ensures Owing(conns', u) == Owing(conns, u)
  {}

  lemma OtherCounts(env: Env, s: State, step: Step)
    requires Enabled(env, s, step) && !step.Look? && !step.Insert? && !step.Finish? && CountsOk(env, s)
    ensures CountsOk(env, Next(env, s, step))
  {
    var s' := Next(env, s, step);
    OtherStepHandlers(env, s, step);
    hide Next, Enabled, KeyOf, Owing;
    forall u
      ensures Owing(s'.conns, u) == Owing(s.conns, u)
    {
      SameOwing(s.conns, s'.conns, u);
    }
  }

  // ---- Looking a key up ----

  lemma LookEffect(env: Env, s: State, c: nat)
    requires c in s.conns && s.conns[c].handler.Free? && s.conns[c].requests != []
    ensures var s', key := Looking(env, s, c), KeyOf(env, s.conns[c].requests[0].upload);
            s'.hub == s.hub.(keys := Hit(s.hub.keys, key))
            && c in s'.conns && s'.conns == s.conns[c := s'.conns[c]] && s'.conns[c].sn == s.conns[c].sn
            && s'.conns[c].handler == if key in s.hub.keys then Free else Missed(s.conns[c].requests[0])
  {
    hide KeyOf, Hit;
  }

  lemma HitSame<K(!new)>(keys: seq<K>, key: K)
    requires Distinct(keys)
    ensures Distinct(Hit(keys, key)) && forall x :: x in Hit(keys, key) <==> x in keys
  {
    WithoutDistinct(keys, key);
  }

  lemma LookCounts(env: Env, s: State, c: nat)
    requires c in s.conns && s.conns[c].handler.Free? && s.conns[c].requests != [] && CountsOk(env, s)
    ensures CountsOk(env, Looking(env, s, c))
  {
    var s' := Looking(env, s, c);
    LookEffect(env, s, c);
    HitSame(s.hub.keys, KeyOf(env, s.conns[c].requests[0].upload));
    hide KeyOf, Looking, Hit, Owing;
    forall u
      ensures Owing(s'.conns, u) == Owing(s.conns, u)
    {
      OwingAfter(s.conns, s'.conns, c, u);
    }
  }

  /** A connection that changes moves in or out of the handlers about to save `u`. */
  lemma OwingAfter(conns: map<nat, Conn>, conns': map<nat, Conn>, c: nat, u: Upload)
    requires c in conns && c in conns' && conns' == conns[c := conns'[c]]
    ensures var owes := conns'[c].handler.Owes? && conns'[c].handler.request.upload == u;
            Owing(conns', u) == if owes then Owing(conns, u) + {c} else Owing(conns, u) - {c}
    ensures c in Owing(conns, u) <==> conns[c].handler.Owes? && conns[c].handler.request.upload == u
  {}

  lemma LookHandlers(env: Env, s: State, c: nat)
    requires c in s.conns && s.conns[c].handler.Free? && s.conns[c].requests != [] && Serial(s, Look(c))
    requires HandlersOk(env, s.conns, s.hub.keys) && Distinct(s.hub.keys)
    ensures var s' := Looking(env, s, c); HandlersOk(env, s'.conns, s'.hub.keys)
  {
    LookEffect(env, s, c);
    HitSame(s.hub.keys, KeyOf(env, s.conns[c].requests[0].upload));
    hide KeyOf, Looking, Hit;
  }

  // ---- Inserting it ----

  /** No other connection's handler has business with this gateway. */
  lemma AloneOnGateway(env: Env, s: State, c: nat, d: nat)
    requires Inv(env, s) && HandlersOk(env, s.conns, s.hub.keys)
    requires c in s.conns && d in s.conns && c != d && !s.conns[c].handler.Free? && !s.conns[d].handler.Free?
    ensures s.conns[c].handler.request.upload.sn != s.conns[d].handler.request.upload.sn
  {
    assert ConnOk(s.conns[c], s.hub) && ConnOk(s.conns[d], s.hub);
  }

  lemma OtherKey(env: Env, u: Upload, v: Upload)
    requires FixedHash(env) && u.sn != v.sn
    ensures KeyOf(env, u) != KeyOf(env, v)
  {
    if KeyOf(env, u) == KeyOf(env, v) {
      Server.UploadKeyInjective(env.hash, u.sn, u.payload, v.sn, v.payload);
    }
  }

  lemma InsertEffect(env: Env, s: State, c: nat)
    requires c in s.conns && s.conns[c].handler.Missed?
    ensures var s', request := Inserting(env, s, c), s.conns[c].handler.request;
            var key := KeyOf(env, request.upload);
            s'.hub.keys == Added(s.hub.keys, key, env.capacity) && s'.hub.attempts == s.hub.attempts
            && (forall x | x in s'.hub.keys :: x in s.hub.keys || x == key)
            && c in s'.conns && s'.conns == s.conns[c := s'.conns[c]]
            && s'.conns[c].sn == s.conns[c].sn && s'.conns[c].handler == Owes(request)
  {
    hide KeyOf;
  }

  lemma InsertHandlers(env: Env, s: State, c: nat)
    requires Inv(env, s) && FixedHash(env) && c in s.conns && s.conns[c].handler.Missed?
    requires HandlersOk(env, s.conns, s.hub.keys)
    ensures var s' := Inserting(env, s, c); HandlersOk(env, s'.conns, s'.hub.keys)
  {
    var s' := Inserting(env, s, c);
    var u := s.conns[c].handler.request.upload;
    InsertEffect(env, s, c);
    hide KeyOf, Inserting, Added, Inv, FixedHash;
    forall d | d in s'.conns && s'.conns[d].handler.Missed?
      ensures KeyOf(env, s'.conns[d].handler.request.upload) !in s'.hub.keys
    {
      AloneOnGateway(env, s, c, d);
      OtherKey(env, u, s.conns[d].handler.request.upload);
    }
  }

  lemma EvictCounts<K(!new)>(keys: seq<K>, key: K, capacity: nat, x: K)
    requires Distinct(keys) && key !in keys
    ensures var full := [key] + keys;
            Distinct(Added(keys, key, capacity))
            && One(x in Added(keys, key, capacity)) + One(|full| > capacity && x == full[|full| - 1])
               == One(x in keys) + One(x == key)
  {
    var full := [key] + keys;
    var last := full[|full| - 1];
    assert Distinct(full);
    assert full == full[..|full| - 1] + [last];
    assert x in full <==> x in keys || x == key;
    assert last !in full[..|full| - 1];
  }

  /** An insertion counts as one of a new key or of a present one, and may evict. */
  lemma InsertCacheCounts(env: Env, s: State, c: nat, x: Dedup.Key)
    requires c in s.conns && s.conns[c].handler.Missed? && Distinct(s.hub.keys)
    requires s.hub.inserted[x] == s.hub.evicted[x] + One(x in s.hub.keys)
    ensures var s', key := Inserting(env, s, c), KeyOf(env, s.conns[c].handler.request.upload);
            && Distinct(s'.hub.keys) && s'.hub.inserted[x] == s'.hub.evicted[x] + One(x in s'.hub.keys)
            && s'.hub.inserted + s'.hub.reinserted == s.hub.inserted + s.hub.reinserted + multiset{key}
            && (key !in s.hub.keys ==> s'.hub.reinserted == s.hub.reinserted)
  {
    var key := KeyOf(env, s.conns[c].handler.request.upload);
    if key in s.hub.keys {
      WithoutDistinct(s.hub.keys, key);
      hide KeyOf;
    } else {
      EvictCounts(s.hub.keys, key, env.capacity, x);
      hide KeyOf, Added;
    }
  }

  lemma InsertCounts(env: Env, s: State, c: nat)
    requires c in s.conns && s.conns[c].handler.Missed? && CountsOk(env, s)
    ensures CountsOk(env, Inserting(env, s, c))
  {
    var s', u := Inserting(env, s, c), s.conns[c].handler.request.upload;
    var key := KeyOf(env, u);
    InsertEffect(env, s, c);
    hide Inserting, KeyOf, Added, Owing;
    forall x
      ensures Distinct(s'.hub.keys) && s'.hub.inserted[x] == s'.hub.evicted[x] + One(x in s'.hub.keys)
      ensures s'.hub.inserted + s'.hub.reinserted == s.hub.inserted + s.hub.reinserted + multiset{key}
    {
      InsertCacheCounts(env, s, c, x);
    }
    InsertCacheCounts(env, s, c, key);
    forall v
      ensures s'.hub.attempts[v] + |Owing(s'.conns, v)| <= s'.hub.inserted[KeyOf(env, v)] + s'.hub.reinserted[KeyOf(env, v)]
    {
      OwingAfter(s.conns, s'.conns, c, v);
      SumAt(s.hub.inserted, s.hub.reinserted, s'.hub.inserted, s'.hub.reinserted, key, KeyOf(env, v));
    }
  }

  lemma SumAt<K>(a: multiset<K>, b: multiset<K>, a': multiset<K>, b': multiset<K>, key: K, x: K)
    requires a' + b' == a + b + multiset{key}
    ensures a'[x] + b'[x] == a[x] + b[x] + One(x == key)
  {
    assert (a' + b')[x] == (a + b + multiset{key})[x];
  }

  // ---- Saving ----

  lemma FinishEffect(s: State, c: nat, result: SaveResult)
    requires c in s.conns && s.conns[c].handler.Owes?
    ensures var s', u := Finishing(s, c, result), s.conns[c].handler.request.upload;
            (s'.hub.keys, s'.hub.inserted, s'.hub.evicted, s'.hub.reinserted)
            == (s.hub.keys, s.hub.inserted, s.hub.evicted, s.hub.reinserted)
            && (s'.hub.attempts == s.hub.attempts || s'.hub.attempts == s.hub.attempts + multiset{u})
            && c in s'.conns && s'.conns == s.conns[c := s'.conns[c]]
            && s'.conns[c].sn == s.conns[c].sn && s'.conns[c].handler == Free
  {
    hide DecodeUpload, SaveOf;
  }

  lemma FreedHandler(env: Env, conns: map<nat, Conn>, conns': map<nat, Conn>, c: nat, keys: seq<Dedup.Key>)
    requires HandlersOk(env, conns, keys) && c in conns && c in conns' && conns' == conns[c := conns'[c]]
    requires conns'[c].sn == conns[c].sn && conns'[c].handler == Free
    ensures HandlersOk(env, conns', keys)
  {
    hide KeyOf;
  }

  /** An attempt takes the place of the debt it settles. */
  lemma FinishCounts(env: Env, s: State, c: nat, result: SaveResult)
    requires c in s.conns && s.conns[c].handler.Owes? && CountsOk(env, s)
    ensures CountsOk(env, Finishing(s, c, result))
  {
    var s' := Finishing(s, c, result);
    FinishEffect(s, c, result);
    hide KeyOf, Finishing, Owing;
    forall v
      ensures s'.hub.attempts[v] + |Owing(s'.conns, v)| <= s.hub.attempts[v] + |Owing(s.conns, v)|
    {
      OwingAfter(s.conns, s'.conns, c, v);
    }
  }

  // ---- Over whole runs ----

  lemma CountStep(env: Env, s: State, step: Step)
    requires Enabled(env, s, step) && CountsOk(env, s)
    ensures CountsOk(env, Next(env, s, step))
  {
    hide CountsOk, Looking, Inserting, Finishing;
    match step
    case Look(c) => LookCounts(env, s, c);
    case Insert(c) => InsertCounts(env, s, c);
    case Finish(c, result) => FinishCounts(env, s, c, result);
    case _ => OtherCounts(env, s, step);
  }

  lemma StartCounts(env: Env)
    ensures CountsOk(env, START) && HandlersOk(env, START.conns, START.hub.keys)
  {
    assert forall u :: Owing(START.conns, u) == {};
  }

  lemma {:induction false} RunKeepsCounts(env: Env, states: seq<State>, steps: seq<Step>, n: nat)
    requires IsRun(env, states, steps) && n < |states|
    ensures CountsOk(env, states[n])
  {
    hide IsStep, CountsOk;
    if n > 0 {
      hide *;
      StepOf(env, states, steps, n - 1);
      RunKeepsCounts(env, states, steps, n - 1);
      CountStep(env, states[n - 1], steps[n - 1]);
    } else {
      StartCounts(env);
    }
  }

  /**
   In every run, with no hypothesis at all: one payload of one gateway is saved at most once more often
   than its key was evicted, or inserted while another handler had already inserted it.
   */
  lemma SavesBounded(env: Env, states: seq<State>, steps: seq<Step>, n: nat, u: Upload)
    requires IsRun(env, states, steps) && n < |states|
    ensures states[n].hub.attempts[u] <= 1 + states[n].hub.evicted[KeyOf(env, u)] + states[n].hub.reinserted[KeyOf(env, u)]
  {
    RunKeepsCounts(env, states, steps, n);
    hide IsRun, KeyOf;
  }

  lemma HandlerStep(env: Env, s: State, step: Step)
    requires Inv(env, s) && FixedHash(env) && Enabled(env, s, step) && Serial(s, step)
    requires HandlersOk(env, s.conns, s.hub.keys) && Distinct(s.hub.keys)
    ensures var s' := Next(env, s, step); HandlersOk(env, s'.conns, s'.hub.keys)
  {
    hide HandlersOk, Inv, Looking, Inserting, Finishing, FixedHash, Distinct;
    match step
    case Look(c) => LookHandlers(env, s, c);
    case Insert(c) => InsertHandlers(env, s, c);
    case Finish(c, result) =>
      FinishEffect(s, c, result);
      FreedHandler(env, s.conns, Finishing(s, c, result).conns, c, s.hub.keys);
    case _ =>
      OtherStepHandlers(env, s, step);
      SameHandlers(env, s.conns, Next(env, s, step).conns, s.hub.keys);
  }

  lemma ReinsertedStep(env: Env, s: State, step: Step)
    requires Enabled(env, s, step) && HandlersOk(env, s.conns, s.hub.keys)
    ensures Next(env, s, step).hub.reinserted == s.hub.reinserted
  {
    hide DecodeUpload, Hit, Added, KeyOf, BatchOf, MarkBatch, CanSend, SaveOf;
  }

  /** When each gateway's uploads are handled one at a time, a handler never inserts a key that is already there. */
  lemma {:induction false} RunKeepsHandlers(env: Env, states: seq<State>, steps: seq<Step>, n: nat)
    requires IsRun(env, states, steps) && n < |states| && FixedHash(env)
    requires forall j | 0 <= j < n :: Serial(states[j], steps[j])
    ensures HandlersOk(env, states[n].conns, states[n].hub.keys) && states[n].hub.reinserted == multiset{}
  {
    hide IsStep, HandlersOk, CountsOk;
    if n > 0 {
      RunKeepsCounts(env, states, steps, n - 1);
      KeysDistinct(env, states[n - 1]);
      hide *;
      StepOf(env, states, steps, n - 1);
      RunKeepsHandlers(env, states, steps, n - 1);
      RunKeepsInv(env, states, steps, n - 1);
      HandlerStep(env, states[n - 1], steps[n - 1]);
      ReinsertedStep(env, states[n - 1], steps[n - 1]);
    } else {
      StartCounts(env);
    }
  }

  lemma KeysDistinct(env: Env, s: State)
    requires CountsOk(env, s)
    ensures Distinct(s.hub.keys)
  {}

  /**
   When each gateway's uploads are handled one at a time, under any interleaving of connections:
   one payload of one gateway is saved at most once more often than its key was evicted.
   */
  lemma SavesBoundedByEvictions(env: Env, states: seq<State>, steps: seq<Step>, n: nat, u: Upload)
    requires IsRun(env, states, steps) && n < |states| && FixedHash(env)
    requires forall j | 0 <= j < n :: Serial(states[j], steps[j])
    ensures states[n].hub.attempts[u] <= 1 + states[n].hub.evicted[KeyOf(env, u)]
  {
    SavesBounded(env, states, steps, n, u);
    RunKeepsHandlers(env, states, steps, n);
    hide IsRun, KeyOf;
  }

  /** A payload is taken for a repetition only when the same gateway had one with the same hash accepted. */
  lemma SuppressedBySameGateway(env: Env, states: seq<State>, steps: seq<Step>, n: nat, u: Upload) returns (v: Upload)
    requires IsRun(env, states, steps) && n < |states| && FixedHash(env)
    requires KeyOf(env, u) in states[n].hub.keys
    ensures v in states[n].hub.accepted && v.sn == u.sn && env.hash(v.payload) == env.hash(u.payload)
  {
    RunKeepsInv(env, states, steps, n);
    assert KeysOk(env, states[n].hub);
    v :| v in states[n].hub.accepted && KeyOf(env, v) == KeyOf(env, u);
    Server.UploadKeyInjective(env.hash, u.sn, u.payload, v.sn, v.payload);
  }
}
