/**
 Any number of nodes looking up routes through their caches while Redis changes
 under them. The clock only moves forward. Every Redis read, cache write and
 cache erase of every thread is one step; a value that a thread has read but not
 cached yet is in its hand, for at most stall milliseconds.
 */
module RegistryRuns {
  import opened Wrappers
  import opened RedisStore
  import opened NodeRegistry

  datatype InHand<V> = InHand(value: V, readAtMs: int)

  // One process: its caches, and what its threads have read and not yet cached.
  datatype Proc = Proc(selfId: string, caches: Caches, metas: seq<InHand<Meta>>, routes: seq<InHand<(int, Session)>>)

  datatype World = World(nowMs: int, store: Store, procs: seq<Proc>)

  datatype Step =
    | Tick(ms: nat)
    | RedisChange(store: Store)                // any command of any client
    | ReadMeta(p: nat, nodeId: string)         // getNode answered
    | CacheMeta(p: nat, i: nat)                // cacheNode with the answer
    | CacheSelf(p: nat, meta: Meta)            // cacheNode in init and in the heartbeat
    | DropMeta(p: nat, nodeId: string)
    | ReadRoute(p: nat, user: int)             // getUserSession answered, or a bind wrote the session
    | CacheRoute(p: nat, i: nat)
    | DropRoute(p: nat, user: int)

  predicate Enabled(w: World, stall: nat, step: Step) {
    match step
    case Tick(_) => true
    case RedisChange(_) => true
    case ReadMeta(p, n) => p < |w.procs| && GetNode(w.store, n, w.nowMs).Some?
    case CacheMeta(p, i) =>
      p < |w.procs| && i < |w.procs[p].metas| && w.nowMs <= w.procs[p].metas[i].readAtMs + stall
    case CacheSelf(p, meta) => p < |w.procs| && meta.nodeId == w.procs[p].selfId
    case DropMeta(p, _) => p < |w.procs|
    case ReadRoute(p, u) => p < |w.procs| && SessionOf(w.store, u).Some?
    case CacheRoute(p, i) =>
      p < |w.procs| && i < |w.procs[p].routes| && w.nowMs <= w.procs[p].routes[i].readAtMs + stall
    case DropRoute(p, _) => p < |w.procs|
  }

  function ProcAfter(w: World, proc: Proc, step: Step): Proc
    requires step.ReadMeta? ==> GetNode(w.store, step.nodeId, w.nowMs).Some?
    requires step.ReadRoute? ==> SessionOf(w.store, step.user).Some?
    requires step.CacheMeta? ==> step.i < |proc.metas|
    requires step.CacheRoute? ==> step.i < |proc.routes|
  {
    match step
    case ReadMeta(_, n) => proc.(metas := proc.metas + [InHand(GetNode(w.store, n, w.nowMs).value, w.nowMs)])
    case CacheMeta(_, i) => proc.(caches := StoreMeta(proc.caches, proc.metas[i].value, w.nowMs))
    case CacheSelf(_, meta) => proc.(caches := StoreMeta(proc.caches, meta, w.nowMs))
    case DropMeta(_, n) => proc.(caches := proc.caches.(metas := proc.caches.metas - {n}))
    case ReadRoute(_, u) => proc.(routes := proc.routes + [InHand((u, SessionOf(w.store, u).value), w.nowMs)])
    case CacheRoute(_, i) =>
      var (u, s) := proc.routes[i].value;
      proc.(caches := StoreRoute(proc.caches, u, s, w.nowMs))
    case DropRoute(_, u) => proc.(caches := proc.caches.(routes := proc.caches.routes - {u}))
    case _ => proc
  }

  function Apply(w: World, stall: nat, step: Step): World
    requires Enabled(w, stall, step)
  {
    match step
    case Tick(ms) => w.(nowMs := w.nowMs + ms)
    case RedisChange(store) => w.(store := store)
    case _ => w.(procs := w.procs[step.p := ProcAfter(w, w.procs[step.p], step)])
  }

  // ----- a property that Redis has stopped having -----

  // bad is a property of node records that none in Redis has at this moment.
  ghost predicate NoBadRecord(store: Store, bad: Meta -> bool) {
    forall n :: n in store.nodes ==> !bad(store.nodes[n].meta)
  }

  ghost predicate NoBadSession(store: Store, user: int, bad: Session -> bool) {
    SessionOf(store, user).Some? ==> !bad(SessionOf(store, user).value)
  }

  predicate IsRun(w: World, stall: nat, steps: seq<Step>)
    decreases |steps|
  {
    steps == [] || (Enabled(w, stall, steps[0]) && IsRun(Apply(w, stall, steps[0]), stall, steps[1..]))
  }

  function After(w: World, stall: nat, steps: seq<Step>): World
    requires IsRun(w, stall, steps)
    decreases |steps|
  {
    if steps == [] then w else After(Apply(w, stall, steps[0]), stall, steps[1..])
  }

  // A run during which Redis never has a bad record, nor a bad session for the user.
  ghost predicate CleanRun(w: World, stall: nat, steps: seq<Step>, bad: Meta -> bool, user: int,
                           badSession: Session -> bool)
    decreases |steps|
  {
    && IsRun(w, stall, steps)
    && NoBadRecord(w.store, bad) && NoBadSession(w.store, user, badSession)
    && (steps != [] ==> CleanRun(Apply(w, stall, steps[0]), stall, steps[1..], bad, user, badSession))
  }

  // No entry outlives the moment by more than its lifetime, nothing in hand was read in the future.
  predicate Timely(w: World) {
    forall p :: 0 <= p < |w.procs| ==> TimelyProc(w.procs[p], w.nowMs)
  }

  predicate TimelyProc(proc: Proc, nowMs: int) {
    && proc.caches.ttl >= 0
    && (forall n :: n in proc.caches.metas ==> proc.caches.metas[n].expireAtMs <= nowMs + proc.caches.ttl)
    && (forall u :: u in proc.caches.routes ==> proc.caches.routes[u].expireAtMs <= nowMs + proc.caches.ttl)
    && (forall i :: 0 <= i < |proc.metas| ==> proc.metas[i].readAtMs <= nowMs)
    && (forall i :: 0 <= i < |proc.routes| ==> proc.routes[i].readAtMs <= nowMs)
  }

  // Whatever bad is still around was read before since.
  ghost predicate Bounded(proc: Proc, since: int, stall: nat, bad: Meta -> bool, user: int,
                          badSession: Session -> bool) {
    var c := proc.caches;
    && (forall n :: n in c.metas && n != proc.selfId && bad(c.metas[n].value) ==>
          c.metas[n].expireAtMs <= since + stall + c.ttl)
    && (user in c.routes && badSession(c.routes[user].value) ==> c.routes[user].expireAtMs <= since + stall + c.ttl)
    && (forall i :: 0 <= i < |proc.metas| && bad(proc.metas[i].value) ==> proc.metas[i].readAtMs <= since)
    && (forall i :: 0 <= i < |proc.routes| && proc.routes[i].value.0 == user && badSession(proc.routes[i].value.1) ==>
          proc.routes[i].readAtMs <= since)
  }

  lemma TimelyKept(w: World, stall: nat, step: Step)
    requires Timely(w) && Enabled(w, stall, step)
    ensures Timely(Apply(w, stall, step))
  {
    var w' := Apply(w, stall, step);
    forall p | 0 <= p < |w.procs| ensures TimelyProc(w'.procs[p], w'.nowMs) {
      assert TimelyProc(w.procs[p], w.nowMs);
    }
  }

  lemma BoundedKept(w: World, since: int, stall: nat, step: Step, p: nat, bad: Meta -> bool, user: int,
                    badSession: Session -> bool)
    requires Enabled(w, stall, step) && p < |w.procs|
    requires NoBadRecord(w.store, bad) && NoBadSession(w.store, user, badSession)
    requires Bounded(w.procs[p], since, stall, bad, user, badSession)
    ensures Bounded(Apply(w, stall, step).procs[p], since, stall, bad, user, badSession)
  {
  }

  // Bounded staleness. From a moment since on, Redis has no bad record and no bad
  // session of the user. Once more than the cache lifetime and the stall have
  // passed, no lookup in any cache of any node hits a bad value, except a node's
  // lookup of its own record.
  lemma {:induction false} BoundedStaleness(w: World, since: int, stall: nat, steps: seq<Step>, bad: Meta -> bool,
                                            user: int, badSession: Session -> bool, p: nat)
    requires Timely(w) && p < |w.procs|
    requires CleanRun(w, stall, steps, bad, user, badSession)
    requires Bounded(w.procs[p], since, stall, bad, user, badSession)
    ensures var t := After(w, stall, steps);
            && p < |t.procs| && t.procs[p].selfId == w.procs[p].selfId && t.procs[p].caches.ttl == w.procs[p].caches.ttl
            && Bounded(t.procs[p], since, stall, bad, user, badSession)
            && Timely(t) && NoBadRecord(t.store, bad) && NoBadSession(t.store, user, badSession)
    decreases |steps|
  {
    if steps != [] {
      TimelyKept(w, stall, steps[0]);
      BoundedKept(w, since, stall, steps[0], p, bad, user, badSession);
      BoundedStaleness(Apply(w, stall, steps[0]), since, stall, steps[1..], bad, user, badSession, p);
    }
  }

  lemma StartsBounded(w: World, stall: nat, p: nat, bad: Meta -> bool, user: int, badSession: Session -> bool)
    requires Timely(w) && p < |w.procs|
    ensures Bounded(w.procs[p], w.nowMs, stall, bad, user, badSession)
  {
  }

  lemma NoStaleHit(w: World, stall: nat, steps: seq<Step>, bad: Meta -> bool, user: int, badSession: Session -> bool,
                   p: nat, nodeId: string)
    requires Timely(w) && p < |w.procs|
    requires CleanRun(w, stall, steps, bad, user, badSession)
    requires After(w, stall, steps).nowMs > w.nowMs + w.procs[p].caches.ttl + stall
    ensures var t := After(w, stall, steps);
            && p < |t.procs|
            && NoBadRecord(t.store, bad)
            && var c := t.procs[p].caches;
            && (var hit := Hit(c.routes, user, t.nowMs); hit.Some? ==> !badSession(hit.value))
            && (nodeId != w.procs[p].selfId ==> var hit := Hit(c.metas, nodeId, t.nowMs); hit.Some? ==> !bad(hit.value))
  {
    StartsBounded(w, stall, p, bad, user, badSession);
    BoundedStaleness(w, w.nowMs, stall, steps, bad, user, badSession, p);
  }

  // Neither the lifetime nor the stall can be left out of the bound: a record that was
  // in hand when it vanished is still hit when both have passed in full.
  lemma BoundIsTight(meta: Meta, ttl: nat, stall: nat, self: string, user: int) returns (w: World, steps: seq<Step>)
    requires meta.nodeId != self
    ensures Timely(w) && |w.procs| == 1 && w.procs[0].selfId == self && w.procs[0].caches.ttl == ttl
    ensures CleanRun(w, stall, steps, m => m == meta, user, _ => false)
    ensures var t := After(w, stall, steps);
            && t.nowMs == w.nowMs + ttl + stall && |t.procs| == 1
            && Hit(t.procs[0].caches.metas, meta.nodeId, t.nowMs) == Some(meta)
  {
    w := World(0, EMPTY, [Proc(self, Caches(ttl, map[], map[]), [InHand(meta, 0)], [])]);
    steps := [Tick(stall), CacheMeta(0, 0), Tick(ttl)];
    var bad := (m: Meta) => m == meta;
    var w1 := Apply(w, stall, steps[0]);
    var w2 := Apply(w1, stall, steps[1]);
    var w3 := Apply(w2, stall, steps[2]);
    assert steps[1..] == [steps[1], steps[2]] && steps[1..][1..] == [steps[2]] && [steps[2]][1..] == [];
    assert CleanRun(w3, stall, [], bad, user, _ => false);
    assert CleanRun(w2, stall, [steps[2]], bad, user, _ => false);
    assert CleanRun(w1, stall, [steps[1], steps[2]], bad, user, _ => false);
    assert After(w2, stall, [steps[2]]) == w3;
  }

  // ----- a node that came back as another instance -----

  // Since the start of the run Redis has no record of the old instance. After a
  // cache lifetime and the stall, every other node's query, or full lookup, of a
  // user whose session names the old instance answers no, whether session and record come from the
  // caches or from Redis.
  lemma RestartIsNoticed(w: World, stall: nat, steps: seq<Step>, p: nat, nodeId: string, oldInstance: string, user: int)
    requires Timely(w) && p < |w.procs| && w.procs[p].selfId != nodeId
    requires CleanRun(w, stall, steps, OfInstance(oldInstance), user, _ => false)
    requires After(w, stall, steps).nowMs
             > w.nowMs + w.procs[p].caches.ttl + stall
    ensures var t := After(w, stall, steps);
            && p < |t.procs|
            && var c := t.procs[p].caches;
            FindSession(c, t.store, user, t.nowMs).1 == Some(Session(nodeId, oldInstance)) ==>
              QueryUserNode(c, t.store, user, t.nowMs).2 == None && ResolveUserNode(c, t.store, user, t.nowMs).2 == None
  {
    var bad := OfInstance(oldInstance);
    NoStaleHit(w, stall, steps, bad, user, _ => false, p, nodeId);
    var t := After(w, stall, steps);
    if FindSession(t.procs[p].caches, t.store, user, t.nowMs).1 == Some(Session(nodeId, oldInstance)) {
      OldInstanceRejected(t.procs[p].caches, t.store, user, t.nowMs, Session(nodeId, oldInstance));
    }
  }

  // A session whose instance is neither the cached nor the stored one of its node is not routed to.
  lemma OldInstanceRejected(c: Caches, store: Store, user: int, nowMs: int, session: Session)
    requires FindSession(c, store, user, nowMs).1 == Some(session)
    requires var hit := Hit(c.metas, session.nodeId, nowMs); hit.Some? ==> hit.value.instanceId != session.instanceId
    requires var meta := GetNode(store, session.nodeId, nowMs); meta.Some? ==>
             meta.value.instanceId != session.instanceId
    ensures QueryUserNode(c, store, user, nowMs).2 == None && ResolveUserNode(c, store, user, nowMs).2 == None
  {
  }

  function OfInstance(instanceId: string): Meta -> bool {
    (m: Meta) => m.instanceId == instanceId
  }
}
