/**
 The lookups and binds of NodeRegistry are runs of the steps whose staleness is
 bounded: they read Redis, cache what they read, and drop entries, nothing else.
 */
module LookupSteps {
  import opened Wrappers
  import opened RedisStore
  import opened NodeRegistry
  import opened RegistryRuns
  import opened LookupMeaning

  lemma {:induction false} RunAppend(w: World, stall: nat, a: seq<Step>, b: seq<Step>)
    requires IsRun(w, stall, a) && IsRun(After(w, stall, a), stall, b)
    ensures IsRun(w, stall, a + b) && After(w, stall, a + b) == After(After(w, stall, a), stall, b)
    decreases |a|
  {
    if a == [] {
      assert a + b == b;
    } else {
      assert (a + b)[1..] == a[1..] + b;
      RunAppend(Apply(w, stall, a[0]), stall, a[1..], b);
    }
  }

  // The steps of process p leave it with the given caches and Redis with the given
  // store, at the same moment and without touching another process.
  ghost predicate Leads(w: World, stall: nat, steps: seq<Step>, p: nat, c: Caches, store: Store) {
    && IsRun(w, stall, steps)
    && var t := After(w, stall, steps);
    && p < |w.procs| == |t.procs|
    && t.nowMs == w.nowMs && t.store == store
    && t.procs[p].caches == c && t.procs[p].selfId == w.procs[p].selfId
    && forall q :: 0 <= q < |w.procs| && q != p ==> t.procs[q] == w.procs[q]
  }

  lemma LeadsOn(w: World, stall: nat, a: seq<Step>, p: nat, c: Caches, store: Store, b: seq<Step>, c': Caches,
                store': Store)
    requires Leads(w, stall, a, p, c, store)
    requires Leads(After(w, stall, a), stall, b, p, c', store')
    ensures Leads(w, stall, a + b, p, c', store')
  {
    RunAppend(w, stall, a, b);
  }

  lemma Drops(w: World, stall: nat, p: nat, user: int, nodeId: string)
    requires p < |w.procs|
    ensures var c := w.procs[p].caches;
            && Leads(w, stall, [], p, c, w.store)
            && Leads(w, stall, [DropMeta(p, nodeId)], p, c.(metas := c.metas - {nodeId}), w.store)
            && Leads(w, stall, [DropRoute(p, user)], p, c.(routes := c.routes - {user}), w.store)
  {
  }

  lemma Changes(w: World, stall: nat, p: nat, store: Store)
    requires p < |w.procs|
    ensures Leads(w, stall, [RedisChange(store)], p, w.procs[p].caches, store)
  {
  }

  lemma TwoSteps(w: World, stall: nat, a: Step, b: Step)
    requires Enabled(w, stall, a) && Enabled(Apply(w, stall, a), stall, b)
    ensures IsRun(w, stall, [a, b]) && After(w, stall, [a, b]) == Apply(Apply(w, stall, a), stall, b)
  {
    assert [a, b][1..] == [b];
    OneStep(Apply(w, stall, a), stall, b);
  }

  lemma OneStep(w: World, stall: nat, a: Step)
    requires Enabled(w, stall, a)
    ensures IsRun(w, stall, [a]) && After(w, stall, [a]) == Apply(w, stall, a)
  {
  }

  lemma FetchMeta(w: World, stall: nat, p: nat, nodeId: string) returns (steps: seq<Step>)
    requires p < |w.procs| && GetNode(w.store, nodeId, w.nowMs).Some?
    ensures Leads(w, stall, steps, p, StoreMeta(w.procs[p].caches, GetNode(w.store, nodeId, w.nowMs).value, w.nowMs),
            w.store)
  {
    var cache := CacheMeta(p, |w.procs[p].metas|);
    steps := [ReadMeta(p, nodeId), cache];
    TwoSteps(w, stall, ReadMeta(p, nodeId), cache);
  }

  lemma FetchRoute(w: World, stall: nat, p: nat, user: int) returns (steps: seq<Step>)
    requires p < |w.procs| && SessionOf(w.store, user).Some?
    ensures Leads(w, stall, steps, p, StoreRoute(w.procs[p].caches, user, SessionOf(w.store, user).value, w.nowMs),
            w.store)
  {
    var cache := CacheRoute(p, |w.procs[p].routes|);
    steps := [ReadRoute(p, user), cache];
    TwoSteps(w, stall, ReadRoute(p, user), cache);
  }

  lemma QueryNodeRun(w: World, stall: nat, p: nat, nodeId: string) returns (steps: seq<Step>)
    requires p < |w.procs|
    ensures Leads(w, stall, steps, p, QueryNode(w.procs[p].caches, w.store, nodeId, w.nowMs).0, w.store)
  {
    var c := w.procs[p].caches;
    Drops(w, stall, p, 0, nodeId);
    if Hit(c.metas, nodeId, w.nowMs).Some? {
      steps := [];
    } else {
      steps := [DropMeta(p, nodeId)];
      if GetNode(w.store, nodeId, w.nowMs).Some? {
        var fetch := FetchMeta(After(w, stall, steps), stall, p, nodeId);
        LeadsOn(w, stall, steps, p, c.(metas := c.metas - {nodeId}), w.store, fetch,
                QueryNode(c, w.store, nodeId, w.nowMs).0, w.store);
        steps := steps + fetch;
      }
    }
  }

  lemma FindSessionRun(w: World, stall: nat, p: nat, user: int) returns (steps: seq<Step>)
    requires p < |w.procs|
    ensures Leads(w, stall, steps, p, FindSession(w.procs[p].caches, w.store, user, w.nowMs).0, w.store)
  {
    var c := w.procs[p].caches;
    Drops(w, stall, p, user, "");
    if Hit(c.routes, user, w.nowMs).Some? {
      steps := [];
    } else {
      steps := [DropRoute(p, user)];
      if SessionOf(w.store, user).Some? {
        var fetch := FetchRoute(After(w, stall, steps), stall, p, user);
        LeadsOn(w, stall, steps, p, c.(routes := c.routes - {user}), w.store, fetch,
                FindSession(c, w.store, user, w.nowMs).0, w.store);
        steps := steps + fetch;
      }
    }
  }

  // queryUserNode.
  lemma QueryUserRun(w: World, stall: nat, p: nat, user: int) returns (steps: seq<Step>)
    requires p < |w.procs|
    ensures var (c, store, _) := QueryUserNode(w.procs[p].caches, w.store, user, w.nowMs);
            Leads(w, stall, steps, p, c, store)
  {
    var (c1, found) := FindSession(w.procs[p].caches, w.store, user, w.nowMs);
    steps := FindSessionRun(w, stall, p, user);
    if found.Some? {
      var n := found.value.nodeId;
      var (c2, meta) := QueryNode(c1, w.store, n, w.nowMs);
      var more := QueryNodeRun(After(w, stall, steps), stall, p, n);
      LeadsOn(w, stall, steps, p, c1, w.store, more, c2, w.store);
      steps := steps + more;
      if !Current(found.value, meta) {
        var t := After(w, stall, steps);
        var unbound := Unbind(w.store, user, n, ALL);
        Changes(t, stall, p, unbound);
        LeadsOn(w, stall, steps, p, c2, w.store, [RedisChange(unbound)], c2, unbound);
        steps := steps + [RedisChange(unbound)];
        Drops(After(w, stall, steps), stall, p, user, "");
        LeadsOn(w, stall, steps, p, c2, unbound, [DropRoute(p, user)], c2.(routes := c2.routes - {user}), unbound);
        steps := steps + [DropRoute(p, user)];
      }
    }
  }

  lemma ExpireRun(w: World, stall: nat, p: nat, user: int) returns (steps: seq<Step>)
    requires p < |w.procs|
    ensures Leads(w, stall, steps, p, Looked(w.procs[p].caches, user, w.nowMs), w.store)
  {
    var c := w.procs[p].caches;
    var route := Hit(c.routes, user, w.nowMs);
    var nodeId := if route.Some? then route.value.nodeId else "";
    Drops(w, stall, p, user, nodeId);
    if route.None? {
      steps := [DropRoute(p, user)];
    } else if Hit(c.metas, nodeId, w.nowMs).None? {
      steps := [DropMeta(p, nodeId)];
    } else {
      steps := [];
    }
  }

  // resolveUserNode.
  lemma ResolveRun(w: World, stall: nat, p: nat, user: int) returns (steps: seq<Step>)
    requires p < |w.procs|
    ensures var (c, store, _) := ResolveUserNode(w.procs[p].caches, w.store, user, w.nowMs);
            Leads(w, stall, steps, p, c, store)
  {
    var c0 := w.procs[p].caches;
    var route := Hit(c0.routes, user, w.nowMs);
    var c := Looked(c0, user, w.nowMs);
    steps := ExpireRun(w, stall, p, user);
    if route.Some? && Current(route.value, Hit(c0.metas, route.value.nodeId, w.nowMs)) {
      return;
    }
    var (c3, store', node) := QueryUserNode(c, w.store, user, w.nowMs);
    var more := QueryUserRun(After(w, stall, steps), stall, p, user);
    LeadsOn(w, stall, steps, p, c, w.store, more, c3, store');
    steps := steps + more;
    if node.Some? {
      var last := QueryNodeRun(After(w, stall, steps), stall, p, node.value);
      LeadsOn(w, stall, steps, p, c3, store', last, QueryNode(c3, store', node.value, w.nowMs).0, store');
      steps := steps + last;
    }
  }

  // bindUser, when Redis takes the bind: what it caches is what Redis now holds.
  lemma BindRun(w: World, stall: nat, p: nat, user: int, session: Session) returns (steps: seq<Step>)
    requires p < |w.procs| && user !in w.store.sessions && Plain(session)
    ensures Leads(w, stall, steps, p, StoreRoute(w.procs[p].caches, user, session, w.nowMs),
            Bind(w.store, user, session, ALL))
  {
    var c, store := w.procs[p].caches, Bind(w.store, user, session, ALL);
    SessionRoundTrip(session);
    Changes(w, stall, p, store);
    var fetch := FetchRoute(After(w, stall, [RedisChange(store)]), stall, p, user);
    LeadsOn(w, stall, [RedisChange(store)], p, c, store, fetch, StoreRoute(c, user, session, w.nowMs), store);
    steps := [RedisChange(store)] + fetch;
  }
}
