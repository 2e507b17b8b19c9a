/** NodeRegistry: routing lookups through two caches whose entries live for a fixed time. */
module NodeRegistry {
  import opened Wrappers
  import opened RedisStore
  import opened SessionRuns

  // init(): the heartbeat interval, capped at a second, with a second as default.
  function RouteCacheTtl(heartbeatIntervalMs: int): (r: int)
    ensures 1 <= r <= 1000
    ensures r <= heartbeatIntervalMs || heartbeatIntervalMs <= 0
    ensures r == heartbeatIntervalMs || r == 1000
  {
    if heartbeatIntervalMs <= 0 || heartbeatIntervalMs > 1000 then 1000 else heartbeatIntervalMs
  }

  datatype Entry<V> = Entry(value: V, expireAtMs: int)

  datatype Caches = Caches(ttl: int, routes: map<int, Entry<Session>>, metas: map<string, Entry<Meta>>)

  // A lookup also hits at the very millisecond of expiry.
  function Hit<K, V>(cache: map<K, Entry<V>>, k: K, nowMs: int): Option<V> {
    if k in cache && cache[k].expireAtMs >= nowMs then Some(cache[k].value) else None
  }

  function Expire<K, V>(cache: map<K, Entry<V>>, k: K, nowMs: int): map<K, Entry<V>> {
    if Hit(cache, k, nowMs).Some? then cache else cache - {k}
  }

  function StoreMeta(c: Caches, meta: Meta, nowMs: int): Caches {
    c.(metas := c.metas[meta.nodeId := Entry(meta, nowMs + c.ttl)])
  }

  function StoreRoute(c: Caches, user: int, s: Session, nowMs: int): Caches {
    c.(routes := c.routes[user := Entry(s, nowMs + c.ttl)])
  }

  function QueryNode(c: Caches, store: Store, nodeId: string, nowMs: int): (Caches, Option<Meta>) {
    var hit := Hit(c.metas, nodeId, nowMs);
    if hit.Some? then (c, hit)
    else match GetNode(store, nodeId, nowMs)
      case None => (c.(metas := c.metas - {nodeId}), None)
      case Some(meta) =>
        (StoreMeta(c.(metas := c.metas - {nodeId}), meta, nowMs), Some(meta))
  }

  // The session to check: cached, or read from Redis and cached.
  function FindSession(c: Caches, store: Store, user: int, nowMs: int): (Caches, Option<Session>) {
    var hit := Hit(c.routes, user, nowMs);
    if hit.Some? then (c, hit)
    else
      var missed := c.(routes := c.routes - {user});
      match SessionOf(store, user)
      case None => (missed, None)
      case Some(session) => (StoreRoute(missed, user, session, nowMs), Some(session))
  }

  predicate Current(session: Session, meta: Option<Meta>) {
    meta.Some? && session.instanceId != "" && meta.value.instanceId == session.instanceId
  }

  // A session whose instance is not the registered one is unbound.
  function QueryUserNode(c: Caches, store: Store, user: int, nowMs: int): (Caches, Store, Option<string>) {
    var (c1, found) := FindSession(c, store, user, nowMs);
    match found
    case None => (c1, store, None)
    case Some(session) =>
      var (c2, meta) := QueryNode(c1, store, session.nodeId, nowMs);
      if Current(session, meta) then (c2, store, Some(session.nodeId))
      else (c2.(routes := c2.routes - {user}), Unbind(store, user, session.nodeId, ALL), None)
  }

  function ResolveUserNode(c: Caches, store: Store, user: int, nowMs: int): (Caches, Store, Option<(string, Meta)>) {
    var route := Hit(c.routes, user, nowMs);
    var c' := c.(routes := Expire(c.routes, user, nowMs));
    var meta := if route.Some? then Hit(c.metas, route.value.nodeId, nowMs) else None;
    var c'' := if route.Some? then c'.(metas := Expire(c.metas, route.value.nodeId, nowMs)) else c';
    if route.Some? && Current(route.value, meta) then (c'', store, Some((route.value.nodeId, meta.value)))
    else
      var (c3, store', node) := QueryUserNode(c'', store, user, nowMs);
      match node
      case None => (c3, store', None)
      case Some(n) =>
        var (c4, m) := QueryNode(c3, store', n, nowMs);
        (c4, store', if m.Some? then Some((n, m.value)) else None)
  }

  // An entry that has expired is dropped, any other kept as it was.
  lemma ExpireExactly<K, V>(cache: map<K, Entry<V>>, k: K, nowMs: int)
    ensures var after := Expire(cache, k, nowMs);
            && (k in after <==> k in cache && nowMs <= cache[k].expireAtMs)
            && (forall l :: l in after ==> l in cache && after[l] == cache[l])
            && (forall l :: l in cache && l != k ==> l in after)
  {
  }

  // A query leaves a cache entry alone or replaces it by what Redis holds now, with
  // a full lifetime; a hit extends nothing.
  lemma QueriesCacheOnlyRedis(c: Caches, store: Store, user: int, nowMs: int)
    ensures var c' := QueryUserNode(c, store, user, nowMs).0;
            && (forall u :: u in c'.routes ==>
                  (u in c.routes && c'.routes[u] == c.routes[u])
                  || (SessionOf(store, u) == Some(c'.routes[u].value) && c'.routes[u].expireAtMs == nowMs + c.ttl
                      && Hit(c.routes, u, nowMs).None?))
            && (forall n :: n in c'.metas ==>
                  (n in c.metas && c'.metas[n] == c.metas[n])
                  || (exists k :: GetNode(store, k, nowMs) == Some(c'.metas[n].value)
                                  && c'.metas[n].expireAtMs == nowMs + c.ttl && Hit(c.metas, k, nowMs).None?))
  {
  }

  class NodeRegistry {
    const redis: Redis
    var self: Meta
    var timeoutMs: int
    var ttl: int
    var running: bool // the heartbeat thread exists
    var routes: map<int, Entry<Session>>
    var metas: map<string, Entry<Meta>>

    ghost function View(): Caches
      reads this
    {
      Caches(ttl, routes, metas)
    }

    constructor (redis: Redis)
      ensures this.redis == redis && View() == Caches(1000, map[], map[]) && !running
    {
      this.redis, self, timeoutMs := redis, Meta("", "", "", 0), 10000;
      ttl, running, routes, metas := 1000, false, map[], map[];
    }

    // The node's own record is cached before it is registered, even if that fails.
    method Init(self: Meta, heartbeatIntervalMs: int, heartbeatTimeoutMs: int, nowMs: int, answered: nat)
      returns (ok: bool)
      modifies this, redis
      ensures this.self == self && timeoutMs == heartbeatTimeoutMs && ttl == RouteCacheTtl(heartbeatIntervalMs)
      ensures routes == old(routes) && metas == old(metas)[self.nodeId := Entry(self, nowMs + ttl)]
      ensures redis.View() == Register(old(redis.View()), self, nowMs, RecordTtl(heartbeatTimeoutMs), answered)
      ensures ok <==> answered >= 3
      ensures running == (ok || old(running))
    {
      this.self, timeoutMs := self, heartbeatTimeoutMs;
      if heartbeatIntervalMs <= 0 {
        ttl := 1000;
      } else if heartbeatIntervalMs > 1000 {
        ttl := 1000;
      } else {
        ttl := heartbeatIntervalMs;
      }
      metas := metas[self.nodeId := Entry(self, nowMs + ttl)];
      ok := redis.RegisterNode(self, nowMs, RecordTtl(heartbeatTimeoutMs), answered);
      if ok {
        running := true;
      }
    }

    // One turn of the heartbeat thread; a failed registration goes unnoticed.
    method Heartbeat(nowMs: int, answered: nat)
      modifies this, redis
      ensures !old(running) ==> View() == old(View()) && redis.View() == old(redis.View())
      ensures old(running) ==>
                && View() == old(View()).(metas := old(metas)[self.nodeId := Entry(self, nowMs + ttl)])
                && redis.View() == Register(old(redis.View()), self, nowMs, RecordTtl(timeoutMs), answered)
      ensures self == old(self) && timeoutMs == old(timeoutMs) && running == old(running)
    {
      if !running {
        return;
      }
      metas := metas[self.nodeId := Entry(self, nowMs + ttl)];
      var _ := redis.RegisterNode(self, nowMs, RecordTtl(timeoutMs), answered);
    }

    method GetCachedRoute(user: int, nowMs: int) returns (hit: Option<Session>)
      modifies this`routes, this`metas
      ensures hit == Hit(old(routes), user, nowMs)
      ensures View() == old(View()).(routes := Expire(old(routes), user, nowMs))
    {
      hit := None;
      if user !in routes {
        return;
      }
      if routes[user].expireAtMs < nowMs {
        routes := routes - {user};
        return;
      }
      hit := Some(routes[user].value);
    }

    method GetCachedNode(nodeId: string, nowMs: int) returns (hit: Option<Meta>)
      modifies this`routes, this`metas
      ensures hit == Hit(old(metas), nodeId, nowMs)
      ensures View() == old(View()).(metas := Expire(old(metas), nodeId, nowMs))
    {
      hit := None;
      if nodeId !in metas {
        return;
      }
      if metas[nodeId].expireAtMs < nowMs {
        metas := metas - {nodeId};
        return;
      }
      hit := Some(metas[nodeId].value);
    }

    method BindUser(user: int, answered: nat, nowMs: int) returns (ok: bool)
      modifies this`routes, this`metas, redis
      ensures ok <==> user !in old(redis.sessions) && answered >= 2
      ensures redis.View() == Bind(old(redis.View()), user, Session(self.nodeId, self.instanceId), answered)
      ensures View() == if ok then StoreRoute(old(View()), user, Session(self.nodeId, self.instanceId), nowMs)
                        else old(View())
    {
      ok := redis.BindUserNode(user, Session(self.nodeId, self.instanceId), answered);
      if ok {
        routes := routes[user := Entry(Session(self.nodeId, self.instanceId), nowMs + ttl)];
      }
    }

    method UnbindUser(user: int, answered: nat) returns (ok: bool)
      modifies this`routes, this`metas, redis
      ensures View() == old(View()).(routes := old(routes) - {user})
      ensures redis.View() == Unbind(old(redis.View()), user, self.nodeId, answered)
    {
      routes := routes - {user};
      ok := redis.UnbindUserNode(user, self.nodeId, answered);
    }

    method QueryNodeMeta(nodeId: string, nowMs: int) returns (meta: Option<Meta>)
      modifies this`routes, this`metas
      ensures (View(), meta) == QueryNode(old(View()), redis.View(), nodeId, nowMs)
    {
      meta := GetCachedNode(nodeId, nowMs);
      if meta.Some? {
        return;
      }
      assert old(metas) - {nodeId} - {nodeId} == old(metas) - {nodeId};
      meta := redis.GetNodeRecord(nodeId, nowMs);
      if meta.Some? {
        metas := metas[meta.value.nodeId := Entry(meta.value, nowMs + ttl)];
      } else {
        metas := metas - {nodeId};
      }
    }

    method QueryUser(user: int, nowMs: int) returns (node: Option<string>)
      modifies this`routes, this`metas, redis
      ensures (View(), redis.View(), node) == QueryUserNode(old(View()), old(redis.View()), user, nowMs)
    {
      var session := GetCachedRoute(user, nowMs);
      if session.None? {
        session := redis.GetUserSession(user);
        if session.None? {
          return None;
        }
        routes := routes[user := Entry(session.value, nowMs + ttl)];
      }
      var meta := QueryNodeMeta(session.value.nodeId, nowMs);
      if meta.Some? && session.value.instanceId != "" && meta.value.instanceId == session.value.instanceId {
        return Some(session.value.nodeId);
      }
      var _ := redis.UnbindUserNode(user, session.value.nodeId, ALL);
      routes := routes - {user};
      node := None;
    }

    method Resolve(user: int, nowMs: int) returns (found: Option<(string, Meta)>)
      modifies this`routes, this`metas, redis
      ensures (View(), redis.View(), found) == ResolveUserNode(old(View()), old(redis.View()), user, nowMs)
    {
      var route := GetCachedRoute(user, nowMs);
      if route.Some? {
        var meta := GetCachedNode(route.value.nodeId, nowMs);
        if meta.Some? && route.value.instanceId != "" && meta.value.instanceId == route.value.instanceId {
          return Some((route.value.nodeId, meta.value));
        }
      }
      var node := QueryUser(user, nowMs);
      if node.None? {
        return None;
      }
      var meta := QueryNodeMeta(node.value, nowMs);
      found := if meta.Some? then Some((node.value, meta.value)) else None;
    }

    // The members of the node's user set come back in no particular order.
    method CleanupSelf()
      modifies this`routes, this`metas, redis
      ensures redis.View() == CleanedUp(old(redis.View()), self.nodeId)
      ensures View() == Caches(ttl, map[], map[])
    {
      var n := self.nodeId;
      var users := redis.GetNodeUsers(n);
      UnbindAll(redis, users, n);
      var _ := redis.UnregisterNode(n, ALL);
      routes, metas := map[], map[];
    }
  }

  method AnyOf<T(==)>(s: set<T>) returns (x: T)
    requires s != {}
    ensures x in s
  {
    x :| x in s;
  }

  method UnbindAll(redis: Redis, users: set<int>, nodeId: string)
    modifies redis
    ensures redis.sessions == old(redis.sessions) - users
    ensures redis.users - {nodeId} == old(redis.users) - {nodeId}
    ensures redis.nodes == old(redis.nodes) && redis.nodeIds == old(redis.nodeIds)
  {
    var todo := users;
    while todo != {}
      invariant todo <= users
      invariant redis.sessions == old(redis.sessions) - (users - todo)
      invariant redis.users - {nodeId} == old(redis.users) - {nodeId}
      invariant redis.nodes == old(redis.nodes) && redis.nodeIds == old(redis.nodeIds)
    {
      var u := AnyOf(todo);
      var _ := redis.UnbindUserNode(u, nodeId, ALL);
      todo := todo - {u};
    }
  }

  // The lifetime of a node record: seconds by integer division, and two more.
  function RecordTtl(heartbeatTimeoutMs: int): int {
    1000 * (TruncDiv(heartbeatTimeoutMs, 1000) + 2)
  }

  // The record outlives the heartbeat timeout by more than one second and at most two,
  // in whole seconds; for a negative timeout it is cut upwards, towards zero.
  lemma RecordTtlExactly(heartbeatTimeoutMs: int)
    ensures var ttl := RecordTtl(heartbeatTimeoutMs);
            && ttl % 1000 == 0
            && (heartbeatTimeoutMs >= 0 ==> heartbeatTimeoutMs + 1000 < ttl <= heartbeatTimeoutMs + 2000)
            && (heartbeatTimeoutMs < 0 ==> heartbeatTimeoutMs + 2000 <= ttl < heartbeatTimeoutMs + 3000)
  {
  }

  // C++ division of ints.
  function TruncDiv(a: int, b: int): int
    requires b > 0
  {
    if a >= 0 then a / b else -((-a) / b)
  }
}
