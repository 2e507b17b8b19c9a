/**
 What the registry answers: told by the unexpired cache entries and Redis alone.
 */
module LookupMeaning {
  import opened Wrappers
  import opened RedisStore
  import opened NodeRegistry

  // The session of a user that a lookup sees: an unexpired cache entry, else Redis.
  function SessionSeen(c: Caches, store: Store, user: int, nowMs: int): Option<Session> {
    if user in c.routes && nowMs <= c.routes[user].expireAtMs then Some(c.routes[user].value)
    else SessionOf(store, user)
  }

  function RecordSeen(c: Caches, store: Store, nodeId: string, nowMs: int): Option<Meta> {
    if nodeId in c.metas && nowMs <= c.metas[nodeId].expireAtMs then Some(c.metas[nodeId].value)
    else GetNode(store, nodeId, nowMs)
  }

  // A session is seen, it has an instance, and the record seen of its node has that instance.
  predicate Routable(c: Caches, store: Store, user: int, nowMs: int) {
    var session := SessionSeen(c, store, user, nowMs);
    session.Some? && session.value.instanceId != "" &&
    var meta := RecordSeen(c, store, session.value.nodeId, nowMs);
    meta.Some? && meta.value.instanceId == session.value.instanceId
  }

  // queryUserNode names the node of the session exactly when that is routable. A
  // session that is seen and not routable is deleted, and its cached route with it;
  // otherwise Redis is left alone.
  lemma QueryExactly(c: Caches, store: Store, user: int, nowMs: int)
    ensures var (c', store', node) := QueryUserNode(c, store, user, nowMs);
            var session := SessionSeen(c, store, user, nowMs);
            && (node.Some? <==> Routable(c, store, user, nowMs))
            && (node.Some? ==> node.value == session.value.nodeId)
            && (node.Some? || session.None? ==> store' == store)
            && (node.None? ==> user !in c'.routes)
            && (node.None? && session.Some? ==> user !in store'.sessions)
            && (forall u :: u in store.sessions && u != user ==>
                  u in store'.sessions && store'.sessions[u] == store.sessions[u])
            && (forall u, n :: u in UsersAt(store', n) <==>
                  u in UsersAt(store, n)
                  && !(node.None? && session.Some? && u == user && n == session.value.nodeId && n != ""))
            && store'.nodes == store.nodes && store'.nodeIds == store.nodeIds
  {
  }

  // queryNode answers with the record seen; without one it forgets what it had cached.
  lemma QueryNodeExactly(c: Caches, store: Store, nodeId: string, nowMs: int)
    ensures var (c', meta) := QueryNode(c, store, nodeId, nowMs);
            && meta == RecordSeen(c, store, nodeId, nowMs)
            && (meta.None? ==> nodeId !in c'.metas)
            && c'.routes == c.routes && c'.ttl == c.ttl
  {
  }

  // resolveUserNode answers with that node and the record seen of it exactly when the
  // session is routable, on its fast path and on its slow one.
  lemma ResolveExactly(c: Caches, store: Store, user: int, nowMs: int)
    ensures var answer := ResolveUserNode(c, store, user, nowMs).2;
            var session := SessionSeen(c, store, user, nowMs);
            && (answer.Some? <==> Routable(c, store, user, nowMs))
            && (answer.Some? ==>
                  answer.value.0 == session.value.nodeId
                  && RecordSeen(c, store, session.value.nodeId, nowMs) == Some(answer.value.1)
                  && answer.value.1.instanceId == session.value.instanceId != "")
  {
    var route := Hit(c.routes, user, nowMs);
    if !(route.Some? && Current(route.value, Hit(c.metas, route.value.nodeId, nowMs))) {
      var c2 := Looked(c, user, nowMs);
      LookedSeesTheSame(c, store, user, nowMs);
      QueryExactly(c2, store, user, nowMs);
      if Routable(c, store, user, nowMs) {
        SeenAfterQuery(c2, store, user, nowMs);
      }
    }
  }

  // The caches after the fast path has dropped what has expired.
  function Looked(c: Caches, user: int, nowMs: int): Caches {
    var route := Hit(c.routes, user, nowMs);
    c.(routes := Expire(c.routes, user, nowMs),
       metas := if route.Some? then Expire(c.metas, route.value.nodeId, nowMs) else c.metas)
  }

  lemma LookedSeesTheSame(c: Caches, store: Store, user: int, nowMs: int)
    ensures var c2 := Looked(c, user, nowMs);
            && SessionSeen(c2, store, user, nowMs) == SessionSeen(c, store, user, nowMs)
            && (forall n :: RecordSeen(c2, store, n, nowMs) == RecordSeen(c, store, n, nowMs))
  {
  }

  lemma SeenAfterQuery(c: Caches, store: Store, user: int, nowMs: int)
    requires Routable(c, store, user, nowMs)
    ensures var (c', store', node) := QueryUserNode(c, store, user, nowMs);
            && node.Some? && store' == store
            && RecordSeen(c', store, node.value, nowMs) == RecordSeen(c, store, node.value, nowMs)
  {
  }

  // What a positive answer has cached is hit again until it expires: an old entry at
  // its old time, a new one a full lifetime from now.
  lemma AnswerStaysCached(c: Caches, store: Store, user: int, nowMs: int, later: int)
    requires Routable(c, store, user, nowMs)
    ensures var c' := QueryUserNode(c, store, user, nowMs).0;
            var cached := Hit(c.routes, user, nowMs).Some?;
            later <= (if cached then c.routes[user].expireAtMs else nowMs + c.ttl) ==>
              Hit(c'.routes, user, later) == SessionSeen(c, store, user, nowMs)
  {
  }
}
