/**
 oneChat and the handlers of messages from other nodes, on the real parts of a
 node: the connection table, the dispatchers of its event loops, and the registry
 with its caches. Only the router's answer is a parameter.
 */
module ChatNode {
  import opened Wrappers
  import opened ConnectionTable
  import opened LocalDispatcher
  import opened RedisStore
  import opened NodeRegistry

  // A client connection and the event loop it belongs to.
  datatype Conn = Conn(id: nat, loop: nat)

  type Task = (Conn, string)

  type Queues = map<nat, Queue<Task>>

  // The queue of a loop; a dispatcher is created when it is first needed.
  function QueueOf(queues: Queues, limit: nat, loop: nat): Queue<Task> {
    if loop in queues then queues[loop] else Queue(limit, [], false)
  }

  // The user is connected here and the dispatcher of that connection has room.
  predicate Deliverable(conns: map<UserId, Conn>, queues: Queues, limit: nat, to: UserId) {
    to in conns && !Full(QueueOf(queues, limit, conns[to].loop))
  }

  function Enqueued(queues: Queues, limit: nat, conn: Conn, msg: string): Queues {
    var q := QueueOf(queues, limit, conn.loop);
    queues[conn.loop := if Full(q) then q else Pushed(q, (conn, msg))]
  }

  // Creating the dispatcher first makes no difference.
  lemma CreatedFirst(queues: Queues, limit: nat, conn: Conn, msg: string)
    ensures var q := QueueOf(queues, limit, conn.loop);
            && queues[conn.loop := q][conn.loop] == q
            && queues[conn.loop := q][conn.loop := if !Full(q) then Pushed(q, (conn, msg)) else q]
               == Enqueued(queues, limit, conn, msg)
  {
  }

  // deliverToLocalUser: the message becomes the last task of the user's loop, or nothing changes.
  function Delivered(conns: map<UserId, Conn>, queues: Queues, limit: nat, to: UserId, msg: string): Queues {
    if to in conns then Enqueued(queues, limit, conns[to], msg) else queues
  }

  // A message for a user who is connected here becomes the last task of the queue of
  // the connection's loop exactly when fewer than limit wait there; a drain is then
  // pending. No other queue changes, and nothing changes for anybody else.
  lemma DeliveredExactly(conns: map<UserId, Conn>, queues: Queues, limit: nat, to: UserId, msg: string, loop: nat)
    requires forall l :: l in queues ==> queues[l].limit == limit
    ensures var before, after := QueueOf(queues, limit, loop),
                                 QueueOf(Delivered(conns, queues, limit, to, msg), limit, loop);
            var mine := to in conns && conns[to].loop == loop && |before.pending| < limit;
            && after.limit == before.limit
            && after.pending == before.pending + (if mine then [(conns[to], msg)] else [])
            && (after.flushScheduled <==> before.flushScheduled || mine)
            && (to in conns && conns[to].loop == loop ==>
                  (Deliverable(conns, queues, limit, to) <==> |before.pending| < limit))
            && (to !in conns ==> !Deliverable(conns, queues, limit, to))
  {
  }

  class LocalDelivery {
    const table: LocalConnections<Conn>
    const queueLimit: nat
    var dispatchers: map<nat, LocalLoopDispatcher<Task>>
    var drainsDue: seq<nat> // loops for which a drain has been asked
    ghost var queues: Queues // what the dispatchers hold

    ghost predicate Valid()
      reads this`dispatchers, this`queues, table, dispatchers.Values
    {
      && table.Valid()
      && (forall k, l :: k in dispatchers && l in dispatchers && k != l ==> dispatchers[k] != dispatchers[l])
      && queues.Keys == dispatchers.Keys
      && (forall k :: k in dispatchers ==> queues[k] == dispatchers[k].View() && queues[k].limit == queueLimit)
    }

    constructor (table: LocalConnections<Conn>, queueLimit: nat)
      requires table.Valid()
      ensures Valid() && this.table == table && this.queueLimit == queueLimit && queues == map[] && drainsDue == []
    {
      this.table, this.queueLimit := table, queueLimit;
      dispatchers, drainsDue, queues := map[], [], map[];
    }

    method GetOrCreateLocalDispatcher(loop: nat) returns (d: LocalLoopDispatcher<Task>)
      requires Valid()
      modifies this`dispatchers, this`queues
      ensures Valid() && loop in dispatchers && dispatchers[loop] == d
      ensures if loop in old(dispatchers) then dispatchers == old(dispatchers)
              else fresh(d) && dispatchers == old(dispatchers)[loop := d]
      ensures fresh(dispatchers.Values - old(dispatchers.Values))
      ensures queues == old(queues)[loop := QueueOf(old(queues), queueLimit, loop)]
    {
      if loop in dispatchers {
        assert queues == queues[loop := queues[loop]];
        return dispatchers[loop];
      }
      d := new LocalLoopDispatcher<Task>(queueLimit);
      dispatchers, queues := dispatchers[loop := d], queues[loop := Queue(queueLimit, [], false)];
    }

    // A drain is asked for exactly when the task went to a queue that had none pending.
    method EnqueueLocalDelivery(conn: Conn, msg: string) returns (ok: bool)
      requires Valid()
      modifies this`dispatchers, this`drainsDue, this`queues, dispatchers.Values
      ensures Valid() && fresh(dispatchers.Values - old(dispatchers.Values))
      ensures queues == Enqueued(old(queues), queueLimit, conn, msg)
      ensures var q := QueueOf(old(queues), queueLimit, conn.loop);
              ok == !Full(q) && drainsDue == old(drainsDue) + if ok && !q.flushScheduled then [conn.loop] else []
    {
      var d := GetOrCreateLocalDispatcher(conn.loop);
      CreatedFirst(old(queues), queueLimit, conn, msg);
      var shouldSchedule;
      ok, shouldSchedule := EnqueueOn(conn.loop, d, (conn, msg));
      if shouldSchedule {
        drainsDue := drainsDue + [conn.loop];
      }
    }

    method EnqueueOn(loop: nat, d: LocalLoopDispatcher<Task>, task: Task) returns (ok: bool, shouldSchedule: bool)
      requires Valid() && loop in dispatchers && dispatchers[loop] == d
      modifies this`queues, d
      ensures Valid()
      ensures var q := old(queues)[loop];
              && ok == !Full(q) && shouldSchedule == (ok && !q.flushScheduled)
              && queues == old(queues)[loop := if ok then Pushed(q, task) else q]
    {
      ok, shouldSchedule := d.EnqueueSection(task);
      queues := queues[loop := d.View()];
    }

    method DeliverToLocalUser(to: UserId, msg: string) returns (ok: bool)
      requires Valid()
      modifies this`dispatchers, this`drainsDue, this`queues, dispatchers.Values
      ensures Valid() && fresh(dispatchers.Values - old(dispatchers.Values))
      ensures ok == Deliverable(table.Table(), old(queues), queueLimit, to)
      ensures queues == Delivered(table.Table(), old(queues), queueLimit, to, msg)
    {
      var found := table.Get(to);
      if found.None? {
        return false;
      }
      ok := EnqueueLocalDelivery(found.value, msg);
    }

    // A drain in a loop, undisturbed.
    method DrainLocalDeliveriesInLoop(loop: nat)
      requires Valid() && loop in dispatchers
      modifies this`queues, dispatchers[loop]
      ensures Valid() && queues == old(queues)[loop := Queue(queueLimit, [], false)]
      ensures dispatchers[loop].sent == old(dispatchers[loop].sent) + old(queues)[loop].pending
    {
      var d := dispatchers[loop];
      var _ := d.DrainInLoop(State(d.View(), 0, 0, [[]], d.sent, d.sent + d.pending));
      queues := queues[loop := d.View()];
    }
  }

  // ----- what a node does with a message that it cannot deliver itself -----

  // Messages taken by the router, rows of the offline table, and the counters.
  datatype Books = Books(forwarded: seq<(Meta, UserId, string)>, offline: seq<(UserId, string)>,
                         delivered: nat, routed: nat, routeFailed: nat, fellBack: nat, stale: nat)

  function Stored(b: Books, to: UserId, msg: string): Books {
    b.(offline := b.offline + [(to, msg)], fellBack := b.fellBack + 1)
  }

  // oneChat from the registry lookup on; a session that names this node is unbound.
  function Routed(b: Books, c: Caches, store: Store, self: string, to: UserId, msg: string, nowMs: int,
                  takes: Meta -> bool)
    : (Books, Caches, Store)
  {
    var (c1, store1, answer) := ResolveUserNode(c, store, to, nowMs);
    match answer
    case None => (Stored(b, to, msg), c1, store1)
    case Some((n, meta)) =>
      if n == self then
        (Stored(b.(stale := b.stale + 1), to, msg), c1.(routes := c1.routes - {to}), Unbind(store1, to, self, ALL))
      else if takes(meta) then
        (b.(forwarded := b.forwarded + [(meta, to, msg)], routed := b.routed + 1), c1, store1)
      else (Stored(b.(routeFailed := b.routeFailed + 1), to, msg), c1, store1)
  }

  // A receiver stores the message; it leaves the session alone only when the registry
  // says that the user is at another node.
  function Received(b: Books, c: Caches, store: Store, self: string, to: UserId, msg: string, nowMs: int)
    : (Books, Caches, Store)
  {
    var (c1, store1, node) := QueryUserNode(c, store, to, nowMs);
    if node.Some? && node.value != self then (Stored(b.(stale := b.stale + 1), to, msg), c1, store1)
    else (Stored(b, to, msg), c1.(routes := c1.routes - {to}), Unbind(store1, to, self, ALL))
  }

  // The message is either forwarded or stored, never both or neither, and the counters
  // say which; it is forwarded exactly when the registry named another node whose
  // channel took it.
  lemma ForwardedOrStored(b: Books, c: Caches, store: Store, self: string, to: UserId, msg: string, nowMs: int,
                          takes: Meta -> bool)
    ensures var (b', c', store') := Routed(b, c, store, self, to, msg, nowMs, takes);
            var (c1, store1, answer) := ResolveUserNode(c, store, to, nowMs);
            var here := answer.Some? && answer.value.0 == self;
            var away := answer.Some? && !here && takes(answer.value.1);
            && (here ==> to !in store'.sessions && to !in c'.routes)
            && (!here ==> c' == c1 && store' == store1)
            && (b'.stale == b.stale + if here then 1 else 0)
            && b'.forwarded == b.forwarded + (if away then [(answer.value.1, to, msg)] else [])
            && b'.offline == b.offline + (if away then [] else [(to, msg)])
            && b'.routed - b.routed == |b'.forwarded| - |b.forwarded| && b'.delivered == b.delivered
            && b'.fellBack - b.fellBack == |b'.offline| - |b.offline|
            && (b'.routed - b.routed) + (b'.routeFailed - b.routeFailed) + (b'.stale - b.stale)
               == if answer.Some? then 1 else 0
  {
  }

  // A receiver stores the message under every answer of the registry and forwards or
  // delivers nothing. The session and its cached route are kept exactly when the
  // registry names another node, which counts as stale; otherwise both are dropped.
  lemma ReceivedIsStored(b: Books, c: Caches, store: Store, self: string, to: UserId, msg: string, nowMs: int)
    ensures var (b', c', store') := Received(b, c, store, self, to, msg, nowMs);
            var (c1, store1, node) := QueryUserNode(c, store, to, nowMs);
            var elsewhere := node.Some? && node.value != self;
            && b'.offline == b.offline + [(to, msg)] && b'.fellBack == b.fellBack + 1
            && b'.forwarded == b.forwarded && b'.routed == b.routed && b'.routeFailed == b.routeFailed
            && b'.delivered == b.delivered && b'.stale == b.stale + (if elsewhere then 1 else 0)
            && (elsewhere ==> c' == c1 && store' == store1)
            && (!elsewhere ==> to !in store'.sessions && to !in c'.routes)
  {
  }

  class ChatNode {
    const local: LocalDelivery
    const registry: NodeRegistry
    var forwarded: seq<(Meta, UserId, string)>
    var offline: seq<(UserId, string)>
    var localDeliveryCount: nat
    var remoteRouteCount: nat
    var remoteRouteFailCount: nat
    var offlineFallbackCount: nat
    var staleSessionCount: nat

    ghost function View(): Books
      reads this
    {
      Books(forwarded, offline, localDeliveryCount, remoteRouteCount, remoteRouteFailCount, offlineFallbackCount,
            staleSessionCount)
    }

    constructor (local: LocalDelivery, registry: NodeRegistry)
      ensures this.local == local && this.registry == registry && View() == Books([], [], 0, 0, 0, 0, 0)
    {
      this.local, this.registry := local, registry;
      forwarded, offline := [], [];
      localDeliveryCount, remoteRouteCount, remoteRouteFailCount := 0, 0, 0;
      offlineFallbackCount, staleSessionCount := 0, 0;
    }

    // Delivered here exactly when that is possible, and otherwise routed.
    method OneChat(to: UserId, msg: string, nowMs: int, takes: Meta -> bool)
      requires local.Valid()
      modifies this, local`dispatchers, local`drainsDue, local`queues, local.dispatchers.Values
      modifies registry`routes, registry`metas, registry.redis
      ensures local.Valid()
      ensures local.queues == old(Delivered(local.table.Table(), local.queues, local.queueLimit, to, msg))
      ensures var b, c, store := old(View()), old(registry.View()), old(registry.redis.View());
              (View(), registry.View(), registry.redis.View())
              == if old(Deliverable(local.table.Table(), local.queues, local.queueLimit, to))
                 then (b.(delivered := b.delivered + 1), c, store)
                 else Routed(b, c, store, registry.self.nodeId, to, msg, nowMs, takes)
    {
      var ok := local.DeliverToLocalUser(to, msg);
      if ok {
        localDeliveryCount := localDeliveryCount + 1;
        return;
      }
      RouteOrStore(to, msg, nowMs, takes);
    }

    method RouteOrStore(to: UserId, msg: string, nowMs: int, takes: Meta -> bool)
      modifies this, registry`routes, registry`metas, registry.redis
      ensures (View(), registry.View(), registry.redis.View())
           == Routed(old(View()), old(registry.View()), old(registry.redis.View()), registry.self.nodeId, to, msg,
              nowMs, takes)
    {
      var resolved := registry.Resolve(to, nowMs);
      if resolved.Some? {
        if resolved.value.0 == registry.self.nodeId {
          staleSessionCount := staleSessionCount + 1;
          var _ := registry.UnbindUser(to, ALL);
        } else if takes(resolved.value.1) {
          forwarded := forwarded + [(resolved.value.1, to, msg)];
          remoteRouteCount := remoteRouteCount + 1;
          return;
        } else {
          remoteRouteFailCount := remoteRouteFailCount + 1;
        }
      }
      offlineFallbackCount := offlineFallbackCount + 1;
      offline := offline + [(to, msg)];
    }

    // Also one turn of handleClusterGroupChat.
    method HandleClusterOneChatFrame(to: UserId, payload: string, nowMs: int)
      requires local.Valid()
      modifies this, local`dispatchers, local`drainsDue, local`queues, local.dispatchers.Values
      modifies registry`routes, registry`metas, registry.redis
      ensures local.Valid()
      ensures local.queues == old(Delivered(local.table.Table(), local.queues, local.queueLimit, to, payload))
      ensures var b, c, store := old(View()), old(registry.View()), old(registry.redis.View());
              (View(), registry.View(), registry.redis.View())
              == if old(Deliverable(local.table.Table(), local.queues, local.queueLimit, to))
                 then (b.(delivered := b.delivered + 1), c, store)
                 else Received(b, c, store, registry.self.nodeId, to, payload, nowMs)
    {
      var ok := local.DeliverToLocalUser(to, payload);
      if ok {
        localDeliveryCount := localDeliveryCount + 1;
        return;
      }
      CheckAndStore(to, payload, nowMs);
    }

    method CheckAndStore(to: UserId, payload: string, nowMs: int)
      modifies this, registry`routes, registry`metas, registry.redis
      ensures (View(), registry.View(), registry.redis.View())
           == Received(old(View()), old(registry.View()), old(registry.redis.View()), registry.self.nodeId, to,
              payload, nowMs)
    {
      var node := registry.QueryUser(to, nowMs);
      if node.Some? && node.value != registry.self.nodeId {
        staleSessionCount := staleSessionCount + 1;
      } else {
        var _ := registry.UnbindUser(to, ALL);
      }
      offlineFallbackCount := offlineFallbackCount + 1;
      offline := offline + [(to, payload)];
    }

    // Each user is either delivered to a local queue or stored, and nothing is sent on.
    method HandleClusterGroupChat(users: seq<UserId>, payload: string, nowMs: int)
      returns (ghost delivered: seq<UserId>, ghost stored: seq<UserId>)
      requires local.Valid()
      modifies this, local`dispatchers, local`drainsDue, local`queues, local.dispatchers.Values
      modifies registry`routes, registry`metas, registry.redis
      ensures local.Valid()
      ensures multiset(users) == multiset(delivered) + multiset(stored)
      ensures forwarded == old(forwarded) && offline == old(offline) + Rows(stored, payload)
      ensures localDeliveryCount == old(localDeliveryCount) + |delivered|
      ensures offlineFallbackCount == old(offlineFallbackCount) + |stored|
    {
      delivered, stored := [], [];
      var i := 0;
      while i < |users|
        invariant 0 <= i <= |users|
        invariant local.Valid() && fresh(local.dispatchers.Values - old(local.dispatchers.Values))
        invariant multiset(users[..i]) == multiset(delivered) + multiset(stored)
        invariant forwarded == old(forwarded) && offline == old(offline) + Rows(stored, payload)
        invariant localDeliveryCount == old(localDeliveryCount) + |delivered|
        invariant offlineFallbackCount == old(offlineFallbackCount) + |stored|
      {
        var ok := HandleOneUser(users[i], payload, nowMs);
        OneUserMore(users, i, delivered, stored);
        if ok {
          delivered := delivered + [users[i]];
        } else {
          RowsPush(stored, users[i], payload);
          stored := stored + [users[i]];
        }
        i := i + 1;
      }
      assert users[..i] == users;
    }

    method HandleOneUser(user: UserId, payload: string, nowMs: int) returns (ok: bool)
      requires local.Valid()
      modifies this, local`dispatchers, local`drainsDue, local`queues, local.dispatchers.Values
      modifies registry`routes, registry`metas, registry.redis
      ensures local.Valid() && fresh(local.dispatchers.Values - old(local.dispatchers.Values))
      ensures ok == old(Deliverable(local.table.Table(), local.queues, local.queueLimit, user))
      ensures forwarded == old(forwarded) && offline == old(offline) + (if ok then [] else [(user, payload)])
      ensures localDeliveryCount == old(localDeliveryCount) + (if ok then 1 else 0)
      ensures offlineFallbackCount == old(offlineFallbackCount) + (if ok then 0 else 1)
    {
      ok := local.DeliverToLocalUser(user, payload);
      if ok {
        localDeliveryCount := localDeliveryCount + 1;
        return;
      }
      ghost var b, c, store := View(), registry.View(), registry.redis.View();
      CheckAndStore(user, payload, nowMs);
      ReceivedIsStored(b, c, store, registry.self.nodeId, user, payload, nowMs);
    }
  }

  lemma OneUserMore(users: seq<UserId>, i: nat, delivered: seq<UserId>, stored: seq<UserId>)
    requires i < |users| && multiset(users[..i]) == multiset(delivered) + multiset(stored)
    ensures multiset(users[..i + 1]) == multiset(delivered + [users[i]]) + multiset(stored)
    ensures multiset(users[..i + 1]) == multiset(delivered) + multiset(stored + [users[i]])
  {
    assert users[..i + 1] == users[..i] + [users[i]];
  }

  // The rows of the offline table for some users.
  function Rows(users: seq<UserId>, payload: string): seq<(UserId, string)> {
    if users == [] then [] else Rows(users[..|users| - 1], payload) + [(users[|users| - 1], payload)]
  }

  lemma RowsPush(users: seq<UserId>, user: UserId, payload: string)
    ensures Rows(users + [user], payload) == Rows(users, payload) + [(user, payload)]
  {
    assert (users + [user])[..|users|] == users;
  }
}
