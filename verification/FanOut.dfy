/**
 ChatService::groupChat, and the stages of a single delivery: every recipient of a
 message is served in exactly one way. What the connection table, the session
 registry and the router answer is up to the environment and may change between
 any two lookups.
 */
module FanOut {
  import opened Wrappers

  type NodeId = string

  type Batches<A> = map<NodeId, seq<A>>

  // ----- a recipient of oneChat, or of a frame or record from another node -----

  datatype Stage = AtLocal | AtRegistry | AtRouter(node: NodeId) | AtStore

  // deliverToLocalUser said no; a receiver does not look any further.
  function NotLocal(relay: bool): Stage {
    if relay then AtStore else AtRegistry
  }

  function Resolved(answer: Option<NodeId>, self: NodeId): Stage {
    if answer.Some? && answer.value != self then AtRouter(answer.value) else AtStore
  }

  // ----- groupChat in progress -----

  // The handler's lists, and what it has done so far.
  datatype Handler<A> = Handler(
    scan: seq<A>,        // members not looked up yet
    local: seq<A>,       // localConns, by member
    unresolved: seq<A>,
    batches: Batches<A>, // remoteNodeUsers
    offline: seq<A>,
    sentLocal: seq<A>,
    sends: seq<(NodeId, seq<A>)>,
    stored: seq<A>)

  function Start<A>(members: seq<A>): Handler<A> {
    Handler(members, [], [], map[], [], [], [], [])
  }

  datatype HandlerStep =
    | Look(found: bool)
    | Answer(answer: Option<NodeId>)
    | SendLocal
    | Try(node: NodeId, taken: bool) // the node could be looked up and its channel took the batch
    | Store

  // The loops of groupChat come one after the other; the batches in any order.
  predicate Enabled<A>(h: Handler<A>, step: HandlerStep) {
    match step
    case Look(_) => h.scan != []
    case Answer(_) => h.scan == [] && h.unresolved != []
    case SendLocal => h.scan == [] && h.unresolved == [] && h.local != []
    case Try(n, _) => h.scan == [] && h.unresolved == [] && h.local == [] && n in h.batches
    case Store => h.scan == [] && h.unresolved == [] && h.local == [] && h.batches == map[] && h.offline != []
  }

  function BatchOf<A>(batches: Batches<A>, n: NodeId): seq<A> {
    if n in batches then batches[n] else []
  }

  // remoteNodeUsers[n].push_back(x)
  function Pushed<A>(batches: Batches<A>, n: NodeId, x: A): Batches<A> {
    batches[n := BatchOf(batches, n) + [x]]
  }

  function Advance<A>(h: Handler<A>, step: HandlerStep, self: NodeId): Handler<A>
    requires Enabled(h, step)
  {
    match step
    case Look(found) =>
      var h' := h.(scan := h.scan[1..]);
      if found then h'.(local := h.local + [h.scan[0]]) else h'.(unresolved := h.unresolved + [h.scan[0]])
    case Answer(answer) =>
      var x, h' := h.unresolved[0], h.(unresolved := h.unresolved[1..]);
      if Resolved(answer, self).AtRouter? then h'.(batches := Pushed(h.batches, answer.value, x))
      else h'.(offline := h.offline + [x])
    case SendLocal => h.(local := h.local[1..], sentLocal := h.sentLocal + [h.local[0]])
    case Try(n, taken) =>
      var h' := h.(batches := h.batches - {n});
      if taken then h'.(sends := h.sends + [(n, h.batches[n])]) else h'.(offline := h.offline + h.batches[n])
    case Store => h.(offline := h.offline[1..], stored := h.stored + [h.offline[0]])
  }

  // What a step sends to client connections, hands to the router or stores.
  function Outgoing<A>(h: Handler<A>, step: HandlerStep): seq<A>
    requires Enabled(h, step)
  {
    match step
    case SendLocal => [h.local[0]]
    case Try(n, taken) => if taken then h.batches[n] else []
    case Store => [h.offline[0]]
    case _ => []
  }

  // ----- sums over a map of batches -----

  ghost function Held<A>(batches: Batches<A>, nodes: set<NodeId>): multiset<A>
    requires nodes <= batches.Keys
    decreases nodes
  {
    if nodes == {} then multiset{}
    else
      var n :| n in nodes;
      multiset(batches[n]) + Held(batches, nodes - {n})
  }

  // The node visited first does not matter.
  lemma {:induction false} HeldAny<A>(batches: Batches<A>, nodes: set<NodeId>, n: NodeId)
    requires nodes <= batches.Keys && n in nodes
    ensures Held(batches, nodes) == multiset(batches[n]) + Held(batches, nodes - {n})
    decreases nodes
  {
    var c :| c in nodes && Held(batches, nodes) == multiset(batches[c]) + Held(batches, nodes - {c});
    if c != n {
      HeldAny(batches, nodes - {c}, n);
      HeldAny(batches, nodes - {n}, c);
      assert nodes - {c} - {n} == nodes - {n} - {c};
    }
  }

  lemma {:induction false} HeldSame<A>(a: Batches<A>, b: Batches<A>, nodes: set<NodeId>)
    requires nodes <= a.Keys && nodes <= b.Keys && forall n :: n in nodes ==> a[n] == b[n]
    ensures Held(a, nodes) == Held(b, nodes)
    decreases nodes
  {
    if nodes != {} {
      var n :| n in nodes;
      HeldAny(a, nodes, n);
      HeldAny(b, nodes, n);
      HeldSame(a, b, nodes - {n});
    }
  }

  ghost function AllHeld<A>(batches: Batches<A>): multiset<A> {
    Held(batches, batches.Keys)
  }

  lemma HeldPush<A>(batches: Batches<A>, n: NodeId, x: A)
    ensures AllHeld(Pushed(batches, n, x)) == AllHeld(batches) + multiset{x}
  {
    var after := Pushed(batches, n, x);
    var others := batches.Keys - {n};
    assert after.Keys - {n} == others;
    HeldAny(after, after.Keys, n);
    HeldSame(after, batches, others);
    if n in batches {
      HeldAny(batches, batches.Keys, n);
    } else {
      assert others == batches.Keys;
    }
  }

  lemma HeldDrop<A>(batches: Batches<A>, n: NodeId)
    requires n in batches
    ensures AllHeld(batches) == AllHeld(batches - {n}) + multiset(batches[n])
  {
    HeldAny(batches, batches.Keys, n);
    assert (batches - {n}).Keys == batches.Keys - {n};
    HeldSame(batches, batches - {n}, batches.Keys - {n});
  }

  // ----- nobody is forgotten or served twice -----

  // How often a recipient is still waiting in the handler.
  ghost function Waiting<A>(h: Handler<A>, x: A): nat {
    multiset(h.scan)[x] + multiset(h.local)[x] + multiset(h.unresolved)[x] + AllHeld(h.batches)[x]
      + multiset(h.offline)[x]
  }

  lemma HandlerKeeps<A>(h: Handler<A>, step: HandlerStep, self: NodeId, x: A)
    requires Enabled(h, step)
    ensures Waiting(h, x) == Waiting(Advance(h, step, self), x) + multiset(Outgoing(h, step))[x]
  {
    match step {
      case Look(_) => CountFirst(h.scan, x);
      case Answer(answer) =>
        CountFirst(h.unresolved, x);
        if Resolved(answer, self).AtRouter? {
          HeldPush(h.batches, answer.value, h.unresolved[0]);
        }
      case SendLocal => CountFirst(h.local, x);
      case Try(n, _) => HeldDrop(h.batches, n);
      case Store => CountFirst(h.offline, x);
    }
  }

  lemma CountFirst<A>(xs: seq<A>, x: A)
    requires xs != []
    ensures multiset(xs)[x] == multiset(xs[1..])[x] + multiset([xs[0]])[x]
  {
    assert xs == [xs[0]] + xs[1..];
  }

  function UsersOf<A>(batches: seq<(NodeId, seq<A>)>): seq<A> {
    if batches == [] then [] else UsersOf(batches[..|batches| - 1]) + batches[|batches| - 1].1
  }

  // How often the handler has served a recipient.
  ghost function Served<A>(h: Handler<A>, x: A): nat {
    multiset(h.sentLocal)[x] + multiset(UsersOf(h.sends))[x] + multiset(h.stored)[x]
  }

  lemma ServedGrows<A>(h: Handler<A>, step: HandlerStep, self: NodeId, x: A)
    requires Enabled(h, step)
    ensures Served(Advance(h, step, self), x) == Served(h, x) + multiset(Outgoing(h, step))[x]
  {
  }

  // ----- runs of a handler -----

  predicate IsRun<A>(h: Handler<A>, steps: seq<HandlerStep>, self: NodeId)
    decreases |steps|, 0
  {
    steps == [] ||
    (var front := steps[..|steps| - 1];
     IsRun(h, front, self) && Enabled(After(h, front, self), steps[|steps| - 1]))
  }

  function After<A>(h: Handler<A>, steps: seq<HandlerStep>, self: NodeId): Handler<A>
    requires IsRun(h, steps, self)
    decreases |steps|, 1
  {
    if steps == [] then h
    else Advance(After(h, steps[..|steps| - 1], self), steps[|steps| - 1], self)
  }

  ghost predicate Leads<A>(h: Handler<A>, steps: seq<HandlerStep>, self: NodeId, h': Handler<A>) {
    IsRun(h, steps, self) && After(h, steps, self) == h'
  }

  lemma LeadsOn<A>(h: Handler<A>, steps: seq<HandlerStep>, self: NodeId, h': Handler<A>, step: HandlerStep)
    requires Leads(h, steps, self, h') && Enabled(h', step)
    ensures Leads(h, steps + [step], self, Advance(h', step, self))
  {
  }

  // At every moment of every run, under whatever answers: those still in the handler
  // and those served are together exactly the members.
  lemma {:induction false} GroupConserved<A>(members: seq<A>, steps: seq<HandlerStep>, self: NodeId, x: A)
    requires IsRun(Start(members), steps, self)
    ensures var h := After(Start(members), steps, self);
            Waiting(h, x) + Served(h, x) == multiset(members)[x]
  {
    if steps != [] {
      var front, last := steps[..|steps| - 1], steps[|steps| - 1];
      var h := After(Start(members), front, self);
      GroupConserved(members, front, self, x);
      HandlerKeeps(h, last, self, x);
      ServedGrows(h, last, self, x);
    }
  }

  // Once it has nothing left to do.
  lemma EveryoneServed<A>(members: seq<A>, steps: seq<HandlerStep>, self: NodeId, h: Handler<A>)
    requires Leads(Start(members), steps, self, h)
    requires h.scan == [] && h.local == [] && h.unresolved == [] && h.batches == map[] && h.offline == []
    ensures multiset(members) == multiset(h.sentLocal) + multiset(UsersOf(h.sends)) + multiset(h.stored)
  {
    var all := multiset(h.sentLocal) + multiset(UsersOf(h.sends)) + multiset(h.stored);
    assert h.batches.Keys == {};
    forall x ensures multiset(members)[x] == all[x] {
      GroupConserved(members, steps, self, x);
    }
    SameCounts(multiset(members), all);
  }

  lemma SameCounts<A>(a: multiset<A>, b: multiset<A>)
    requires forall x :: a[x] == b[x]
    ensures a == b
  {
  }

  // ----- what each loop computes -----

  // found(i) is the answer to the i-th lookup in the connection table.
  function Present<A, C>(members: seq<A>, found: nat -> Option<C>): seq<A> {
    if members == [] then []
    else
      var last := |members| - 1;
      Present(members[..last], found) + (if found(last).Some? then [members[last]] else [])
  }

  function Missing<A, C>(members: seq<A>, found: nat -> Option<C>): seq<A> {
    if members == [] then []
    else
      var last := |members| - 1;
      Missing(members[..last], found) + (if found(last).Some? then [] else [members[last]])
  }

  // The connections found for the first k lookups.
  function Found<C>(k: nat, found: nat -> Option<C>): seq<C> {
    if k == 0 then []
    else Found(k - 1, found) + (if found(k - 1).Some? then [found(k - 1).value] else [])
  }

  // Those whose registry lookup, the j-th, was answered n.
  function ResolvedTo<A>(ids: seq<A>, resolve: nat -> Option<NodeId>, n: Option<NodeId>): seq<A> {
    if ids == [] then []
    else
      var last := |ids| - 1;
      ResolvedTo(ids[..last], resolve, n) + (if resolve(last) == n then [ids[last]] else [])
  }

  // Those to be stored offline at once: without an answer, or claimed by this node.
  function Fallback<A>(ids: seq<A>, resolve: nat -> Option<NodeId>, self: NodeId): seq<A> {
    if ids == [] then []
    else
      var last := |ids| - 1;
      Fallback(ids[..last], resolve, self) + (if Resolved(resolve(last), self).AtRouter? then [] else [ids[last]])
  }

  // The map that groupChat groups the others into.
  function Grouped<A>(ids: seq<A>, resolve: nat -> Option<NodeId>, self: NodeId): Batches<A> {
    if ids == [] then map[]
    else
      var last := |ids| - 1;
      var before := Grouped(ids[..last], resolve, self);
      if Resolved(resolve(last), self).AtRouter? then Pushed(before, resolve(last).value, ids[last]) else before
  }

  // Every other node that some member was looked up at has a batch of exactly those members.
  lemma {:induction false} GroupedByNode<A>(ids: seq<A>, resolve: nat -> Option<NodeId>, self: NodeId, n: NodeId)
    ensures var users := ResolvedTo(ids, resolve, Some(n));
            && (n in Grouped(ids, resolve, self) <==> n != self && users != [])
            && (n in Grouped(ids, resolve, self) ==> Grouped(ids, resolve, self)[n] == users)
  {
    if ids != [] {
      GroupedByNode(ids[..|ids| - 1], resolve, self, n);
    }
  }

  // The reachable nodes among the given ones are sent their batch, the others are refused, each node once.
  ghost predicate ProperBatches<A>(sends: seq<(NodeId, seq<A>)>, refused: seq<NodeId>, remote: Batches<A>,
                                   nodes: set<NodeId>, reachable: NodeId -> bool)
  {
    && nodes <= remote.Keys
    && (forall b :: b in sends ==> b.0 in nodes && reachable(b.0) && b.1 == remote[b.0])
    && (forall n :: n in refused ==> n in nodes && !reachable(n))
    && (forall n :: n in nodes ==> if reachable(n) then (n, remote[n]) in sends else n in refused)
    && |sends| + |refused| == |nodes|
  }

  // ----- the handlers themselves -----

  class ChatService<C> {
    const self: NodeId
    var localDeliveryCount: nat
    var remoteRouteCount: nat
    var remoteRouteFailCount: nat
    var offlineFallbackCount: nat
    var staleSessionCount: nat

    constructor (self: NodeId)
      ensures this.self == self
      ensures localDeliveryCount == remoteRouteCount == remoteRouteFailCount == 0
      ensures offlineFallbackCount == staleSessionCount == 0
    {
      this.self := self;
      localDeliveryCount, remoteRouteCount, remoteRouteFailCount := 0, 0, 0;
      offlineFallbackCount, staleSessionCount := 0, 0;
    }

    // run: the steps of the handler that the loop performs.
    method SplitLocal(members: seq<int>, found: nat -> Option<C>)
      returns (localConns: seq<C>, ids: seq<int>, ghost run: seq<HandlerStep>)
      ensures localConns == Found(|members|, found) && ids == Missing(members, found)
      ensures |localConns| == |Present(members, found)|
      ensures Leads(Start(members), run, self,
              Start(members).(scan := [], local := Present(members, found), unresolved := ids))
    {
      ghost var h := Start(members);
      localConns, ids, run := [], [], [];
      var i := 0;
      while i < |members|
        invariant 0 <= i <= |members|
        invariant localConns == Found(i, found) && ids == Missing(members[..i], found)
        invariant |localConns| == |h.local|
        invariant h == Start(members).(scan := members[i..], local := Present(members[..i], found), unresolved := ids)
        invariant Leads(Start(members), run, self, h)
      {
        assert members[..i + 1][..i] == members[..i];
        var conn := found(i);
        LeadsOn(Start(members), run, self, h, Look(conn.Some?));
        run, h := run + [Look(conn.Some?)], Advance(h, Look(conn.Some?), self);
        if conn.Some? {
          localConns := localConns + [conn.value];
        } else {
          ids := ids + [members[i]];
        }
        i := i + 1;
      }
      assert members[..i] == members;
    }

    method ResolveAll(ids: seq<int>, resolve: nat -> Option<NodeId>, ghost h0: Handler<int>)
      returns (remote: Batches<int>, offline: seq<int>, unbound: seq<int>, ghost run: seq<HandlerStep>)
      requires h0.scan == [] && h0.unresolved == ids && h0.batches == map[] && h0.offline == []
      modifies this`staleSessionCount
      ensures remote == Grouped(ids, resolve, self) && offline == Fallback(ids, resolve, self)
      ensures unbound == ResolvedTo(ids, resolve, Some(self))
      ensures staleSessionCount == old(staleSessionCount) + |unbound|
      ensures Leads(h0, run, self, h0.(unresolved := [], batches := remote, offline := offline))
    {
      ghost var h := h0;
      remote, offline, unbound, run := map[], [], [], [];
      var j := 0;
      while j < |ids|
        invariant 0 <= j <= |ids|
        invariant remote == Grouped(ids[..j], resolve, self) && offline == Fallback(ids[..j], resolve, self)
        invariant unbound == ResolvedTo(ids[..j], resolve, Some(self))
        invariant staleSessionCount == old(staleSessionCount) + |unbound|
        invariant h == h0.(unresolved := ids[j..], batches := remote, offline := offline)
        invariant Leads(h0, run, self, h)
      {
        assert ids[..j + 1][..j] == ids[..j];
        var id, answer := ids[j], resolve(j);
        LeadsOn(h0, run, self, h, Answer(answer));
        run, h := run + [Answer(answer)], Advance(h, Answer(answer), self);
        if answer.None? {
          offline := offline + [id];
        } else if answer.value == self {
          staleSessionCount := staleSessionCount + 1;
          unbound := unbound + [id];
          offline := offline + [id];
        } else {
          var n := answer.value;
          remote := remote[n := (if n in remote then remote[n] else []) + [id]];
        }
        j := j + 1;
      }
      assert ids[..j] == ids;
    }

    method SendLocals(localConns: seq<C>, ghost h0: Handler<int>) returns (sent: seq<C>, ghost run: seq<HandlerStep>)
      requires h0.scan == h0.unresolved == [] && |h0.local| == |localConns|
      modifies this`localDeliveryCount
      ensures sent == localConns && localDeliveryCount == old(localDeliveryCount) + |localConns|
      ensures Leads(h0, run, self, h0.(local := [], sentLocal := h0.sentLocal + h0.local))
    {
      ghost var h := h0;
      sent, run := [], [];
      while |sent| < |localConns|
        invariant |sent| <= |localConns| && sent == localConns[..|sent|]
        invariant localDeliveryCount == old(localDeliveryCount) + |sent|
        invariant h == h0.(local := h0.local[|sent|..], sentLocal := h0.sentLocal + h0.local[..|sent|])
        invariant Leads(h0, run, self, h)
      {
        LeadsOn(h0, run, self, h, SendLocal);
        run, h := run + [SendLocal], Advance(h, SendLocal, self);
        sent := sent + [localConns[|sent|]];
        localDeliveryCount := localDeliveryCount + 1;
      }
      assert h0.local[..|sent|] == h0.local;
    }

    method SendBatches(remote: Batches<int>, reachable: NodeId -> bool, ghost h0: Handler<int>)
      returns (sends: seq<(NodeId, seq<int>)>, refused: seq<NodeId>, fallback: seq<int>, ghost run: seq<HandlerStep>)
      requires h0.scan == [] && h0.unresolved == [] && h0.local == [] && h0.batches == remote && h0.sends == []
      modifies this`remoteRouteCount, this`remoteRouteFailCount
      ensures ProperBatches(sends, refused, remote, remote.Keys, reachable)
      ensures remoteRouteCount == old(remoteRouteCount) + |sends|
      ensures remoteRouteFailCount == old(remoteRouteFailCount) + |refused|
      ensures Leads(h0, run, self, h0.(batches := map[], sends := sends, offline := h0.offline + fallback))
    {
      ghost var order;
      sends, refused, fallback, order := TryNodes(remote, reachable);
      run := AllTried(h0, order, remote, reachable, self);
    }

    // The map's own iteration order is arbitrary.
    method TryNodes(remote: Batches<int>, reachable: NodeId -> bool)
      returns (sends: seq<(NodeId, seq<int>)>, refused: seq<NodeId>, fallback: seq<int>, ghost order: seq<NodeId>)
      modifies this`remoteRouteCount, this`remoteRouteFailCount
      ensures Once(order) && AsSet(order) == remote.Keys
      ensures sends == Reached(order, remote, reachable) && refused == Unreached(order, reachable)
      ensures fallback == FallenBack(order, remote, reachable)
      ensures remoteRouteCount == old(remoteRouteCount) + |sends|
      ensures remoteRouteFailCount == old(remoteRouteFailCount) + |refused|
    {
      var todo := remote.Keys;
      ghost var tried: set<NodeId> := {};
      sends, refused, fallback, order := [], [], [], [];
      while todo != {}
        invariant todo !! tried && todo + tried == remote.Keys && Once(order) && AsSet(order) == tried
        invariant sends == Reached(order, remote, reachable) && refused == Unreached(order, reachable)
        invariant fallback == FallenBack(order, remote, reachable)
        invariant remoteRouteCount == old(remoteRouteCount) + |sends|
        invariant remoteRouteFailCount == old(remoteRouteFailCount) + |refused|
      {
        var n :| n in todo;
        OneMore(order, n);
        NextNode(order, n, remote, reachable);
        order := order + [n];
        if reachable(n) {
          sends := sends + [(n, remote[n])];
          remoteRouteCount := remoteRouteCount + 1;
        } else {
          refused := refused + [n];
          fallback := fallback + remote[n];
          remoteRouteFailCount := remoteRouteFailCount + 1;
        }
        todo, tried := todo - {n}, tried + {n};
      }
      assert tried == remote.Keys;
    }

    method StoreOffline(offline: seq<int>, ghost h0: Handler<int>)
      returns (stored: seq<int>, ghost run: seq<HandlerStep>)
      requires h0.scan == h0.unresolved == h0.local == [] && h0.batches == map[] && h0.offline == offline
               && h0.stored == []
      modifies this`offlineFallbackCount
      ensures stored == offline && offlineFallbackCount == old(offlineFallbackCount) + |offline|
      ensures Leads(h0, run, self, h0.(offline := [], stored := stored))
    {
      ghost var h := h0;
      stored, run := [], [];
      while |stored| < |offline|
        invariant |stored| <= |offline| && stored == offline[..|stored|]
        invariant offlineFallbackCount == old(offlineFallbackCount) + |stored|
        invariant h == h0.(offline := offline[|stored|..], stored := stored)
        invariant Leads(h0, run, self, h)
      {
        LeadsOn(h0, run, self, h, Store);
        run, h := run + [Store], Advance(h, Store, self);
        stored := stored + [offline[|stored|]];
        offlineFallbackCount := offlineFallbackCount + 1;
      }
    }

    method GroupChat(members: seq<int>, found: nat -> Option<C>, resolve: nat -> Option<NodeId>,
                     reachable: NodeId -> bool)
      returns (localSends: seq<C>, remoteSends: seq<(NodeId, seq<int>)>, refused: seq<NodeId>,
               stored: seq<int>, unbound: seq<int>, ghost run: seq<HandlerStep>)
      modifies this
      ensures localSends == Found(|members|, found)
      ensures var ids := Missing(members, found);
              var remote := Grouped(ids, resolve, self);
              && unbound == ResolvedTo(ids, resolve, Some(self))
              && ProperBatches(remoteSends, refused, remote, remote.Keys, reachable)
      ensures Leads(Start(members), run, self,
                    Handler([], [], [], map[], [], Present(members, found), remoteSends, stored))
      ensures multiset(members) == multiset(Present(members, found)) + multiset(UsersOf(remoteSends)) + multiset(stored)
      ensures localDeliveryCount == old(localDeliveryCount) + |localSends|
      ensures remoteRouteCount == old(remoteRouteCount) + |remoteSends|
      ensures remoteRouteFailCount == old(remoteRouteFailCount) + |refused|
      ensures offlineFallbackCount == old(offlineFallbackCount) + |stored|
      ensures staleSessionCount == old(staleSessionCount) + |unbound|
    {
      var localConns, ids, remote, offline, fallback;
      ghost var r1, r2, r3, r4, r5;
      localConns, ids, r1 := SplitLocal(members, found);
      ghost var h1 := Start(members).(scan := [], local := Present(members, found), unresolved := ids);
      remote, offline, unbound, r2 := ResolveAll(ids, resolve, h1);
      ghost var h2 := h1.(unresolved := [], batches := remote, offline := offline);
      localSends, r3 := SendLocals(localConns, h2);
      ghost var h3 := h2.(local := [], sentLocal := h1.local);
      remoteSends, refused, fallback, r4 := SendBatches(remote, reachable, h3);
      ghost var h4 := h3.(batches := map[], sends := remoteSends, offline := offline + fallback);
      stored, r5 := StoreOffline(offline + fallback, h4);
      run := FiveLoops(members, self, r1, h1, r2, h2, r3, h3, r4, h4, r5, h4.(offline := [], stored := stored));
    }
  }

  lemma FiveLoops<A>(members: seq<A>, self: NodeId, r1: seq<HandlerStep>, h1: Handler<A>, r2: seq<HandlerStep>,
                     h2: Handler<A>, r3: seq<HandlerStep>, h3: Handler<A>, r4: seq<HandlerStep>, h4: Handler<A>,
                     r5: seq<HandlerStep>, h5: Handler<A>)
    returns (run: seq<HandlerStep>)
    requires Leads(Start(members), r1, self, h1) && Leads(h1, r2, self, h2) && Leads(h2, r3, self, h3)
    requires Leads(h3, r4, self, h4) && Leads(h4, r5, self, h5)
    requires h5.scan == [] && h5.local == [] && h5.unresolved == [] && h5.batches == map[] && h5.offline == []
    ensures Leads(Start(members), run, self, h5)
    ensures multiset(members) == multiset(h5.sentLocal) + multiset(UsersOf(h5.sends)) + multiset(h5.stored)
  {
    run := Joined(Start(members), r1, h1, r2, self, h2);
    run := Joined(Start(members), run, h2, r3, self, h3);
    run := Joined(Start(members), run, h3, r4, self, h4);
    run := Joined(Start(members), run, h4, r5, self, h5);
    EveryoneServed(members, run, self, h5);
  }

  lemma {:induction false} Joined<A>(h0: Handler<A>, run: seq<HandlerStep>, h: Handler<A>, more: seq<HandlerStep>,
                                     self: NodeId, h': Handler<A>)
    returns (joined: seq<HandlerStep>)
    requires Leads(h0, run, self, h) && Leads(h, more, self, h')
    ensures joined == run + more && Leads(h0, joined, self, h')
    decreases |more|
  {
    joined := run + more;
    if more == [] {
      assert joined == run;
    } else {
      var front, last := more[..|more| - 1], more[|more| - 1];
      var before := Joined(h0, run, h, front, self, After(h, front, self));
      LeadsOn(h0, before, self, After(h, front, self), last);
      assert before + [last] == joined;
    }
  }

  function AsSet<K>(ks: seq<K>): set<K> {
    if ks == [] then {} else AsSet(ks[..|ks| - 1]) + {ks[|ks| - 1]}
  }

  predicate Once<K(==)>(ks: seq<K>) {
    ks == [] || (Once(ks[..|ks| - 1]) && ks[|ks| - 1] !in AsSet(ks[..|ks| - 1]))
  }

  lemma {:induction false} OneMore<K>(ks: seq<K>, k: K)
    requires Once(ks) && k !in AsSet(ks)
    ensures Once(ks + [k]) && AsSet(ks + [k]) == AsSet(ks) + {k} && (ks + [k])[..|ks|] == ks
  {
  }

  // The batches sent, the nodes refused and the users who fall back when the nodes
  // are tried in some order.
  function Reached<A>(order: seq<NodeId>, remote: Batches<A>, reachable: NodeId -> bool): seq<(NodeId, seq<A>)>
  {
    if order == [] then []
    else
      var n := order[|order| - 1];
      Reached(order[..|order| - 1], remote, reachable) + (if reachable(n) then [(n, BatchOf(remote, n))] else [])
  }

  function Unreached(order: seq<NodeId>, reachable: NodeId -> bool): seq<NodeId> {
    if order == [] then []
    else
      var n := order[|order| - 1];
      Unreached(order[..|order| - 1], reachable) + (if reachable(n) then [] else [n])
  }

  function FallenBack<A>(order: seq<NodeId>, remote: Batches<A>, reachable: NodeId -> bool): seq<A>
  {
    if order == [] then []
    else
      var n := order[|order| - 1];
      FallenBack(order[..|order| - 1], remote, reachable) + (if reachable(n) then [] else BatchOf(remote, n))
  }

  lemma NextNode<A>(order: seq<NodeId>, n: NodeId, remote: Batches<A>, reachable: NodeId -> bool)
    ensures Reached(order + [n], remote, reachable)
         == Reached(order, remote, reachable) + if reachable(n) then [(n, BatchOf(remote, n))] else []
    ensures Unreached(order + [n], reachable) == Unreached(order, reachable) + if reachable(n) then [] else [n]
    ensures FallenBack(order + [n], remote, reachable)
         == FallenBack(order, remote, reachable) + if reachable(n) then [] else BatchOf(remote, n)
  {
    assert (order + [n])[..|order|] == order;
  }

  lemma {:induction false} EachNodeOnce<A>(order: seq<NodeId>, remote: Batches<A>, reachable: NodeId -> bool)
    requires AsSet(order) <= remote.Keys && Once(order)
    ensures ProperBatches(Reached(order, remote, reachable), Unreached(order, reachable), remote, AsSet(order),
            reachable)
  {
    if order != [] {
      var front, n := order[..|order| - 1], order[|order| - 1];
      EachNodeOnce(front, remote, reachable);
      NextBatch(Reached(front, remote, reachable), Unreached(front, reachable), remote, AsSet(front), reachable, n);
    }
  }

  // The handler's steps when it tries the nodes in that order.
  lemma {:induction false} TryAll<A>(h0: Handler<A>, order: seq<NodeId>, remote: Batches<A>, reachable: NodeId -> bool,
                                     self: NodeId)
    returns (run: seq<HandlerStep>)
    requires h0.scan == [] && h0.unresolved == [] && h0.local == [] && h0.batches == remote && h0.sends == []
    requires AsSet(order) <= remote.Keys && Once(order)
    ensures Leads(h0, run, self, h0.(batches := remote - AsSet(order), sends := Reached(order, remote, reachable),
                                     offline := h0.offline + FallenBack(order, remote, reachable)))
    decreases |order|
  {
    run := [];
    if order == [] {
      assert remote - AsSet(order) == remote;
    } else {
      var front, n := order[..|order| - 1], order[|order| - 1];
      run := TryAll(h0, front, remote, reachable, self);
      var h := h0.(batches := remote - AsSet(front), sends := Reached(front, remote, reachable),
                   offline := h0.offline + FallenBack(front, remote, reachable));
      LeadsOn(h0, run, self, h, Try(n, reachable(n)));
      run := run + [Try(n, reachable(n))];
      assert remote - AsSet(front) - {n} == remote - AsSet(order);
    }
  }

  lemma AllTried<A>(h0: Handler<A>, order: seq<NodeId>, remote: Batches<A>, reachable: NodeId -> bool, self: NodeId)
    returns (run: seq<HandlerStep>)
    requires h0.scan == [] && h0.unresolved == [] && h0.local == [] && h0.batches == remote && h0.sends == []
    requires Once(order) && AsSet(order) == remote.Keys
    ensures var sends := Reached(order, remote, reachable);
            && ProperBatches(sends, Unreached(order, reachable), remote, remote.Keys, reachable)
            && Leads(h0, run, self, h0.(batches := map[], sends := sends,
                                        offline := h0.offline + FallenBack(order, remote, reachable)))
  {
    EachNodeOnce(order, remote, reachable);
    run := TryAll(h0, order, remote, reachable, self);
    assert remote - remote.Keys == map[];
  }

  lemma NextBatch<A>(sends: seq<(NodeId, seq<A>)>, refused: seq<NodeId>, remote: Batches<A>, nodes: set<NodeId>,
                     reachable: NodeId -> bool, n: NodeId)
    requires ProperBatches(sends, refused, remote, nodes, reachable) && n in remote && n !in nodes
    ensures reachable(n) ==> ProperBatches(sends + [(n, remote[n])], refused, remote, nodes + {n}, reachable)
    ensures !reachable(n) ==> ProperBatches(sends, refused + [n], remote, nodes + {n}, reachable)
  {
  }
}
