/**
 The whole delivery path: any number of oneChat and groupChat handlers at any
 number of nodes, the channels between the nodes, each with its receiver, and the
 local dispatchers, all interleaved. An obligation is one message owed to one user;
 it carries its number in the order of creation.
 */
module Cluster {
  import opened Bytes
  import opened Wrappers
  import opened Sums
  import C = ChannelProtocol
  import T = ChannelTheorems
  import S = ChannelState
  import D = LocalDispatcher
  import F = FanOut

  datatype Obligation = Obligation(id: nat, user: int)

  // A frame carries one obligation, a group record those of its whole batch.
  type Packet = seq<Obligation>

  // heard[k]: how many messages of connection k the receiver has handled.
  datatype Route = Route(ch: C.State<Packet>, heard: seq<nat>)

  // One recipient being handled, at node self: by oneChat, or (relay) by a receiver.
  datatype Single = Single(ob: Obligation, self: F.NodeId, relay: bool, stage: F.Stage)

  // A groupChat handler at node self.
  datatype Group = Group(self: F.NodeId, h: F.Handler<Obligation>)

  datatype System = System(
    routes: seq<Route>,
    dispatchers: seq<D.State<Obligation>>,
    singles: seq<Single>,
    groups: seq<Group>,
    direct: seq<Obligation>,   // groupChat's own sends to local connections
    offline: seq<Obligation>,  // inserted in the offline table
    created: seq<Obligation>)

  datatype Step =
    | OneChat(self: F.NodeId, user: int)
    | TryLocal(i: nat, loop: Option<nat>)               // the user's connection, if any, and its loop's dispatcher
    | AskRegistry(i: nat, answer: Option<F.NodeId>)
    | AskRouter(i: nat, route: Option<nat>)               // None: no router or no valid node
    | StoreOne(i: nat)
    | GroupChat(self: F.NodeId, users: seq<int>)
    | GroupStep(g: nat, move: F.HandlerStep, r: nat)    // r: the channel of a batch that is taken
    | RouteStep(r: nat, step: C.Step<Packet>)
    | DispatcherStep(d: nat, task: D.Step<Obligation>)
    | Receive(self: F.NodeId, r: nat, k: nat)           // the next message of connection k

  // The next message of a connection that its receiver has not handled.
  function NextPacket(route: Route, k: nat): Packet
    requires k < |route.heard| && k < |route.ch.log.wires| && route.heard[k] < |route.ch.log.wires[k]|
  {
    route.ch.log.wires[k][route.heard[k]]
  }

  function Fresh(created: seq<Obligation>, users: seq<int>): Packet {
    seq(|users|, i requires 0 <= i < |users| => Obligation(|created| + i, users[i]))
  }

  // enqueueOrSend returns true.
  predicate Accepts(route: Route, packet: Packet) {
    !S.Enqueue(route.ch.c.ch, C.Live(route.ch.c.link), packet).1.Refused?
  }

  predicate Enabled(s: System, step: Step) {
    match step
    case OneChat(_, _) => true
    case TryLocal(i, d) =>
      i < |s.singles| && s.singles[i].stage.AtLocal? && (d.Some? ==> d.value < |s.dispatchers|)
    case AskRegistry(i, _) => i < |s.singles| && s.singles[i].stage.AtRegistry?
    case AskRouter(i, r) =>
      i < |s.singles| && s.singles[i].stage.AtRouter? && (r.Some? ==> r.value < |s.routes|)
    case StoreOne(i) => i < |s.singles| && s.singles[i].stage.AtStore?
    case GroupChat(_, _) => true
    case GroupStep(g, step, r) =>
      && g < |s.groups| && F.Enabled(s.groups[g].h, step)
      && (step.Try? && step.taken ==> r < |s.routes| && Accepts(s.routes[r], s.groups[g].h.batches[step.node]))
    case RouteStep(r, step) => r < |s.routes| && !step.Send? && C.Enabled(s.routes[r].ch, step)
    case DispatcherStep(d, task) => d < |s.dispatchers| && !task.Enqueue? && D.Enabled(s.dispatchers[d], task)
    case Receive(_, r, k) =>
      && r < |s.routes| && k < |s.routes[r].heard| && k < |s.routes[r].ch.log.wires|
      && s.routes[r].heard[k] < |s.routes[r].ch.log.wires[k]|
  }

  function RouteAfter(route: Route, step: C.Step<Packet>): Route
    requires C.Enabled(route.ch, step)
  {
    Route(C.Apply(route.ch, step), if step.LinkUp? then route.heard + [0] else route.heard)
  }

  function OnRoute(s: System, r: nat, step: C.Step<Packet>): System
    requires r < |s.routes| && C.Enabled(s.routes[r].ch, step)
  {
    s.(routes := s.routes[r := RouteAfter(s.routes[r], step)])
  }

  function OnDispatcher(s: System, d: nat, task: D.Step<Obligation>): System
    requires d < |s.dispatchers| && D.Enabled(s.dispatchers[d], task)
  {
    s.(dispatchers := s.dispatchers[d := D.Apply(s.dispatchers[d], task)])
  }

  function Staged(s: System, i: nat, stage: F.Stage): System
    requires i < |s.singles|
  {
    s.(singles := s.singles[i := s.singles[i].(stage := stage)])
  }

  function Finished(s: System, i: nat): System
    requires i < |s.singles|
  {
    s.(singles := Without(s.singles, i))
  }

  function Relayed(packet: Packet, self: F.NodeId): seq<Single> {
    seq(|packet|, i requires 0 <= i < |packet| => Single(packet[i], self, true, F.AtLocal))
  }

  function Heard(s: System, r: nat, k: nat): System
    requires r < |s.routes| && k < |s.routes[r].heard|
  {
    var route := s.routes[r];
    s.(routes := s.routes[r := route.(heard := route.heard[k := route.heard[k] + 1])])
  }

  // The group handler itself moves on.
  function GroupMoved(s: System, g: nat, step: F.HandlerStep): System
    requires g < |s.groups| && F.Enabled(s.groups[g].h, step)
  {
    var group := s.groups[g];
    s.(groups := s.groups[g := group.(h := F.Advance(group.h, step, group.self))])
  }

  function Apply(s: System, step: Step): System
    requires Enabled(s, step)
  {
    match step
    case OneChat(self, user) =>
      var ob := Obligation(|s.created|, user);
      s.(created := s.created + [ob], singles := s.singles + [Single(ob, self, false, F.AtLocal)])
    case TryLocal(i, d) =>
      var x := s.singles[i];
      if d.Some? && !D.Full(s.dispatchers[d.value].q) then OnDispatcher(Finished(s, i), d.value, D.Enqueue(x.ob))
      else Staged(s, i, F.NotLocal(x.relay))
    case AskRegistry(i, answer) => Staged(s, i, F.Resolved(answer, s.singles[i].self))
    case AskRouter(i, r) =>
      var packet := [s.singles[i].ob];
      if r.Some? && Accepts(s.routes[r.value], packet) then OnRoute(Finished(s, i), r.value, C.Send(packet))
      else Staged(s, i, F.AtStore)
    case StoreOne(i) => Finished(s.(offline := s.offline + [s.singles[i].ob]), i)
    case GroupChat(self, users) =>
      var obs := Fresh(s.created, users);
      s.(created := s.created + obs, groups := s.groups + [Group(self, F.Start(obs))])
    case GroupStep(g, step, r) =>
      var h, s' := s.groups[g].h, GroupMoved(s, g, step);
      (match step
       case SendLocal => s'.(direct := s'.direct + [h.local[0]])
       case Try(n, taken) => if taken then OnRoute(s', r, C.Send(h.batches[n])) else s'
       case Store => s'.(offline := s'.offline + [h.offline[0]])
       case _ => s')
    case RouteStep(r, step) => OnRoute(s, r, step)
    case DispatcherStep(d, task) => OnDispatcher(s, d, task)
    case Receive(self, r, k) =>
      Heard(s.(singles := s.singles + Relayed(NextPacket(s.routes[r], k), self)), r, k)
  }

  predicate IsRun(s: System, steps: seq<Step>)
    decreases |steps|
  {
    steps == [] || (Enabled(s, steps[0]) && IsRun(Apply(s, steps[0]), steps[1..]))
  }

  function After(s: System, steps: seq<Step>): System
    requires IsRun(s, steps)
    decreases |steps|
  {
    if steps == [] then s else After(Apply(s, steps[0]), steps[1..])
  }

  // ----- counting one obligation -----

  function Count(xs: seq<Obligation>, o: Obligation): nat {
    multiset(xs)[o]
  }

  // Sums over the packets of each connection up to, and from, the receiver's position.
  function HeardSum(wires: seq<seq<Packet>>, heard: seq<nat>, f: Packet -> nat): nat
    requires InStep(wires, heard)
    decreases |wires|
  {
    if wires == [] then 0
    else
      var n := |wires| - 1;
      HeardSum(wires[..n], heard[..n], f) + Sum(wires[n][..heard[n]], f)
  }

  function UnheardSum(wires: seq<seq<Packet>>, heard: seq<nat>, f: Packet -> nat): nat
    requires InStep(wires, heard)
    decreases |wires|
  {
    if wires == [] then 0
    else
      var n := |wires| - 1;
      UnheardSum(wires[..n], heard[..n], f) + Sum(wires[n][heard[n]..], f)
  }

  predicate InStep(wires: seq<seq<Packet>>, heard: seq<nat>) {
    |wires| == |heard| && forall k :: 0 <= k < |wires| ==> heard[k] <= |wires[k]|
  }

  lemma {:induction false} HeardAndUnheard(wires: seq<seq<Packet>>, heard: seq<nat>, f: Packet -> nat)
    requires InStep(wires, heard)
    ensures Sum(Flatten(wires), f) == HeardSum(wires, heard, f) + UnheardSum(wires, heard, f)
    decreases |wires|
  {
    if wires != [] {
      var n := |wires| - 1;
      FlattenLast(wires);
      SumAppend(Flatten(wires[..n]), wires[n], f);
      SumCut(wires[n], heard[n], f);
      HeardAndUnheard(wires[..n], heard[..n], f);
    }
  }

  lemma {:induction false} HeardUndisturbed(a: seq<seq<Packet>>, b: seq<seq<Packet>>, heard: seq<nat>, f: Packet -> nat)
    requires InStep(a, heard) && |b| == |a| && forall k :: 0 <= k < |a| ==> a[k] <= b[k]
    ensures InStep(b, heard) && HeardSum(b, heard, f) == HeardSum(a, heard, f)
    decreases |a|
  {
    if a != [] {
      var n := |a| - 1;
      HeardUndisturbed(a[..n], b[..n], heard[..n], f);
      assert a[n] <= b[n] && a[n][..heard[n]] == b[n][..heard[n]];
    }
  }

  lemma HeardNewConnection(wires: seq<seq<Packet>>, heard: seq<nat>, f: Packet -> nat)
    requires InStep(wires, heard)
    ensures InStep(wires + [[]], heard + [0])
    ensures HeardSum(wires + [[]], heard + [0], f) == HeardSum(wires, heard, f)
  {
  }

  lemma {:induction false} HeardOneMore(wires: seq<seq<Packet>>, heard: seq<nat>, k: nat, f: Packet -> nat)
    requires InStep(wires, heard) && k < |wires| && heard[k] < |wires[k]|
    ensures InStep(wires, heard[k := heard[k] + 1])
    ensures HeardSum(wires, heard[k := heard[k] + 1], f) == HeardSum(wires, heard, f) + f(wires[k][heard[k]])
    decreases |wires|
  {
    var n, heard' := |wires| - 1, heard[k := heard[k] + 1];
    if k == n {
      assert heard'[..n] == heard[..n];
      assert wires[n][..heard[n] + 1] == wires[n][..heard[n]] + [wires[n][heard[n]]];
      SumPush(wires[n][..heard[n]], wires[n][heard[n]], f);
    } else {
      assert heard'[..n] == heard[..n][k := heard[k] + 1];
      HeardOneMore(wires[..n], heard[..n], k, f);
    }
  }

  // ----- the balance -----

  predicate GoodRoute(route: Route) {
    InStep(route.ch.log.wires, route.heard)
  }

  // How often an obligation is in a packet.
  function In(o: Obligation): Packet -> nat {
    (p: Packet) => Count(p, o)
  }

  // Packets counted by f that a channel has accepted, and that its receiver has handled.
  function Entered(f: Packet -> nat): Route -> nat {
    (route: Route) => Sum(route.ch.log.accepted, f)
  }

  function Left(f: Packet -> nat): Route -> nat {
    (route: Route) => if GoodRoute(route) then HeardSum(route.ch.log.wires, route.heard, f) else 0
  }

  function Taken(o: Obligation): D.State<Obligation> -> nat {
    (d: D.State<Obligation>) => Count(d.accepted, o)
  }

  // In the hands of oneChat or a receiver.
  function InSingle(o: Obligation): Single -> nat {
    (x: Single) => if x.ob == o then 1 else 0
  }

  // In the lists of groupChat.
  ghost function InGroup(o: Obligation): Group -> nat {
    (g: Group) => F.Waiting(g.h, o)
  }

  predicate Sound(s: System) {
    && (forall r :: 0 <= r < |s.routes| ==> GoodRoute(s.routes[r]))
    && (forall i :: 0 <= i < |s.created| ==> s.created[i].id == i)
  }

  // What was created or left a channel is in a handler's hands, was sent or stored,
  // was taken by a dispatcher, or entered a channel.
  ghost predicate Balanced(s: System, o: Obligation) {
    Count(s.created, o) + Sum(s.routes, Left(In(o)))
    == Count(s.direct, o) + Count(s.offline, o) + Sum(s.singles, InSingle(o)) + Sum(s.groups, InGroup(o))
       + Sum(s.dispatchers, Taken(o)) + Sum(s.routes, Entered(In(o)))
  }

  lemma RouteStepKeeps(route: Route, step: C.Step<Packet>, f: Packet -> nat)
    requires GoodRoute(route) && C.Enabled(route.ch, step)
    ensures var t := RouteAfter(route, step);
            && GoodRoute(t) && Left(f)(t) == Left(f)(route)
  {
    var wires, wires' := route.ch.log.wires, C.LogAfter(route.ch, step).wires;
    if step.LinkUp? {
      HeardNewConnection(wires, route.heard, f);
    } else {
      WiresGrow(route.ch, step);
      HeardUndisturbed(wires, wires', route.heard, f);
    }
  }

  lemma WiresGrow(s: C.State<Packet>, step: C.Step<Packet>)
    requires C.Enabled(s, step) && !step.LinkUp?
    ensures var wires' := C.LogAfter(s, step).wires;
            |wires'| == |s.log.wires| && forall k :: 0 <= k < |wires'| ==> s.log.wires[k] <= wires'[k]
  {
  }

  lemma AcceptedOnlyBySend(s: C.State<Packet>, step: C.Step<Packet>)
    requires C.Enabled(s, step)
    ensures C.LogAfter(s, step).accepted == s.log.accepted
            + if step.Send? && !S.Enqueue(s.c.ch, C.Live(s.c.link), step.message).1.Refused? then [step.message] else []
  {
  }

  lemma BalanceRoute(s: System, r: nat, step: C.Step<Packet>, f: Packet -> nat)
    requires Sound(s) && r < |s.routes| && C.Enabled(s.routes[r].ch, step)
    ensures var t := OnRoute(s, r, step);
            var extra := if step.Send? && Accepts(s.routes[r], step.message) then f(step.message) else 0;
            && Sound(t)
            && Sum(t.routes, Entered(f)) == Sum(s.routes, Entered(f)) + extra
            && Sum(t.routes, Left(f)) == Sum(s.routes, Left(f))
  {
    var route := s.routes[r];
    var after := RouteAfter(route, step);
    RouteStepKeeps(route, step, f);
    AcceptedOnlyBySend(route.ch, step);
    if step.Send? {
      SumPush(route.ch.log.accepted, step.message, f);
    }
    SumUpdate(s.routes, r, after, Entered(f));
    SumUpdate(s.routes, r, after, Left(f));
  }

  lemma BalanceFinished(s: System, i: nat, o: Obligation)
    requires i < |s.singles|
    ensures Sum(Finished(s, i).singles, InSingle(o)) + Count([s.singles[i].ob], o) == Sum(s.singles, InSingle(o))
  {
    SumWithout(s.singles, i, InSingle(o));
  }

  lemma BalanceStaged(s: System, i: nat, stage: F.Stage, o: Obligation)
    requires i < |s.singles|
    ensures Sum(Staged(s, i, stage).singles, InSingle(o)) == Sum(s.singles, InSingle(o))
  {
    SumUpdate(s.singles, i, s.singles[i].(stage := stage), InSingle(o));
  }

  lemma BalanceGroup(s: System, g: nat, step: F.HandlerStep, o: Obligation)
    requires g < |s.groups| && F.Enabled(s.groups[g].h, step)
    ensures Sum(GroupMoved(s, g, step).groups, InGroup(o)) + Count(F.Outgoing(s.groups[g].h, step), o)
         == Sum(s.groups, InGroup(o))
  {
    var group := s.groups[g];
    var h' := F.Advance(group.h, step, group.self);
    F.HandlerKeeps(group.h, step, group.self, o);
    SumUpdate(s.groups, g, group.(h := h'), InGroup(o));
  }

  lemma {:induction false} RelayedSum(packet: Packet, self: F.NodeId, o: Obligation)
    ensures Sum(Relayed(packet, self), InSingle(o)) == Count(packet, o)
  {
    if packet != [] {
      RelayedSum(packet[1..], self, o);
      assert Relayed(packet, self)[1..] == Relayed(packet[1..], self);
      assert packet == [packet[0]] + packet[1..];
    }
  }

  lemma BalanceHeard(s: System, r: nat, k: nat, f: Packet -> nat)
    requires Sound(s) && r < |s.routes| && k < |s.routes[r].heard|
             && s.routes[r].heard[k] < |s.routes[r].ch.log.wires[k]|
    ensures var t := Heard(s, r, k);
            && Sound(t)
            && Sum(t.routes, Entered(f)) == Sum(s.routes, Entered(f))
            && Sum(t.routes, Left(f)) == Sum(s.routes, Left(f)) + f(NextPacket(s.routes[r], k))
  {
    var route := s.routes[r];
    var after := route.(heard := route.heard[k := route.heard[k] + 1]);
    HeardOneMore(route.ch.log.wires, route.heard, k, f);
    SumUpdate(s.routes, r, after, Entered(f));
    SumUpdate(s.routes, r, after, Left(f));
  }

  lemma BalanceReceive(s: System, step: Step, o: Obligation)
    requires Sound(s) && Balanced(s, o) && Enabled(s, step) && step.Receive?
    ensures Sound(Apply(s, step)) && Balanced(Apply(s, step), o)
  {
    var packet := NextPacket(s.routes[step.r], step.k);
    var s' := s.(singles := s.singles + Relayed(packet, step.self));
    BalanceHeard(s', step.r, step.k, In(o));
    SumAppend(s.singles, Relayed(packet, step.self), InSingle(o));
    RelayedSum(packet, step.self, o);
  }

  lemma BalanceTryLocal(s: System, step: Step, o: Obligation)
    requires Sound(s) && Balanced(s, o) && Enabled(s, step) && step.TryLocal?
    ensures Sound(Apply(s, step)) && Balanced(Apply(s, step), o)
  {
    var x := s.singles[step.i];
    if step.loop.Some? && !D.Full(s.dispatchers[step.loop.value].q) {
      var d := s.dispatchers[step.loop.value];
      BalanceFinished(s, step.i, o);
      SumUpdate(s.dispatchers, step.loop.value, D.Apply(d, D.Enqueue(x.ob)), Taken(o));
    } else {
      BalanceStaged(s, step.i, F.NotLocal(x.relay), o);
    }
  }

  lemma BalanceAskRouter(s: System, step: Step, o: Obligation)
    requires Sound(s) && Balanced(s, o) && Enabled(s, step) && step.AskRouter?
    ensures Sound(Apply(s, step)) && Balanced(Apply(s, step), o)
  {
    var packet := [s.singles[step.i].ob];
    if step.route.Some? && Accepts(s.routes[step.route.value], packet) {
      BalanceFinished(s, step.i, o);
      BalanceRoute(Finished(s, step.i), step.route.value, C.Send(packet), In(o));
    } else {
      BalanceStaged(s, step.i, F.AtStore, o);
    }
  }

  lemma BalanceGroupStep(s: System, step: Step, o: Obligation)
    requires Sound(s) && Balanced(s, o) && Enabled(s, step) && step.GroupStep?
    ensures Sound(Apply(s, step)) && Balanced(Apply(s, step), o)
  {
    var h, moved := s.groups[step.g].h, GroupMoved(s, step.g, step.move);
    BalanceGroup(s, step.g, step.move, o);
    if step.move.Try? && step.move.taken {
      BalanceRoute(moved, step.r, C.Send(h.batches[step.move.node]), In(o));
    }
  }

  lemma BalanceOneChat(s: System, step: Step, o: Obligation)
    requires Sound(s) && Balanced(s, o) && Enabled(s, step) && step.OneChat?
    ensures Sound(Apply(s, step)) && Balanced(Apply(s, step), o)
  {
    SumAppend(s.singles, [Single(Obligation(|s.created|, step.user), step.self, false, F.AtLocal)], InSingle(o));
  }

  lemma BalanceGroupChat(s: System, step: Step, o: Obligation)
    requires Sound(s) && Balanced(s, o) && Enabled(s, step) && step.GroupChat?
    ensures Sound(Apply(s, step)) && Balanced(Apply(s, step), o)
  {
    var obs := Fresh(s.created, step.users);
    SumAppend(s.groups, [Group(step.self, F.Start(obs))], InGroup(o));
    StartWaits(obs, o);
  }

  lemma StartWaits(obs: Packet, o: Obligation)
    ensures F.Waiting(F.Start(obs), o) == Count(obs, o)
  {
  }

  lemma BalanceTask(s: System, step: Step, o: Obligation)
    requires Sound(s) && Balanced(s, o) && Enabled(s, step)
    requires step.RouteStep? || step.DispatcherStep?
    ensures Sound(Apply(s, step)) && Balanced(Apply(s, step), o)
  {
    match step {
      case RouteStep(r, step) => BalanceRoute(s, r, step, In(o));
      case DispatcherStep(d, task) =>
        SumUpdate(s.dispatchers, d, D.Apply(s.dispatchers[d], task), Taken(o));
    }
  }

  lemma BalanceSingle(s: System, step: Step, o: Obligation)
    requires Sound(s) && Balanced(s, o) && Enabled(s, step) && (step.AskRegistry? || step.StoreOne?)
    ensures Sound(Apply(s, step)) && Balanced(Apply(s, step), o)
  {
    match step {
      case AskRegistry(i, answer) => BalanceStaged(s, i, F.Resolved(answer, s.singles[i].self), o);
      case StoreOne(i) => BalanceFinished(s, i, o);
    }
  }

  lemma BalanceKept(s: System, step: Step, o: Obligation)
    requires Sound(s) && Balanced(s, o) && Enabled(s, step)
    ensures Sound(Apply(s, step)) && Balanced(Apply(s, step), o)
  {
    if step.OneChat? {
      BalanceOneChat(s, step, o);
    } else if step.TryLocal? {
      BalanceTryLocal(s, step, o);
    } else if step.AskRouter? {
      BalanceAskRouter(s, step, o);
    } else if step.GroupChat? {
      BalanceGroupChat(s, step, o);
    } else if step.GroupStep? {
      BalanceGroupStep(s, step, o);
    } else if step.Receive? {
      BalanceReceive(s, step, o);
    } else if step.AskRegistry? || step.StoreOne? {
      BalanceSingle(s, step, o);
    } else {
      BalanceTask(s, step, o);
    }
  }

  // ----- channels and dispatchers keep their own invariants -----

  ghost predicate Deep(s: System) {
    && (forall r :: 0 <= r < |s.routes| ==> T.Inv(s.routes[r].ch))
    && (forall d :: 0 <= d < |s.dispatchers| ==> D.Inv(s.dispatchers[d]))
  }

  lemma RouteDeep(s: System, r: nat, step: C.Step<Packet>)
    requires Deep(s) && r < |s.routes| && C.Enabled(s.routes[r].ch, step)
    ensures Deep(OnRoute(s, r, step))
  {
    T.InvKept(s.routes[r].ch, step);
  }

  lemma DispatcherDeep(s: System, d: nat, task: D.Step<Obligation>)
    requires Deep(s) && d < |s.dispatchers| && D.Enabled(s.dispatchers[d], task)
    ensures Deep(OnDispatcher(s, d, task))
  {
    D.InvKept(s.dispatchers[d], task);
  }

  lemma HeardDeep(s: System, r: nat, k: nat)
    requires Deep(s) && r < |s.routes| && k < |s.routes[r].heard|
    ensures Deep(Heard(s, r, k))
  {
  }

  lemma DeepKept(s: System, step: Step)
    requires Deep(s) && Enabled(s, step)
    ensures Deep(Apply(s, step))
  {
    match step {
      case TryLocal(i, d) =>
        if d.Some? && !D.Full(s.dispatchers[d.value].q) {
          DispatcherDeep(Finished(s, i), d.value, D.Enqueue(s.singles[i].ob));
        }
      case AskRouter(i, r) =>
        if r.Some? && Accepts(s.routes[r.value], [s.singles[i].ob]) {
          RouteDeep(Finished(s, i), r.value, C.Send([s.singles[i].ob]));
        }
      case GroupStep(g, step, r) =>
        if step.Try? && step.taken {
          RouteDeep(GroupMoved(s, g, step), r, C.Send(s.groups[g].h.batches[step.node]));
        }
      case RouteStep(r, step) => RouteDeep(s, r, step);
      case DispatcherStep(d, task) => DispatcherDeep(s, d, task);
      case Receive(self, r, k) =>
        HeardDeep(s.(singles := s.singles + Relayed(NextPacket(s.routes[r], k), self)), r, k);
      case _ =>
    }
  }

  lemma {:induction false} BalanceAlong(s: System, steps: seq<Step>, o: Obligation)
    requires Sound(s) && Deep(s) && Balanced(s, o) && IsRun(s, steps)
    ensures var t := After(s, steps); Sound(t) && Deep(t) && Balanced(t, o)
    decreases |steps|
  {
    if steps != [] {
      DeepKept(s, steps[0]);
      BalanceKept(s, steps[0], o);
      BalanceAlong(Apply(s, steps[0]), steps[1..], o);
    }
  }

  // ----- every obligation in exactly one place -----

  // On the wire but not handled, between lock and send, sent on a dead connection, waiting, or cleared by a stop.
  function InRoute(f: Packet -> nat): Route -> nat {
    (route: Route) =>
      (if GoodRoute(route) then UnheardSum(route.ch.log.wires, route.heard, f) else 0)
      + Sum(T.Messages(route.ch.log.inflight), f) + Sum(T.Messages(route.ch.log.lost), f)
      + Sum(route.ch.c.ch.pending, f) + Sum(route.ch.log.cleared, f)
  }

  // Sent to the client connection, in the drain's batch, or waiting.
  function InDispatcher(o: Obligation): D.State<Obligation> -> nat {
    (d: D.State<Obligation>) => Count(d.sent, o) + Count(Flatten(d.drains), o) + Count(d.q.pending, o)
  }

  lemma RoutePlaces(route: Route, f: Packet -> nat)
    requires GoodRoute(route) && T.Inv(route.ch)
    ensures Entered(f)(route) == Left(f)(route) + InRoute(f)(route)
  {
    var log, pending := route.ch.log, route.ch.c.ch.pending;
    SumAppend(Flatten(log.released), pending, f);
    SumAppend(Flatten(log.released) + pending, log.cleared, f);
    var placed := Flatten(log.wires) + T.Messages(log.inflight) + T.Messages(log.lost);
    assert multiset(placed) == multiset(Flatten(log.released));
    SumPermuted(Flatten(log.released), placed, f);
    SumAppend(Flatten(log.wires), T.Messages(log.inflight), f);
    SumAppend(Flatten(log.wires) + T.Messages(log.inflight), T.Messages(log.lost), f);
    HeardAndUnheard(log.wires, route.heard, f);
  }

  function NewSystem(channelLimits: seq<nat>, dispatcherLimits: seq<nat>): System {
    System(seq(|channelLimits|, i requires 0 <= i < |channelLimits| => Route(C.Init(channelLimits[i]), [])),
           seq(|dispatcherLimits|, i requires 0 <= i < |dispatcherLimits| => D.Init(dispatcherLimits[i])),
           [], [], [], [], [])
  }

  lemma CreatedOnce(s: System, o: Obligation)
    requires Sound(s)
    ensures Count(s.created, o) == if o in s.created then 1 else 0
  {
    if o in s.created {
      var i := o.id;
      assert s.created[i] == o;
      assert s.created == s.created[..i] + [o] + s.created[i + 1..];
      assert o !in s.created[..i] && o !in s.created[i + 1..];
    }
  }

  lemma DispatcherPlaces(d: D.State<Obligation>, o: Obligation)
    requires D.Inv(d)
    ensures Taken(o)(d) == InDispatcher(o)(d)
  {
  }

  // Number of places an obligation is in: with a handler, sent to a client connection
  // directly, in the offline table, with a dispatcher, or in a channel.
  ghost function Places(s: System, o: Obligation): nat {
    Sum(s.singles, InSingle(o)) + Sum(s.groups, InGroup(o)) + Count(s.direct, o) + Count(s.offline, o)
    + Sum(s.dispatchers, InDispatcher(o)) + Sum(s.routes, InRoute(In(o)))
  }

  lemma AllPlaced(s: System, o: Obligation)
    requires Sound(s) && Deep(s) && Balanced(s, o)
    ensures Places(s, o) == Count(s.created, o)
  {
    forall r | 0 <= r < |s.routes|
      ensures Entered(In(o))(s.routes[r]) == Left(In(o))(s.routes[r]) + InRoute(In(o))(s.routes[r])
    {
      RoutePlaces(s.routes[r], In(o));
    }
    forall d | 0 <= d < |s.dispatchers| ensures Taken(o)(s.dispatchers[d]) == InDispatcher(o)(s.dispatchers[d]) {
      DispatcherPlaces(s.dispatchers[d], o);
    }
    SumSplit(s.routes, Entered(In(o)), Left(In(o)), InRoute(In(o)));
    SumSame(s.dispatchers, Taken(o), InDispatcher(o));
  }

  // In every reachable state each obligation created so far is in exactly one
  // place, and nothing is anywhere that was not created.
  lemma ExactlyOnePlace(channelLimits: seq<nat>, dispatcherLimits: seq<nat>, steps: seq<Step>, o: Obligation)
    requires IsRun(NewSystem(channelLimits, dispatcherLimits), steps)
    ensures var s := After(NewSystem(channelLimits, dispatcherLimits), steps);
            Places(s, o) == if o in s.created then 1 else 0
  {
    var s0 := NewSystem(channelLimits, dispatcherLimits);
    NewSystemSound(channelLimits, dispatcherLimits, o);
    NewSystemDeep(channelLimits, dispatcherLimits);
    BalanceAlong(s0, steps, o);
    AllPlaced(After(s0, steps), o);
    CreatedOnce(After(s0, steps), o);
  }

  lemma NewSystemSound(channelLimits: seq<nat>, dispatcherLimits: seq<nat>, o: Obligation)
    ensures var s := NewSystem(channelLimits, dispatcherLimits); Sound(s) && Balanced(s, o)
  {
    var s := NewSystem(channelLimits, dispatcherLimits);
    SumZero(s.routes, Entered(In(o)));
    SumZero(s.routes, Left(In(o)));
    SumZero(s.dispatchers, Taken(o));
  }

  lemma NewSystemDeep(channelLimits: seq<nat>, dispatcherLimits: seq<nat>)
    ensures Deep(NewSystem(channelLimits, dispatcherLimits))
  {
  }
}
