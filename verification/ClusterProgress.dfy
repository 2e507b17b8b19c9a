/**
 Progress of the whole delivery path: without new messages, failures and stops it
 does a bounded number of steps, and where it comes to rest every obligation has
 been sent to a client connection, stored, or lost in one of the named ways.
 */
module ClusterProgress {
  import opened Wrappers
  import opened Sums
  import opened Cluster
  import C = ChannelProtocol
  import T = ChannelTheorems
  import S = ChannelState
  import D = LocalDispatcher
  import F = FanOut

  // Steps that neither create an obligation nor break or stop a connection.
  predicate Quiet(step: Step) {
    match step
    case OneChat(_, _) => false
    case GroupChat(_, _) => false
    case RouteStep(_, step) => T.Internal(step)
    case _ => true
  }

  predicate AllQuiet(steps: seq<Step>) {
    forall i :: 0 <= i < |steps| ==> Quiet(steps[i])
  }

  // ----- the work left in each part -----

  // What a packet costs its receiver: itself, and each recipient to be delivered.
  function Load(p: Packet): nat {
    1 + 10 * |p|
  }

  // Packets that the receiver may still have to handle.
  function Burden(route: Route): nat {
    (if GoodRoute(route) then UnheardSum(route.ch.log.wires, route.heard, Load) else 0)
    + Sum(T.Messages(route.ch.log.inflight), Load) + Sum(route.ch.c.ch.pending, Load)
  }

  function RouteWork(route: Route): nat {
    T.Work(route.ch) + Burden(route)
  }

  function SingleWork(x: Single): nat {
    match x.stage
    case AtLocal => if x.relay then 10 else 23
    case AtRegistry => 22
    case AtRouter(_) => 21
    case AtStore => 1
  }

  ghost function GroupWork(g: Group): nat {
    33 * |g.h.scan| + |g.h.local| + 32 * |g.h.unresolved| + 11 * |F.AllHeld(g.h.batches)| + 20 * |g.h.batches.Keys|
    + |g.h.offline|
  }

  ghost function SystemWork(s: System): nat {
    Sum(s.routes, RouteWork) + Sum(s.dispatchers, D.Work) + Sum(s.singles, SingleWork) + Sum(s.groups, GroupWork)
  }

  // ----- channels -----

  lemma BurdenIs(route: Route)
    requires GoodRoute(route) && T.Inv(route.ch)
    ensures Burden(route) + Left(Load)(route) + Sum(T.Messages(route.ch.log.lost), Load)
            + Sum(route.ch.log.cleared, Load)
         == Entered(Load)(route)
  {
    RoutePlaces(route, Load);
  }

  lemma SumPrefix(a: seq<Packet>, b: seq<Packet>)
    requires a <= b
    ensures Sum(a, Load) <= Sum(b, Load)
  {
    SumCut(b, |a|, Load);
  }

  lemma LossesGrow(s: C.State<Packet>, step: C.Step<Packet>)
    requires C.Enabled(s, step)
    ensures T.Messages(s.log.lost) <= T.Messages(C.LogAfter(s, step).lost)
    ensures s.log.cleared <= C.LogAfter(s, step).cleared
  {
    if step.Commit? {
      T.MessagesPush(s.log.lost, s.log.inflight[step.i]);
    }
  }

  lemma RouteShrinks(route: Route, step: C.Step<Packet>)
    requires GoodRoute(route) && T.Inv(route.ch) && C.Enabled(route.ch, step) && T.Internal(step)
    ensures RouteWork(RouteAfter(route, step)) < RouteWork(route)
  {
    T.WorkShrinks(route.ch, step);
    BurdenFalls(route, step);
  }

  lemma BurdenFalls(route: Route, step: C.Step<Packet>)
    requires GoodRoute(route) && T.Inv(route.ch) && C.Enabled(route.ch, step) && !step.Send?
    ensures Burden(RouteAfter(route, step)) <= Burden(route)
  {
    BurdenIs(route);
    T.InvKept(route.ch, step);
    RouteStepKeeps(route, step, Load);
    BurdenIs(RouteAfter(route, step));
    AcceptedOnlyBySend(route.ch, step);
    LossesSum(route.ch, step);
  }

  lemma LossesSum(s: C.State<Packet>, step: C.Step<Packet>)
    requires C.Enabled(s, step)
    ensures Sum(T.Messages(s.log.lost), Load) <= Sum(T.Messages(C.LogAfter(s, step).lost), Load)
    ensures Sum(s.log.cleared, Load) <= Sum(C.LogAfter(s, step).cleared, Load)
  {
    LossesGrow(s, step);
    SumPrefix(T.Messages(s.log.lost), T.Messages(C.LogAfter(s, step).lost));
    SumPrefix(s.log.cleared, C.LogAfter(s, step).cleared);
  }

  lemma SendWork(s: C.State<Packet>, packet: Packet)
    ensures T.Work(C.Apply(s, C.Send(packet))) <= T.Work(s) + 9
  {
    var verdict := S.Enqueue(s.c.ch, C.Live(s.c.link), packet).1;
    SendControlWork(s.c, packet);
    assert |C.LogAfter(s, C.Send(packet)).inflight| <= |s.log.inflight| + if verdict.SendNow? then 1 else 0;
  }

  lemma SendControlWork(c: C.Control<Packet>, packet: Packet)
    ensures T.ControlWork(C.SendControl(c, packet))
         <= T.ControlWork(c) + if S.Enqueue(c.ch, C.Live(c.link), packet).1.SendNow? then 0 else 9
  {
  }

  lemma RouteSends(route: Route, packet: Packet)
    requires GoodRoute(route) && T.Inv(route.ch) && Accepts(route, packet)
    ensures RouteWork(RouteAfter(route, C.Send(packet))) <= RouteWork(route) + 9 + Load(packet)
  {
    var after := RouteAfter(route, C.Send(packet));
    SendWork(route.ch, packet);
    T.InvKept(route.ch, C.Send(packet));
    RouteStepKeeps(route, C.Send(packet), Load);
    AcceptedOnlyBySend(route.ch, C.Send(packet));
    SumPush(route.ch.log.accepted, packet, Load);
    BurdenIs(route);
    BurdenIs(after);
  }

  lemma RouteHears(route: Route, k: nat)
    requires GoodRoute(route) && T.Inv(route.ch) && k < |route.heard| && route.heard[k] < |route.ch.log.wires[k]|
    ensures RouteWork(route.(heard := route.heard[k := route.heard[k] + 1])) + Load(NextPacket(route, k))
         == RouteWork(route)
  {
    HeardOneMore(route.ch.log.wires, route.heard, k, Load);
    BurdenIs(route);
    BurdenIs(route.(heard := route.heard[k := route.heard[k] + 1]));
  }

  // ----- handlers -----

  lemma PushedSize(batches: F.Batches<Obligation>, n: F.NodeId, x: Obligation)
    ensures var after := F.Pushed(batches, n, x);
            |F.AllHeld(after)| == |F.AllHeld(batches)| + 1 && |after.Keys| <= |batches.Keys| + 1
  {
    F.HeldPush(batches, n, x);
    assert F.Pushed(batches, n, x).Keys == batches.Keys + {n};
  }

  lemma DroppedSize(batches: F.Batches<Obligation>, n: F.NodeId)
    requires n in batches
    ensures var after := batches - {n};
            |F.AllHeld(batches)| == |F.AllHeld(after)| + |batches[n]| && |batches.Keys| == |after.Keys| + 1
  {
    F.HeldDrop(batches, n);
    assert (batches - {n}).Keys == batches.Keys - {n};
  }

  // A taken batch leaves enough to pay for its channel and receiver.
  lemma GroupShrinks(g: Group, step: F.HandlerStep)
    requires F.Enabled(g.h, step)
    ensures var after := g.(h := F.Advance(g.h, step, g.self));
            if step.Try? && step.taken
            then GroupWork(after) + 20 + 11 * |g.h.batches[step.node]| == GroupWork(g)
            else GroupWork(after) < GroupWork(g)
  {
    match step {
      case Answer(answer) =>
        if F.Resolved(answer, g.self).AtRouter? {
          PushedSize(g.h.batches, answer.value, g.h.unresolved[0]);
        }
      case Try(n, _) => DroppedSize(g.h.batches, n);
      case _ =>
    }
  }

  lemma RelayedWork(packet: Packet, self: F.NodeId)
    ensures Sum(Relayed(packet, self), SingleWork) == 10 * |packet|
  {
    if packet != [] {
      RelayedWork(packet[1..], self);
      assert Relayed(packet, self)[1..] == Relayed(packet[1..], self);
    }
  }

  // ----- one part of the system replaced -----

  lemma RouteReplaced(s: System, r: nat, route: Route)
    requires r < |s.routes|
    ensures SystemWork(s.(routes := s.routes[r := route])) + RouteWork(s.routes[r]) == SystemWork(s) + RouteWork(route)
  {
    SumUpdate(s.routes, r, route, RouteWork);
  }

  lemma DispatcherReplaced(s: System, d: nat, task: D.Step<Obligation>)
    requires d < |s.dispatchers| && D.Enabled(s.dispatchers[d], task)
    ensures SystemWork(OnDispatcher(s, d, task)) + D.Work(s.dispatchers[d])
         == SystemWork(s) + D.Work(D.Apply(s.dispatchers[d], task))
  {
    SumUpdate(s.dispatchers, d, D.Apply(s.dispatchers[d], task), D.Work);
  }

  lemma SingleFinished(s: System, i: nat)
    requires i < |s.singles|
    ensures SystemWork(Finished(s, i)) + SingleWork(s.singles[i]) == SystemWork(s)
  {
    SumWithout(s.singles, i, SingleWork);
  }

  lemma SingleStaged(s: System, i: nat, stage: F.Stage)
    requires i < |s.singles|
    ensures var x := s.singles[i];
            SystemWork(Staged(s, i, stage)) + SingleWork(x) == SystemWork(s) + SingleWork(x.(stage := stage))
  {
    SumUpdate(s.singles, i, s.singles[i].(stage := stage), SingleWork);
  }

  lemma GroupReplaced(s: System, g: nat, move: F.HandlerStep)
    requires g < |s.groups| && F.Enabled(s.groups[g].h, move)
    ensures var group := s.groups[g];
            SystemWork(GroupMoved(s, g, move)) + GroupWork(group)
            == SystemWork(s) + GroupWork(group.(h := F.Advance(group.h, move, group.self)))
  {
    var group := s.groups[g];
    SumUpdate(s.groups, g, group.(h := F.Advance(group.h, move, group.self)), GroupWork);
  }

  // ----- every quiet step lowers the work -----

  lemma TryLocalShrinks(s: System, step: Step)
    requires Enabled(s, step) && step.TryLocal?
    ensures SystemWork(Apply(s, step)) < SystemWork(s)
  {
    var x := s.singles[step.i];
    if step.loop.Some? && !D.Full(s.dispatchers[step.loop.value].q) {
      SingleFinished(s, step.i);
      DispatcherReplaced(Finished(s, step.i), step.loop.value, D.Enqueue(x.ob));
    } else {
      SingleStaged(s, step.i, F.NotLocal(x.relay));
    }
  }

  // What a send may add to the work of a channel.
  predicate CheapSend(route: Route, packet: Packet) {
    Accepts(route, packet) ==> RouteWork(RouteAfter(route, C.Send(packet))) <= RouteWork(route) + 9 + Load(packet)
  }

  lemma AskRouterShrinks(s: System, step: Step)
    requires Enabled(s, step) && step.AskRouter?
    requires step.route.Some? ==> CheapSend(s.routes[step.route.value], [s.singles[step.i].ob])
    ensures SystemWork(Apply(s, step)) < SystemWork(s)
  {
    var packet := [s.singles[step.i].ob];
    if step.route.Some? && Accepts(s.routes[step.route.value], packet) {
      var r := step.route.value;
      SingleFinished(s, step.i);
      RouteReplaced(Finished(s, step.i), r, RouteAfter(s.routes[r], C.Send(packet)));
    } else {
      SingleStaged(s, step.i, F.AtStore);
    }
  }

  lemma SingleShrinks(s: System, step: Step)
    requires Enabled(s, step) && (step.AskRegistry? || step.StoreOne?)
    ensures SystemWork(Apply(s, step)) < SystemWork(s)
  {
    match step {
      case AskRegistry(i, answer) => SingleStaged(s, i, F.Resolved(answer, s.singles[i].self));
      case StoreOne(i) => SingleFinished(s, i);
    }
  }

  lemma GroupStepShrinks(s: System, step: Step)
    requires Enabled(s, step) && step.GroupStep?
    requires step.move.Try? && step.move.taken ==>
             CheapSend(s.routes[step.r], s.groups[step.g].h.batches[step.move.node])
    ensures SystemWork(Apply(s, step)) < SystemWork(s)
  {
    var g := s.groups[step.g];
    GroupShrinks(g, step.move);
    GroupReplaced(s, step.g, step.move);
    if step.move.Try? && step.move.taken {
      var packet := g.h.batches[step.move.node];
      RouteReplaced(GroupMoved(s, step.g, step.move), step.r, RouteAfter(s.routes[step.r], C.Send(packet)));
    }
  }

  lemma ReceiveShrinks(s: System, step: Step)
    requires Enabled(s, step) && step.Receive?
    requires var route, k := s.routes[step.r], step.k;
             RouteWork(route.(heard := route.heard[k := route.heard[k] + 1])) + Load(NextPacket(route, k))
               == RouteWork(route)
    ensures SystemWork(Apply(s, step)) < SystemWork(s)
  {
    var route, k := s.routes[step.r], step.k;
    var packet := NextPacket(route, k);
    var relaying := s.(singles := s.singles + Relayed(packet, step.self));
    var after := route.(heard := route.heard[k := route.heard[k] + 1]);
    RelaysStarted(s, packet, step.self);
    RouteReplaced(relaying, step.r, after);
    assert Apply(s, step) == relaying.(routes := relaying.routes[step.r := after]);
  }

  lemma RelaysStarted(s: System, packet: Packet, self: F.NodeId)
    ensures SystemWork(s.(singles := s.singles + Relayed(packet, self))) == SystemWork(s) + 10 * |packet|
  {
    SumAppend(s.singles, Relayed(packet, self), SingleWork);
    RelayedWork(packet, self);
  }

  lemma SystemShrinks(s: System, step: Step)
    requires Sound(s) && Deep(s) && Enabled(s, step) && Quiet(step)
    ensures SystemWork(Apply(s, step)) < SystemWork(s)
  {
    match step {
      case TryLocal(_, _) => TryLocalShrinks(s, step);
      case AskRegistry(_, _) => SingleShrinks(s, step);
      case AskRouter(i, route) =>
        if route.Some? && Accepts(s.routes[route.value], [s.singles[i].ob]) {
          RouteSends(s.routes[route.value], [s.singles[i].ob]);
        }
        AskRouterShrinks(s, step);
      case StoreOne(_) => SingleShrinks(s, step);
      case GroupStep(g, move, r) =>
        if move.Try? && move.taken {
          RouteSends(s.routes[r], s.groups[g].h.batches[move.node]);
        }
        GroupStepShrinks(s, step);
      case RouteStep(r, step) =>
        RouteShrinks(s.routes[r], step);
        RouteReplaced(s, r, RouteAfter(s.routes[r], step));
      case DispatcherStep(d, task) =>
        D.WorkShrinks(s.dispatchers[d], task);
        DispatcherReplaced(s, d, task);
      case Receive(_, r, k) =>
        RouteHears(s.routes[r], k);
        ReceiveShrinks(s, step);
    }
  }

  // ----- at rest -----

  // Nothing quiet is left to happen, except that a receiver might still get bytes of
  // a connection that is no longer up.
  ghost predicate AtRest(s: System) {
    forall step: Step :: Quiet(step) && Enabled(s, step) ==> step.Receive? && s.routes[step.r].ch.c.link != C.Up(step.k)
  }

  predicate HandlerDone(h: F.Handler<Obligation>) {
    h.scan == [] && h.unresolved == [] && h.local == [] && h.batches == map[] && h.offline == []
  }

  lemma SingleCanMove(s: System) returns (step: Step)
    requires s.singles != []
    ensures Quiet(step) && Enabled(s, step) && !step.Receive?
  {
    match s.singles[0].stage {
      case AtLocal => step := TryLocal(0, None);
      case AtRegistry => step := AskRegistry(0, None);
      case AtRouter(_) => step := AskRouter(0, None);
      case AtStore => step := StoreOne(0);
    }
  }

  lemma HandlerCanMove(s: System, g: nat) returns (step: Step)
    requires g < |s.groups| && !HandlerDone(s.groups[g].h)
    ensures Quiet(step) && Enabled(s, step) && !step.Receive?
  {
    var h := s.groups[g].h;
    if h.scan != [] {
      step := GroupStep(g, F.Look(false), 0);
    } else if h.unresolved != [] {
      step := GroupStep(g, F.Answer(None), 0);
    } else if h.local != [] {
      step := GroupStep(g, F.SendLocal, 0);
    } else if h.batches != map[] {
      assert h.batches.Keys != {};
      var n :| n in h.batches.Keys;
      step := GroupStep(g, F.Try(n, false), 0);
    } else {
      step := GroupStep(g, F.Store, 0);
    }
  }

  lemma HandlersDone(s: System)
    requires AtRest(s)
    ensures s.singles == []
    ensures forall g :: 0 <= g < |s.groups| ==> HandlerDone(s.groups[g].h)
  {
    if s.singles != [] {
      var _ := SingleCanMove(s);
    }
    forall g | 0 <= g < |s.groups| ensures HandlerDone(s.groups[g].h) {
      if !HandlerDone(s.groups[g].h) {
        var _ := HandlerCanMove(s, g);
      }
    }
  }

  lemma DispatcherDone(s: System, d: nat)
    requires AtRest(s) && Deep(s) && d < |s.dispatchers|
    ensures s.dispatchers[d].sent == s.dispatchers[d].accepted
  {
    var x := s.dispatchers[d];
    D.AllDelivered(x, []);
    if x.sent != x.accepted {
      var next: D.Step<Obligation> :| !next.Enqueue? && D.Enabled(x, next);
      assert Enabled(s, DispatcherStep(d, next));
    }
  }

  lemma RouteDone(s: System, r: nat)
    requires AtRest(s) && Deep(s) && Sound(s) && r < |s.routes|
    ensures var ch := s.routes[r].ch;
            ch.log.inflight == [] && ch.c.ch.pending == []
            && (ch.c.link.Up? && ch.c.link.id < |ch.log.wires| ==>
                  s.routes[r].heard[ch.c.link.id] == |ch.log.wires[ch.c.link.id]|)
  {
    var ch := s.routes[r].ch;
    forall step | T.Internal(step) ensures !C.Enabled(ch, step) {
      assert C.Enabled(ch, step) ==> Enabled(s, RouteStep(r, step));
    }
    assert !C.Enabled(ch, C.Commit(0, C.Buffered));
    if !ch.c.ch.closing {
      T.RestMeansEmpty(ch);
    }
    if ch.c.link.Up? && ch.c.link.id < |ch.log.wires| {
      assert !Enabled(s, Receive("", r, ch.c.link.id));
    }
  }

  // Handed to the client connection.
  function Sent(o: Obligation): D.State<Obligation> -> nat {
    (d: D.State<Obligation>) => Count(d.sent, o)
  }

  // Sent on a dead connection, cleared by a stop, or written to a connection that
  // went down before the receiver had it.
  function Lost(o: Obligation): Route -> nat {
    (route: Route) =>
      (if GoodRoute(route) then UnheardSum(route.ch.log.wires, route.heard, In(o)) else 0)
      + Sum(T.Messages(route.ch.log.lost), In(o)) + Sum(route.ch.log.cleared, In(o))
  }

  // Each obligation is sent directly or by a dispatcher, stored, or lost, once; and what
  // was written to a connection that is up has been handled.
  ghost predicate Settled(s: System, o: Obligation) {
    && Count(s.direct, o) + Sum(s.dispatchers, Sent(o)) + Count(s.offline, o) + Sum(s.routes, Lost(o))
       == Count(s.created, o)
    && forall r :: 0 <= r < |s.routes| ==> LiveHandled(s.routes[r])
  }

  predicate LiveHandled(route: Route) {
    var link := route.ch.c.link;
    link.Up? && link.id < |route.ch.log.wires| && link.id < |route.heard| ==>
      route.heard[link.id] == |route.ch.log.wires[link.id]|
  }

  lemma RestIsSettled(s: System, o: Obligation)
    requires AtRest(s) && Sound(s) && Deep(s) && Balanced(s, o)
    ensures Settled(s, o)
  {
    AllPlaced(s, o);
    NoneInHandlers(s, o);
    NoneInQueues(s, o);
    NoneInChannels(s, o);
  }

  lemma NoneInHandlers(s: System, o: Obligation)
    requires AtRest(s)
    ensures Sum(s.singles, InSingle(o)) == 0 && Sum(s.groups, InGroup(o)) == 0
  {
    HandlersDone(s);
    forall g | 0 <= g < |s.groups| ensures InGroup(o)(s.groups[g]) == 0 {
      NobodyWaits(s.groups[g].h, o);
    }
    SumZero(s.groups, InGroup(o));
  }

  lemma NoneInQueues(s: System, o: Obligation)
    requires AtRest(s) && Deep(s)
    ensures Sum(s.dispatchers, InDispatcher(o)) == Sum(s.dispatchers, Sent(o))
  {
    forall d | 0 <= d < |s.dispatchers| ensures InDispatcher(o)(s.dispatchers[d]) == Sent(o)(s.dispatchers[d]) {
      DispatcherDone(s, d);
      DispatcherPlaces(s.dispatchers[d], o);
    }
    SumSame(s.dispatchers, InDispatcher(o), Sent(o));
  }

  lemma NoneInChannels(s: System, o: Obligation)
    requires AtRest(s) && Sound(s) && Deep(s)
    ensures Sum(s.routes, InRoute(In(o))) == Sum(s.routes, Lost(o))
    ensures forall r :: 0 <= r < |s.routes| ==> LiveHandled(s.routes[r])
  {
    forall r | 0 <= r < |s.routes|
      ensures InRoute(In(o))(s.routes[r]) == Lost(o)(s.routes[r]) && LiveHandled(s.routes[r])
    {
      RouteDone(s, r);
    }
    SumSame(s.routes, InRoute(In(o)), Lost(o));
  }

  lemma NobodyWaits(h: F.Handler<Obligation>, o: Obligation)
    requires HandlerDone(h)
    ensures F.Waiting(h, o) == 0
  {
    assert h.batches.Keys == {};
  }

  // ----- the theorem -----

  lemma {:induction false} QuietRun(s: System, more: seq<Step>, o: Obligation)
    requires Sound(s) && Deep(s) && Balanced(s, o) && IsRun(s, more) && AllQuiet(more)
    ensures |more| <= SystemWork(s)
    ensures AtRest(After(s, more)) ==> Settled(After(s, more), o)
    decreases |more|
  {
    if more == [] {
      if AtRest(s) {
        RestIsSettled(s, o);
      }
    } else {
      SystemShrinks(s, more[0]);
      DeepKept(s, more[0]);
      BalanceKept(s, more[0], o);
      assert AllQuiet(more[1..]);
      QuietRun(Apply(s, more[0]), more[1..], o);
    }
  }

  // From every reachable state, whatever happened before.
  lemma EverythingSettles(channelLimits: seq<nat>, dispatcherLimits: seq<nat>, steps: seq<Step>, more: seq<Step>,
                          o: Obligation)
    requires IsRun(NewSystem(channelLimits, dispatcherLimits), steps)
    requires IsRun(After(NewSystem(channelLimits, dispatcherLimits), steps), more) && AllQuiet(more)
    ensures var s := After(NewSystem(channelLimits, dispatcherLimits), steps);
            && |more| <= SystemWork(s)
            && (AtRest(After(s, more)) ==> Settled(After(s, more), o))
  {
    NewSystemSound(channelLimits, dispatcherLimits, o);
    NewSystemDeep(channelLimits, dispatcherLimits);
    BalanceAlong(NewSystem(channelLimits, dispatcherLimits), steps, o);
    QuietRun(After(NewSystem(channelLimits, dispatcherLimits), steps), more, o);
  }
}
