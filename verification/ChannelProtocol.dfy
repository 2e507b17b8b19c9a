/**
 A shard channel among its sender threads, its I/O loop and the network library.
 Every lock section, every loop task and every action of a connection is one
 step; a message popped or passed under the lock is in flight until the send
 that follows it, so any interleaving of locks and sends is a run.

 Assumed of the library: callbacks queued for a connection run before the next
 connection comes up, a connection that goes down is dialled again, and a
 non-empty output buffer is eventually written or its connection fails.
 */
module ChannelProtocol {
  import opened Wrappers
  import opened Bytes
  import opened ChannelState

  datatype Link = Down | Up(id: nat) | Dying(id: nat) // Dying: disconnected, callback still due
  datatype Callback = HighWater | WriteComplete
  datatype Effect = Written | Buffered | BufferedPastMark

  datatype Control<T> = Control(
    ch: Channel<T>,
    link: Link,
    client: bool,              // the TcpClient exists
    dialing: bool,             // it is trying to connect
    connectDue: nat,           // connect tasks posted or about to be posted
    connectStarting: nat,      // connect tasks past their lock section
    drainDue: nat,             // drains about to be posted, queued or running
    stopDue: nat,
    busy: bool,                // the output buffer is not empty
    callbacks: seq<Callback>)  // queued in the loop

  // Where messages are, and where they have been.
  datatype Log<T> = Log(
    accepted: seq<T>,          // enqueueOrSend returned true
    released: seq<seq<T>>,     // per connection: taken under the lock, in lock order
    inflight: seq<(nat, T)>,   // taken for a connection, not yet sent on it
    wires: seq<seq<T>>,        // per connection: accepted by send while connected, in that order
    lost: seq<(nat, T)>,       // sent on a connection that was no longer connected
    cleared: seq<T>)           // dropped by stopChannel

  datatype State<T> = State(c: Control<T>, log: Log<T>)

  function Init<T>(limit: nat): State<T> {
    State(Control(NewChannel(limit), Down, false, false, 0, 0, 0, 0, false, []), Log([], [], [], [], [], []))
  }

  function Live(link: Link): Option<nat> {
    if link.Up? then Some(link.id) else None
  }

  datatype Step<T> =
    | Send(message: T)               // enqueueOrSend's lock section
    | Prewarm
    | ConnectCheck                   // scheduleConnect's lock section
    | ConnectStart                   // ensureClientInLoop and connect
    | LinkUp                         // handleConnection, connected
    | LinkFails
    | LinkDown                       // handleConnection, disconnected
    | Drain                          // one lock section of drainPendingInLoop
    | Commit(i: nat, effect: Effect) // the connection->send of an in-flight message
    | Flush                          // the output buffer has been written out
    | RunCallback
    | Stop                           // stopChannel's lock section
    | StopInLoop

  predicate Enabled<T>(s: State<T>, step: Step<T>) {
    match step
    case Send(_) => true
    case Prewarm => true
    case ConnectCheck => s.c.connectDue > 0
    case ConnectStart => s.c.connectStarting > 0
    case LinkUp => s.c.link.Down? && s.c.dialing && s.c.callbacks == []
    case LinkFails => s.c.link.Up?
    case LinkDown => s.c.link.Dying?
    case Drain => s.c.drainDue > 0
    case Commit(i, effect) => i < |s.log.inflight| && (effect.Written? ==> !s.c.busy)
    case Flush => s.c.link.Up? && s.c.busy
    case RunCallback => s.c.callbacks != []
    case Stop => true
    case StopInLoop => s.c.stopDue > 0
  }

  // ----- the control state after a step -----

  function SendControl<T>(c: Control<T>, m: T): Control<T> {
    var (ch, verdict) := Enqueue(c.ch, Live(c.link), m);
    match verdict
    case Queued(ScheduleConnect) => c.(ch := ch, connectDue := c.connectDue + 1)
    case Queued(ScheduleDrain) => c.(ch := ch, drainDue := c.drainDue + 1)
    case _ => c.(ch := ch)
  }

  // onLive: the message goes to the connection that is up.
  function CommitControl<T>(c: Control<T>, onLive: bool, effect: Effect): Control<T> {
    if !onLive then c
    else match effect
      case Written => c.(callbacks := c.callbacks + [WriteComplete])
      case Buffered => c.(busy := true)
      case BufferedPastMark => c.(busy := true, callbacks := c.callbacks + [HighWater])
  }

  // handleHighWaterMark, or handleWriteComplete and the drain it calls.
  function CallbackControl<T>(c: Control<T>, callback: Callback): Control<T> {
    match callback
    case HighWater => c.(ch := c.ch.(overloaded := true))
    case WriteComplete => c.(ch := c.ch.(overloaded := false), drainDue := c.drainDue + 1)
  }

  function ControlAfter<T>(s: State<T>, step: Step<T>): Control<T>
    requires Enabled(s, step)
  {
    var c := s.c;
    match step
    case Send(m) => SendControl(c, m)
    case Prewarm =>
      if WantsPrewarm(c.ch, Live(c.link))
      then c.(ch := c.ch.(connecting := true), connectDue := c.connectDue + 1) else c
    case ConnectCheck =>
      if WantsConnect(c.ch, Live(c.link))
      then c.(connectDue := c.connectDue - 1, connectStarting := c.connectStarting + 1)
      else c.(connectDue := c.connectDue - 1, ch := NotConnecting(c.ch))
    case ConnectStart =>
      if c.client || !c.ch.closing
      then c.(connectStarting := c.connectStarting - 1, client := true, dialing := true)
      else c.(connectStarting := c.connectStarting - 1, ch := NotConnecting(c.ch))
    case LinkUp =>
      var k := |s.log.released|;
      c.(link := Up(k), ch := Established(c.ch, k), dialing := false, busy := false, drainDue := c.drainDue + 1)
    case LinkFails => c.(link := Dying(c.link.id))
    case LinkDown => c.(link := Down, ch := Disconnected(c.ch), dialing := c.client, busy := false)
    case Drain =>
      if MayPop(c.ch, Live(c.link)) then c.(ch := Pop(c.ch)) else c.(drainDue := c.drainDue - 1)
    case Commit(i, effect) => CommitControl(c, c.link == Up(s.log.inflight[i].0), effect)
    case Flush => c.(busy := false, callbacks := c.callbacks + [WriteComplete])
    case RunCallback =>
      CallbackControl(c.(callbacks := c.callbacks[1..]), c.callbacks[0])
    case Stop => c.(ch := Stopped(c.ch), stopDue := c.stopDue + 1)
    case StopInLoop =>
      c.(stopDue := c.stopDue - 1, client := false, dialing := false,
         link := if c.link.Up? then Dying(c.link.id) else c.link)
  }

  // ----- where the messages are after a step -----

  // Taking a message under the lock for connection k.
  function Take<T>(log: Log<T>, k: nat, m: T): Log<T> {
    if k < |log.released|
    then log.(inflight := log.inflight + [(k, m)], released := log.released[k := log.released[k] + [m]])
    else log
  }

  function Accept<T>(log: Log<T>, m: T): Log<T> {
    log.(accepted := log.accepted + [m])
  }

  function CommitLog<T>(log: Log<T>, link: Link, i: nat): Log<T>
    requires i < |log.inflight|
  {
    var (k, m) := log.inflight[i];
    if link == Up(k) && k < |log.wires|
    then log.(inflight := Without(log.inflight, i), wires := log.wires[k := log.wires[k] + [m]])
    else log.(inflight := Without(log.inflight, i), lost := log.lost + [(k, m)])
  }

  function LogAfter<T>(s: State<T>, step: Step<T>): Log<T>
    requires Enabled(s, step)
  {
    var c, log := s.c, s.log;
    match step
    case Send(m) =>
      (match Enqueue(c.ch, Live(c.link), m).1
       case Refused => log
       case SendNow(k) => Take(Accept(log, m), k, m)
       case Queued(_) => Accept(log, m))
    case LinkUp => log.(released := log.released + [[]], wires := log.wires + [[]])
    case Drain =>
      if MayPop(c.ch, Live(c.link)) then Take(log, c.ch.connection.value, c.ch.pending[0]) else log
    case Commit(i, _) => CommitLog(log, c.link, i)
    case Stop => log.(cleared := log.cleared + c.ch.pending)
    case _ => log
  }

  function Apply<T>(s: State<T>, step: Step<T>): State<T>
    requires Enabled(s, step)
  {
    State(ControlAfter(s, step), LogAfter(s, step))
  }

  // ----- runs -----

  predicate IsRun<T>(s: State<T>, steps: seq<Step<T>>)
    decreases |steps|
  {
    steps == [] || (Enabled(s, steps[0]) && IsRun(Apply(s, steps[0]), steps[1..]))
  }

  function After<T>(s: State<T>, steps: seq<Step<T>>): State<T>
    requires IsRun(s, steps)
    decreases |steps|
  {
    if steps == [] then s else After(Apply(s, steps[0]), steps[1..])
  }

  lemma {:induction false} Extend<T>(s: State<T>, steps: seq<Step<T>>, step: Step<T>)
    requires IsRun(s, steps) && Enabled(After(s, steps), step)
    ensures IsRun(s, steps + [step]) && After(s, steps + [step]) == Apply(After(s, steps), step)
    decreases |steps|
  {
    if steps == [] {
      assert ([] + [step])[1..] == [];
    } else {
      assert (steps + [step])[1..] == steps[1..] + [step];
      Extend(Apply(s, steps[0]), steps[1..], step);
    }
  }

  // ----- what every step keeps -----

  // The connection stored in the channel is the last one, unless it is already gone.
  predicate Shape<T>(s: State<T>) {
    && |s.c.ch.pending| <= s.c.ch.limit
    && |s.log.wires| == |s.log.released|
    && (s.c.link.Up? || s.c.link.Dying? ==> s.c.link.id == |s.log.released| - 1)
    && (s.c.ch.connection.Some? ==> !s.c.link.Down? && s.c.ch.connection.value == s.c.link.id)
    && (forall i :: 0 <= i < |s.log.inflight| ==> s.log.inflight[i].0 < |s.log.released|)
    && (if s.c.ch.closing then s.c.ch.pending == [] else s.log.cleared == [])
  }

  // Taken under the lock, then waiting, then dropped by a stop: in the order of acceptance.
  ghost predicate LockOrder<T>(s: State<T>) {
    Flatten(s.log.released) + s.c.ch.pending + s.log.cleared == s.log.accepted
  }

  // The flags tell the truth about what is outstanding.
  predicate Backed<T>(c: Control<T>) {
    !c.ch.closing ==>
      && c.stopDue == 0
      && (c.ch.connection.Some? <==> !c.link.Down?)
      && (c.link.Up? ==> c.ch.connection == Some(c.link.id))
      && (!c.link.Down? || c.dialing ==> c.client)
      && (c.link.Down? && c.ch.pending != [] ==> c.ch.connecting)
      && (c.link.Down? && c.ch.connecting ==> c.connectDue > 0 || c.connectStarting > 0 || c.dialing)
      && (c.link.Up? && !c.busy ==>
            if c.callbacks == [] then !c.ch.overloaded else c.callbacks[|c.callbacks| - 1].WriteComplete?)
      && (c.link.Up? && !c.ch.overloaded && c.ch.pending != [] ==> c.drainDue > 0)
  }

  predicate IsLinkStep<T>(step: Step<T>) {
    step.LinkUp? || step.LinkFails? || step.LinkDown? || step.StopInLoop? || step.Stop?
  }

  lemma ShapeKept<T>(s: State<T>, step: Step<T>)
    requires Shape(s) && Enabled(s, step)
    ensures Shape(Apply(s, step))
  {
    match step {
      case Send(m) => ShapeSend(s, m);
      case Drain =>
      case Commit(i, effect) => ShapeCommit(s, i, effect);
      case _ =>
        if IsLinkStep(step) {
          ShapeLink(s, step);
        } else {
          ShapeOther(s, step);
        }
    }
  }

  lemma ShapeSend<T>(s: State<T>, m: T)
    requires Shape(s)
    ensures Shape(Apply(s, Send(m)))
  {
  }

  lemma ShapeCommit<T>(s: State<T>, i: nat, effect: Effect)
    requires Shape(s) && Enabled(s, Commit(i, effect))
    ensures Shape(Apply(s, Commit(i, effect)))
  {
  }

  lemma ShapeOther<T>(s: State<T>, step: Step<T>)
    requires Shape(s) && Enabled(s, step) && !step.Send? && !step.Drain? && !step.Commit? && !IsLinkStep(step)
    ensures Shape(Apply(s, step))
  {
  }

  lemma ShapeLink<T>(s: State<T>, step: Step<T>)
    requires Shape(s) && Enabled(s, step) && IsLinkStep(step)
    ensures Shape(Apply(s, step))
  {
  }

  lemma BackedKept<T>(s: State<T>, step: Step<T>)
    requires Shape(s) && Backed(s.c) && Enabled(s, step)
    ensures Backed(ControlAfter(s, step))
  {
    match step {
      case Send(m) => BackedSend(s.c, m);
      case Commit(i, effect) =>
      case _ =>
        if IsLinkStep(step) {
          BackedLink(s, step);
        } else if step.Drain? || step.Flush? || step.RunCallback? {
          BackedDrain(s, step);
        } else {
          BackedConnect(s, step);
        }
    }
  }

  lemma BackedSend<T>(c: Control<T>, m: T)
    requires Backed(c)
    ensures Backed(SendControl(c, m))
  {
  }

  lemma BackedLink<T>(s: State<T>, step: Step<T>)
    requires Shape(s) && Backed(s.c) && Enabled(s, step) && IsLinkStep(step)
    ensures Backed(ControlAfter(s, step))
  {
  }

  lemma BackedDrain<T>(s: State<T>, step: Step<T>)
    requires Shape(s) && Backed(s.c) && Enabled(s, step)
    requires step.Drain? || step.Flush? || step.RunCallback?
    ensures Backed(ControlAfter(s, step))
  {
  }

  lemma BackedConnect<T>(s: State<T>, step: Step<T>)
    requires Shape(s) && Backed(s.c) && Enabled(s, step)
    requires step.Prewarm? || step.ConnectCheck? || step.ConnectStart?
    ensures Backed(ControlAfter(s, step))
  {
  }

  lemma TakeKeepsOrder<T>(log: Log<T>, m: T)
    requires log.released != []
    ensures Flatten(Take(log, |log.released| - 1, m).released) == Flatten(log.released) + [m]
  {
    FlattenGrowLast(log.released, m);
  }

  lemma LockOrderKept<T>(s: State<T>, step: Step<T>)
    requires Shape(s) && LockOrder(s) && Enabled(s, step)
    ensures LockOrder(Apply(s, step))
  {
    match step {
      case Send(m) => LockOrderSend(s, m);
      case Drain => LockOrderDrain(s);
      case LinkUp => FlattenAppend(s.log.released, [[]]);
      case _ => LockOrderOther(s, step);
    }
  }

  lemma LockOrderOther<T>(s: State<T>, step: Step<T>)
    requires Shape(s) && LockOrder(s) && Enabled(s, step) && !step.Send? && !step.Drain? && !step.LinkUp?
    ensures LockOrder(Apply(s, step))
  {
    if !step.Commit? && !step.Stop? {
      assert LogAfter(s, step) == s.log && ControlAfter(s, step).ch.pending == s.c.ch.pending;
    }
  }

  lemma LockOrderDrain<T>(s: State<T>)
    requires Shape(s) && LockOrder(s) && Enabled(s, Drain)
    ensures LockOrder(Apply(s, Drain))
  {
    if MayPop(s.c.ch, Live(s.c.link)) {
      TakeKeepsOrder(s.log, s.c.ch.pending[0]);
    }
  }

  lemma LockOrderSend<T>(s: State<T>, m: T)
    requires Shape(s) && LockOrder(s)
    ensures LockOrder(Apply(s, Send(m)))
  {
    var log, c := s.log, s.c.ch;
    var (ch, verdict) := Enqueue(c, Live(s.c.link), m);
    match verdict {
      case Refused =>
      case SendNow(k) =>
        assert Flatten(log.released) + [] + [] == Flatten(log.released);
        TakeKeepsOrder(Accept(log, m), m);
      case Queued(_) =>
        assert Flatten(log.released) + (c.pending + [m]) + [] == Flatten(log.released) + c.pending + [] + [m];
    }
  }
}
