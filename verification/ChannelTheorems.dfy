/** What holds of a shard channel over every run: conservation, progress, and the order of the wire. */
module ChannelTheorems {
  import opened Bytes
  import opened ChannelState
  import opened ChannelProtocol

  // ----- conservation -----

  function Messages<T>(xs: seq<(nat, T)>): seq<T> {
    if xs == [] then [] else [xs[0].1] + Messages(xs[1..])
  }

  lemma {:induction false} MessagesAppend<T>(a: seq<(nat, T)>, b: seq<(nat, T)>)
    ensures Messages(a + b) == Messages(a) + Messages(b)
  {
    if a == [] {
      assert a + b == b;
    } else {
      assert (a + b)[1..] == a[1..] + b;
      MessagesAppend(a[1..], b);
    }
  }

  lemma MessagesPush<T>(xs: seq<(nat, T)>, x: (nat, T))
    ensures Messages(xs + [x]) == Messages(xs) + [x.1]
  {
    MessagesAppend(xs, [x]);
    assert [x][1..] == [];
  }

  lemma MessagesRemoved<T>(xs: seq<(nat, T)>, i: nat)
    requires i < |xs|
    ensures multiset(Messages(xs)) == multiset(Messages(Without(xs, i))) + multiset{xs[i].1}
  {
    var a, b := xs[..i], xs[i + 1..];
    assert xs == (a + [xs[i]]) + b;
    MessagesAppend(a, b);
    MessagesPush(a, xs[i]);
    MessagesAppend(a + [xs[i]], b);
    OneMoreCounts(Messages(a), xs[i].1, Messages(b));
  }

  lemma OneMoreCounts<T>(a: seq<T>, x: T, b: seq<T>)
    ensures multiset((a + [x]) + b) == multiset(a + b) + multiset{x}
  {
  }

  lemma {:induction false} FlattenGrowAt<T>(parts: seq<seq<T>>, k: nat, x: T)
    requires k < |parts|
    ensures multiset(Flatten(parts[k := parts[k] + [x]])) == multiset(Flatten(parts)) + multiset{x}
  {
    var grown := parts[k := parts[k] + [x]];
    if k == 0 {
      assert grown[1..] == parts[1..];
    } else {
      assert grown[1..] == parts[1..][k - 1 := parts[1..][k - 1] + [x]];
      FlattenGrowAt(parts[1..], k - 1, x);
    }
  }

  // Whatever was taken is on a wire, in flight, or was sent on a dead connection.
  ghost predicate Conserved<T>(log: Log<T>) {
    multiset(Flatten(log.released))
    == multiset(Flatten(log.wires)) + multiset(Messages(log.inflight)) + multiset(Messages(log.lost))
  }

  lemma TakeConserves<T>(log: Log<T>, k: nat, m: T)
    requires Conserved(log)
    ensures Conserved(Take(log, k, m))
  {
    if k < |log.released| {
      FlattenGrowAt(log.released, k, m);
      MessagesPush(log.inflight, (k, m));
    }
  }

  lemma CommitConserves<T>(log: Log<T>, link: Link, i: nat)
    requires Conserved(log) && i < |log.inflight|
    ensures Conserved(CommitLog(log, link, i))
  {
    var (k, m) := log.inflight[i];
    MessagesRemoved(log.inflight, i);
    if link == Up(k) && k < |log.wires| {
      FlattenGrowAt(log.wires, k, m);
      Regroup(multiset(Flatten(log.wires)), multiset(Messages(Without(log.inflight, i))),
              multiset(Messages(log.lost)), m);
    } else {
      MessagesPush(log.lost, (k, m));
      Regroup(multiset(Flatten(log.wires)), multiset(Messages(Without(log.inflight, i))),
              multiset(Messages(log.lost)), m);
    }
  }

  lemma Regroup<T>(w: multiset<T>, f: multiset<T>, l: multiset<T>, m: T)
    ensures w + (f + multiset{m}) + l == (w + multiset{m}) + f + l == w + f + (l + multiset{m})
  {
  }

  lemma ConservedKept<T>(s: State<T>, step: Step<T>)
    requires Conserved(s.log) && Enabled(s, step)
    ensures Conserved(LogAfter(s, step))
  {
    match step {
      case Send(m) =>
        var verdict := Enqueue(s.c.ch, Live(s.c.link), m).1;
        if verdict.SendNow? {
          TakeConserves(Accept(s.log, m), verdict.conn, m);
        }
      case LinkUp =>
        FlattenAppend(s.log.released, [[]]);
        FlattenAppend(s.log.wires, [[]]);
      case Drain =>
        if MayPop(s.c.ch, Live(s.c.link)) {
          TakeConserves(s.log, s.c.ch.connection.value, s.c.ch.pending[0]);
        }
      case Commit(i, _) => CommitConserves(s.log, s.c.link, i);
      case _ =>
    }
  }

  // ----- the invariant over runs -----

  ghost predicate Inv<T>(s: State<T>) {
    Shape(s) && LockOrder(s) && Backed(s.c) && Conserved(s.log)
  }

  lemma InvInit<T>(limit: nat)
    ensures Inv(Init<T>(limit))
  {
  }

  lemma InvKept<T>(s: State<T>, step: Step<T>)
    requires Inv(s) && Enabled(s, step)
    ensures Inv(Apply(s, step))
  {
    ShapeKept(s, step);
    LockOrderKept(s, step);
    BackedKept(s, step);
    ConservedKept(s, step);
  }

  lemma {:induction false} InvAlong<T>(s: State<T>, steps: seq<Step<T>>)
    requires Inv(s) && IsRun(s, steps)
    ensures Inv(After(s, steps))
    decreases |steps|
  {
    if steps != [] {
      InvKept(s, steps[0]);
      InvAlong(Apply(s, steps[0]), steps[1..]);
    }
  }

  // Every accepted message is, at any moment, in exactly one of five places; the
  // backlog respects its limit; and locks release messages in acceptance order.
  lemma ChannelConserves<T>(limit: nat, steps: seq<Step<T>>)
    requires IsRun(Init(limit), steps)
    ensures var s := After(Init(limit), steps);
            && multiset(s.log.accepted)
               == multiset(Flatten(s.log.wires)) + multiset(Messages(s.log.inflight)) + multiset(Messages(s.log.lost))
                  + multiset(s.c.ch.pending) + multiset(s.log.cleared)
            && |s.c.ch.pending| <= limit
            && Flatten(s.log.released) + s.c.ch.pending + s.log.cleared == s.log.accepted
  {
    InvInit<T>(limit);
    InvAlong(Init(limit), steps);
    LimitFixed(Init(limit), steps);
  }

  lemma LimitStep<T>(s: State<T>, step: Step<T>)
    requires Enabled(s, step)
    ensures ControlAfter(s, step).ch.limit == s.c.ch.limit
  {
    match step {
      case Send(_) =>
      case Prewarm =>
      case ConnectCheck =>
      case ConnectStart =>
      case LinkUp =>
      case LinkFails =>
      case LinkDown =>
      case Drain =>
      case Commit(_, _) =>
      case Flush =>
      case RunCallback =>
      case Stop =>
      case StopInLoop =>
    }
  }

  lemma {:induction false} LimitFixed<T>(s: State<T>, steps: seq<Step<T>>)
    requires IsRun(s, steps)
    ensures After(s, steps).c.ch.limit == s.c.ch.limit
    decreases |steps|
  {
    if steps != [] {
      LimitStep(s, steps[0]);
      LimitFixed(Apply(s, steps[0]), steps[1..]);
    }
  }

  lemma ClosedStep<T>(s: State<T>, step: Step<T>)
    requires Shape(s) && s.c.ch.closing && Enabled(s, step)
    ensures ControlAfter(s, step).ch.closing
    ensures LogAfter(s, step).accepted == s.log.accepted
  {
  }

  // A stopped channel stays stopped and empty and accepts nothing more.
  lemma {:induction false} ClosedForever<T>(s: State<T>, steps: seq<Step<T>>)
    requires Inv(s) && s.c.ch.closing && IsRun(s, steps)
    ensures var t := After(s, steps);
            t.c.ch.closing && t.c.ch.pending == [] && t.log.accepted == s.log.accepted
    decreases |steps|
  {
    if steps != [] {
      InvKept(s, steps[0]);
      ClosedStep(s, steps[0]);
      ClosedForever(Apply(s, steps[0]), steps[1..]);
    }
  }

  // ----- progress -----

  // Steps of the I/O loop and of a connection that keeps working; no new sends, failures or stops.
  predicate Internal<T>(step: Step<T>) {
    step.ConnectCheck? || step.ConnectStart? || step.LinkUp? || step.LinkDown? || step.Drain? || step.Commit?
    || step.Flush? || step.RunCallback?
  }

  predicate AllInternal<T>(steps: seq<Step<T>>) {
    forall i :: 0 <= i < |steps| ==> Internal(steps[i])
  }

  function LinkWork(link: Link): nat {
    match link case Up(_) => 0 case Down => 2 case Dying(_) => 3
  }

  function ControlWork<T>(c: Control<T>): nat {
    7 * |c.ch.pending| + (if c.busy then 3 else 0) + 2 * |c.callbacks| + c.drainDue + 2 * c.connectDue
    + c.connectStarting + LinkWork(c.link)
  }

  // Work left before the channel comes to rest.
  function Work<T>(s: State<T>): nat {
    ControlWork(s.c) + 6 * |s.log.inflight|
  }

  lemma WorkShrinks<T>(s: State<T>, step: Step<T>)
    requires Shape(s) && Enabled(s, step) && Internal(step)
    ensures Work(Apply(s, step)) < Work(s)
    ensures Apply(s, step).c.ch.closing == s.c.ch.closing
  {
    match step {
      case Commit(i, effect) => CommitShrinks(s, i, effect);
      case Drain => DrainShrinks(s);
      case RunCallback => CallbackShrinks(s);
      case _ => LinkShrinks(s, step);
    }
  }

  lemma CommitShrinks<T>(s: State<T>, i: nat, effect: Effect)
    requires i < |s.log.inflight|
    ensures |CommitLog(s.log, s.c.link, i).inflight| == |s.log.inflight| - 1
    ensures forall onLive :: ControlWork(CommitControl(s.c, onLive, effect)) < ControlWork(s.c) + 6
    ensures forall onLive :: CommitControl(s.c, onLive, effect).ch == s.c.ch
  {
  }

  lemma DrainShrinks<T>(s: State<T>)
    requires Shape(s) && s.c.drainDue > 0
    ensures Work(Apply(s, Drain)) < Work(s)
    ensures Apply(s, Drain).c.ch.closing == s.c.ch.closing
  {
  }

  lemma CallbackShrinks<T>(s: State<T>)
    requires Enabled(s, RunCallback)
    ensures ControlWork(ControlAfter(s, RunCallback)) < ControlWork(s.c)
  {
  }

  lemma LinkShrinks<T>(s: State<T>, step: Step<T>)
    requires Enabled(s, step)
    requires step.ConnectCheck? || step.ConnectStart? || step.LinkUp? || step.LinkDown? || step.Flush?
    ensures ControlWork(ControlAfter(s, step)) < ControlWork(s.c)
    ensures ControlAfter(s, step).ch.closing == s.c.ch.closing
  {
  }

  // Nothing internal is left to happen.
  ghost predicate AtRest<T(!new)>(s: State<T>) {
    forall step: Step<T> :: Internal(step) ==> !Enabled(s, step)
  }

  lemma RestMeansEmpty<T(!new)>(s: State<T>)
    requires Shape(s) && Backed(s.c) && !s.c.ch.closing && AtRest(s)
    ensures s.c.ch.pending == [] && s.log.inflight == []
  {
    assert !Enabled(s, ConnectCheck) && !Enabled(s, ConnectStart) && !Enabled(s, LinkDown) && !Enabled(s, Drain);
    assert !Enabled(s, RunCallback) && !Enabled(s, Flush) && !Enabled(s, LinkUp);
    assert !Enabled(s, Commit(0, Buffered));
  }

  // No backlog is ever stranded: from any reachable state of a channel that has not
  // been stopped, the loop and the connection can only take a bounded number of
  // steps, and when they come to rest everything accepted has been sent.
  lemma {:induction false} NoStrandedBacklog<T(!new)>(s: State<T>, more: seq<Step<T>>)
    requires Inv(s) && !s.c.ch.closing && IsRun(s, more) && AllInternal(more)
    ensures |more| <= Work(s)
    ensures AtRest(After(s, more)) ==>
              var t := After(s, more);
              && t.c.ch.pending == [] && t.log.inflight == []
              && multiset(t.log.accepted) == multiset(Flatten(t.log.wires)) + multiset(Messages(t.log.lost))
    decreases |more|
  {
    if more == [] {
      if AtRest(s) {
        RestMeansEmpty(s);
        assert s.log.cleared == [];
      }
    } else {
      WorkShrinks(s, more[0]);
      InvKept(s, more[0]);
      assert AllInternal(more[1..]);
      NoStrandedBacklog(Apply(s, more[0]), more[1..]);
    }
  }
}
