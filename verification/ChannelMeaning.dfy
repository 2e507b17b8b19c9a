/**
 What each section and task does to a channel that has come about by a run, told by
 its flags, its backlog and its logs alone.
 */
module ChannelMeaning {
  import opened Wrappers
  import opened Bytes
  import opened ChannelState
  import opened ChannelProtocol
  import opened ChannelTheorems

  ghost predicate Reached<T>(limit: nat, steps: seq<Step<T>>, s: State<T>) {
    IsRun(Init(limit), steps) && After(Init(limit), steps) == s
  }

  lemma ReachedInv<T>(limit: nat, steps: seq<Step<T>>, s: State<T>)
    requires Reached(limit, steps, s)
    ensures Inv(s) && s.c.ch.limit == limit
  {
    InvInit<T>(limit);
    InvAlong(Init(limit), steps);
    LimitFixed(Init(limit), steps);
  }

  // Up, not overloaded, nothing waiting.
  predicate Direct<T>(c: Control<T>) {
    !c.ch.closing && c.link.Up? && !c.ch.overloaded && c.ch.pending == []
  }

  // The stored connection is the one that is up, in a channel that has not been stopped.
  predicate UpToDate<T>(s: State<T>) {
    !s.c.ch.closing ==>
      && (s.c.link.Up? <==> Connected(s.c.ch, Live(s.c.link)))
      && (s.c.link.Up? ==> s.c.link.id < |s.log.released|)
  }

  // What a send does: direct, queued behind the backlog, or nothing.
  ghost predicate SendOutcome<T>(s: State<T>, m: T, limit: nat, t: State<T>) {
    var c := s.c;
    var queued := !c.ch.closing && !Direct(c) && |c.ch.pending| < limit;
    && t.log.accepted == s.log.accepted + (if Direct(c) || queued then [m] else [])
    && t.log.inflight == s.log.inflight + (if Direct(c) then [(c.link.id, m)] else [])
    && t.c.ch.pending == c.ch.pending + (if queued then [m] else [])
    && t.c.connectDue == c.connectDue + (if queued && !c.link.Up? && !c.ch.connecting then 1 else 0)
    && t.c.drainDue == c.drainDue + (if queued && c.link.Up? && !c.ch.overloaded then 1 else 0)
    && (t.c.ch.connecting <==> c.ch.connecting || (queued && !c.link.Up?))
    && t.log.wires == s.log.wires && t.log.lost == s.log.lost && t.log.cleared == s.log.cleared
    && t.c.link == c.link && t.c.ch.overloaded == c.ch.overloaded && t.c.ch.closing == c.ch.closing
  }

  lemma SendFrom<T>(s: State<T>, m: T)
    requires UpToDate(s)
    ensures SendOutcome(s, m, s.c.ch.limit, Apply(s, Send(m)))
  {
    match Enqueue(s.c.ch, Live(s.c.link), m).1 {
      case Refused =>
      case SendNow(_) =>
      case Queued(_) =>
    }
  }

  // A message is accepted exactly when the channel is not stopped and either it can be
  // sent at once or fewer than limit messages wait. It goes straight to the connection
  // in the first case and to the end of the backlog in the second. A connect is asked
  // for exactly when it was queued while the channel is down with none under way, a
  // drain exactly when it was queued while the channel is up and not overloaded.
  lemma SendExactly<T>(limit: nat, steps: seq<Step<T>>, s: State<T>, m: T)
    requires Reached(limit, steps, s)
    ensures SendOutcome(s, m, limit, Apply(s, Send(m)))
  {
    ReachedInv(limit, steps, s);
    SendFrom(s, m);
  }

  // A prewarm asks for a connect exactly when the channel is not stopped, not up, and
  // none is under way; it does nothing else.
  lemma PrewarmExactly<T>(limit: nat, steps: seq<Step<T>>, s: State<T>)
    requires Reached(limit, steps, s)
    ensures var t, asks := Apply(s, Prewarm), !s.c.ch.closing && !s.c.link.Up? && !s.c.ch.connecting;
            && t.log == s.log
            && t.c == if asks then s.c.(ch := s.c.ch.(connecting := true), connectDue := s.c.connectDue + 1) else s.c
  {
    ReachedInv(limit, steps, s);
  }

  // A connect task goes on exactly when the channel is neither stopped nor up.
  lemma ConnectExactly<T>(limit: nat, steps: seq<Step<T>>, s: State<T>)
    requires Reached(limit, steps, s) && Enabled(s, ConnectCheck)
    ensures var t, goesOn := Apply(s, ConnectCheck), !s.c.ch.closing && !s.c.link.Up?;
            && t.log == s.log && t.c.connectDue == s.c.connectDue - 1
            && t.c.connectStarting == s.c.connectStarting + (if goesOn then 1 else 0)
            && t.c.ch.connecting == (goesOn && s.c.ch.connecting) && t.c.ch.pending == s.c.ch.pending
  {
    ReachedInv(limit, steps, s);
  }

  // A drain takes the first waiting message for the connection that is up, exactly when
  // the channel is not stopped, not overloaded and has one; otherwise it ends.
  lemma DrainExactly<T>(limit: nat, steps: seq<Step<T>>, s: State<T>)
    requires Reached(limit, steps, s) && Enabled(s, Drain)
    ensures var t, ch := Apply(s, Drain), s.c.ch;
            var takes := !ch.closing && s.c.link.Up? && !ch.overloaded && ch.pending != [];
            && (takes ==> t.log.inflight == s.log.inflight + [(s.c.link.id, ch.pending[0])]
                          && t.c == s.c.(ch := ch.(pending := ch.pending[1..])))
            && (!takes ==> t.log == s.log && t.c == s.c.(drainDue := s.c.drainDue - 1))
            && t.log.accepted == s.log.accepted
  {
    ReachedInv(limit, steps, s);
  }

  // A connection that comes up is stored, with both flags cleared and a drain asked
  // for; one that goes down is forgotten, and an open channel counts as connecting.
  lemma LinkExactly<T>(s: State<T>)
    ensures Enabled(s, LinkUp) ==>
              var t := Apply(s, LinkUp);
              && t.c.ch == s.c.ch.(connection := Some(|s.log.released|), connecting := false, overloaded := false)
              && t.c.link == Up(|s.log.released|) && t.c.drainDue == s.c.drainDue + 1
    ensures Enabled(s, LinkDown) ==>
              var t := Apply(s, LinkDown);
              && t.c.ch == s.c.ch.(connection := None, connecting := !s.c.ch.closing, overloaded := false)
              && t.c.link == Down && t.log == s.log
  {
  }

  // A stop closes the channel for good and drops the backlog, and only that.
  lemma StopExactly<T>(s: State<T>)
    ensures var t := Apply(s, Stop);
            && t.c.ch == s.c.ch.(closing := true, connecting := false, pending := [], connection := None)
            && t.log == s.log.(cleared := s.log.cleared + s.c.ch.pending)
  {
  }

  // ----- back-pressure -----

  // The high-water callback raises the flag; write-complete lowers it and drains.
  lemma CallbackExactly<T>(s: State<T>)
    requires Enabled(s, RunCallback)
    ensures var t := Apply(s, RunCallback);
            && t.log == s.log && t.c.callbacks == s.c.callbacks[1..] && t.c.ch.pending == s.c.ch.pending
            && (t.c.ch.overloaded <==> s.c.callbacks[0].HighWater?)
            && t.c.drainDue == s.c.drainDue + (if s.c.callbacks[0].HighWater? then 0 else 1)
  {
  }

  predicate Relieves<T>(s: State<T>, step: Step<T>) {
    step.LinkUp? || step.LinkDown? || (step.RunCallback? && s.c.callbacks != [] && s.c.callbacks[0].WriteComplete?)
  }

  ghost predicate NoRelief<T>(s: State<T>, steps: seq<Step<T>>)
    requires IsRun(s, steps)
    decreases |steps|
  {
    steps == [] || (!Relieves(s, steps[0]) && NoRelief(Apply(s, steps[0]), steps[1..]))
  }

  lemma OverloadedStep<T>(s: State<T>, step: Step<T>)
    requires s.c.ch.overloaded && Enabled(s, step) && !Relieves(s, step)
    ensures ControlAfter(s, step).ch.overloaded && LogAfter(s, step).released == s.log.released
  {
  }

  // From high water until write-complete or a new connection, nothing more is released
  // to any connection, whatever is sent and however many drains run.
  lemma {:induction false} OverloadedReleasesNothing<T>(s: State<T>, steps: seq<Step<T>>)
    requires s.c.ch.overloaded && IsRun(s, steps) && NoRelief(s, steps)
    ensures After(s, steps).c.ch.overloaded && After(s, steps).log.released == s.log.released
    decreases |steps|
  {
    if steps != [] {
      OverloadedStep(s, steps[0]);
      OverloadedReleasesNothing(Apply(s, steps[0]), steps[1..]);
    }
  }
}
