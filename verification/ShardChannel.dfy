/**
 ClusterRouter::ShardChannel: the sending side of one connection to another node.
 Each section below is the work a thread does under the channel's mutex.
 */
module ShardChannel {
  import opened Wrappers
  import opened ChannelState
  import opened ChannelProtocol

  class ShardChannel<T(==)> {
    const endpoint: Endpoint
    const pendingLimit: nat
    var connection: Option<nat>
    var pending: seq<T>
    var connecting: bool
    var overloaded: bool
    var closing: bool
    var sent: seq<(nat, T)> // the calls of connection->send, with the connection they went to

    ghost function View(): Channel<T>
      reads this
    {
      Channel(pendingLimit, connection, pending, connecting, overloaded, closing)
    }

    constructor (endpoint: Endpoint, limit: nat)
      ensures this.endpoint == endpoint && View() == NewChannel(limit) && sent == []
    {
      this.endpoint := endpoint;
      pendingLimit := limit;
      connection, pending, connecting, overloaded, closing, sent := None, [], false, false, false, [];
    }

    // direct: connected, not overloaded, nothing waiting. Otherwise there must be room,
    // whether or not a connection is up or under way.
    method EnqueueOrSend(live: Option<nat>, message: T) returns (verdict: Verdict)
      modifies this
      ensures (View(), verdict) == Enqueue(old(View()), live, message)
      ensures var up := old(connection).Some? && old(connection) == live;
              var direct := !old(closing) && up && !old(overloaded) && old(pending) == [];
              var queued := !old(closing) && !direct && |old(pending)| < pendingLimit;
              && (verdict.SendNow? <==> direct) && (verdict.Queued? <==> queued)
              && (verdict == Queued(ScheduleConnect) <==> queued && !up && !old(connecting))
              && (verdict == Queued(ScheduleDrain) <==> queued && up && !old(overloaded))
              && sent == old(sent) + (if direct then [(old(connection).value, message)] else [])
              && pending == old(pending) + (if queued then [message] else [])
              && (connecting <==> old(connecting) || (queued && !up))
              && connection == old(connection) && overloaded == old(overloaded) && closing == old(closing)
    {
      if closing {
        return Refused;
      }
      var connected := connection.Some? && connection == live;
      if connected && !overloaded && pending == [] {
        sent := sent + [(connection.value, message)];
        return SendNow(connection.value);
      }
      if |pending| >= pendingLimit {
        return Refused;
      }
      pending := pending + [message];
      if !connected && !connecting {
        connecting := true;
        return Queued(ScheduleConnect);
      } else if connected && !overloaded {
        return Queued(ScheduleDrain);
      }
      return Queued(Nothing);
    }

    // Undisturbed, the loop empties the queue in order, or does nothing at all. From
    // any protocol state s in which the channel is as here and a drain is due, it is a
    // run of that drain, whatever effect each send has.
    method DrainPendingInLoop(live: Option<nat>, ghost s: State<T>, ghost effect: nat -> Effect)
      returns (ghost run: seq<Step<T>>)
      requires s.c.ch == View() && Live(s.c.link) == live && s.c.drainDue > 0 && s.log.inflight == []
      requires s.c.link.Up? ==> s.c.link.id < |s.log.released| && s.c.link.id < |s.log.wires|
      modifies this
      ensures var c := old(View());
              View() == if MayPop(c, live) then c.(pending := []) else c
      ensures sent == old(sent) + if MayPop(old(View()), live)
                                  then Tagged(old(connection).value, old(pending)) else []
      ensures IsRun(s, run)
      ensures var t := After(s, run);
              && t.c.ch == View() && t.c.link == s.c.link && t.c.drainDue == s.c.drainDue - 1
              && t.log == if MayPop(old(View()), live) then Wrote(s.log, s.c.link, old(pending)) else s.log
    {
      ghost var before, may := View(), MayPop(View(), live);
      run := DrainRun(s, [], s, effect);
      assert pending[|pending|..] == [];
      while !closing && !overloaded && connection.Some? && connection == live && pending != []
        invariant View() == before.(pending := pending)
        invariant !may ==> pending == before.pending && sent == old(sent)
        invariant may ==> old(sent) + Tagged(connection.value, before.pending)
                          == sent + Tagged(connection.value, pending)
        decreases |pending|
      {
        TaggedFirst(sent, connection.value, pending);
        sent := sent + [(connection.value, pending[0])];
        pending := pending[1..];
      }
    }

    method PrewarmSection(live: Option<nat>) returns (shouldConnect: bool)
      modifies this
      ensures shouldConnect == WantsPrewarm(old(View()), live)
      ensures shouldConnect <==> !closing && !(connection.Some? && connection == live) && !old(connecting)
      ensures View() == if shouldConnect then old(View()).(connecting := true) else old(View())
      ensures sent == old(sent)
    {
      shouldConnect := !closing && !(connection.Some? && connection == live) && !connecting;
      if shouldConnect {
        connecting := true;
      }
    }

    method ConnectSection(live: Option<nat>) returns (goOn: bool)
      modifies this
      ensures goOn == WantsConnect(old(View()), live)
      ensures goOn <==> !closing && !(connection.Some? && connection == live)
      ensures View() == if goOn then old(View()) else NotConnecting(old(View()))
      ensures connecting == (goOn && old(connecting)) && pending == old(pending)
      ensures sent == old(sent)
    {
      goOn := true;
      if closing || (connection.Some? && connection == live) {
        connecting, goOn := false, false;
      }
    }

    // up is the new connection, or None when the old one has gone down.
    method ConnectionSection(up: Option<nat>)
      modifies this
      ensures View() == if up.Some? then Established(old(View()), up.value) else Disconnected(old(View()))
      ensures connection == up && !overloaded && connecting == (up.None? && !closing)
      ensures pending == old(pending) && closing == old(closing)
      ensures sent == old(sent)
    {
      if up.Some? {
        connection, connecting, overloaded := up, false, false;
        return;
      }
      connection := None;
      overloaded := false;
      connecting := !closing;
    }

    method OverloadSection(high: bool)
      modifies this
      ensures View() == old(View()).(overloaded := high) && sent == old(sent)
    {
      overloaded := high;
    }

    method StopSection() returns (dropped: Option<nat>)
      modifies this
      ensures View() == Stopped(old(View())) && dropped == old(connection) && sent == old(sent)
      ensures closing && !connecting && pending == [] && connection == None
    {
      closing := true;
      connecting := false;
      pending := [];
      dropped := connection;
      connection := None;
    }
  }

  function Tagged<T>(conn: nat, ms: seq<T>): seq<(nat, T)> {
    if ms == [] then [] else [(conn, ms[0])] + Tagged(conn, ms[1..])
  }

  lemma TaggedFirst<T>(sent: seq<(nat, T)>, conn: nat, ms: seq<T>)
    requires ms != []
    ensures sent + Tagged(conn, ms) == sent + [(conn, ms[0])] + Tagged(conn, ms[1..])
  {
  }

  // ----- the drain loop as a run of the protocol -----

  // The log once ms have been taken for the connection that is up and written to it.
  function Wrote<T>(log: Log<T>, link: Link, ms: seq<T>): Log<T> {
    if link.Up? && link.id < |log.released| && link.id < |log.wires| then
      log.(released := log.released[link.id := log.released[link.id] + ms],
           wires := log.wires[link.id := log.wires[link.id] + ms])
    else log
  }

  lemma WroteNothing<T>(log: Log<T>, link: Link)
    ensures Wrote(log, link, []) == log
  {
    if link.Up? && link.id < |log.released| && link.id < |log.wires| {
      assert log.released[link.id] + [] == log.released[link.id] && log.wires[link.id] + [] == log.wires[link.id];
    }
  }

  lemma WroteMore<T>(log: Log<T>, link: Link, m: T, ms: seq<T>)
    ensures Wrote(Wrote(log, link, [m]), link, ms) == Wrote(log, link, [m] + ms)
  {
    if link.Up? && link.id < |log.released| && link.id < |log.wires| {
      assert log.released[link.id] + [m] + ms == log.released[link.id] + ([m] + ms);
      assert log.wires[link.id] + [m] + ms == log.wires[link.id] + ([m] + ms);
    }
  }

  lemma WroteInTurn<T>(log: Log<T>, link: Link, ms: seq<T>)
    requires ms != []
    ensures var first := Wrote(log, link, [ms[0]]);
            Wrote(first, link, ms[1..]) == Wrote(log, link, ms) && Wrote(first, link, []) == first
  {
    WroteMore(log, link, ms[0], ms[1..]);
    assert [ms[0]] + ms[1..] == ms;
    WroteNothing(Wrote(log, link, [ms[0]]), link);
  }

  // One turn, at the end of a run: the lock section that pops, and the send; a message
  // can only be written at once while the output buffer is empty.
  lemma PopAndSend<T>(s0: State<T>, run: seq<Step<T>>, s: State<T>, wanted: Effect)
    returns (longer: seq<Step<T>>, t: State<T>)
    requires IsRun(s0, run) && After(s0, run) == s
    requires s.c.drainDue > 0 && s.log.inflight == [] && MayPop(s.c.ch, Live(s.c.link))
    requires s.c.link.id < |s.log.released| && s.c.link.id < |s.log.wires|
    ensures IsRun(s0, longer) && After(s0, longer) == t
    ensures t.c.ch == Pop(s.c.ch) && t.c.link == s.c.link && t.c.drainDue == s.c.drainDue
    ensures t.log == Wrote(s.log, s.c.link, [s.c.ch.pending[0]])
  {
    var popped := Apply(s, Drain);
    var commit := Commit(0, if wanted.Written? && s.c.busy then Buffered else wanted);
    Extend(s0, run, Drain);
    Extend(s0, run + [Drain], commit);
    longer, t := run + [Drain] + [commit], Apply(popped, commit);
  }

  lemma {:induction false} DrainRun<T>(s0: State<T>, run: seq<Step<T>>, s: State<T>, effect: nat -> Effect)
    returns (longer: seq<Step<T>>)
    requires IsRun(s0, run) && After(s0, run) == s && s.c.drainDue > 0 && s.log.inflight == []
    requires s.c.link.Up? ==> s.c.link.id < |s.log.released| && s.c.link.id < |s.log.wires|
    ensures IsRun(s0, longer)
    ensures var t, may := After(s0, longer), MayPop(s.c.ch, Live(s.c.link));
            && t.c.ch == (if may then s.c.ch.(pending := []) else s.c.ch)
            && t.c.link == s.c.link && t.c.drainDue == s.c.drainDue - 1
            && t.log == if may then Wrote(s.log, s.c.link, s.c.ch.pending) else s.log
    decreases |s.c.ch.pending|
  {
    if MayPop(s.c.ch, Live(s.c.link)) {
      var turn, t := PopAndSend(s0, run, s, effect(|run|));
      longer := DrainRun(s0, turn, t, effect);
      WroteInTurn(s.log, s.c.link, s.c.ch.pending);
    } else {
      longer := run + [Drain];
      Extend(s0, run, Drain);
    }
  }
}
