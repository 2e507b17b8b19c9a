/**
 The order in which a connection carries messages, and what the node at the other
 end hands to its chat service.
 */
module ChannelOrder {
  import opened Bytes
  import opened ChannelState
  import opened ChannelProtocol
  import opened ChannelTheorems
  import opened WireProtocol

  // The in-flight messages of one connection, in the order they were taken.
  function For<T>(xs: seq<(nat, T)>, k: nat): seq<T> {
    if xs == [] then []
    else (if xs[0].0 == k then [xs[0].1] else []) + For(xs[1..], k)
  }

  lemma {:induction false} ForAppend<T>(a: seq<(nat, T)>, b: seq<(nat, T)>, k: nat)
    ensures For(a + b, k) == For(a, k) + For(b, k)
  {
    if a == [] {
      assert a + b == b;
    } else {
      assert (a + b)[1..] == a[1..] + b;
      ForAppend(a[1..], b, k);
      var head := if a[0].0 == k then [a[0].1] else [];
      assert For(a + b, k) == head + (For(a[1..], k) + For(b, k)) == (head + For(a[1..], k)) + For(b, k);
    }
  }

  lemma {:induction false} ForNone<T>(xs: seq<(nat, T)>, k: nat)
    requires forall i :: 0 <= i < |xs| ==> xs[i].0 != k
    ensures For(xs, k) == []
  {
    if xs != [] {
      ForNone(xs[1..], k);
    }
  }

  // Splitting off the i-th message.
  lemma ForSplit<T>(xs: seq<(nat, T)>, i: nat, k: nat)
    requires i < |xs|
    ensures For(xs, k) == For(xs[..i], k) + (if xs[i].0 == k then [xs[i].1] else []) + For(xs[i + 1..], k)
    ensures For(Without(xs, i), k) == For(xs[..i], k) + For(xs[i + 1..], k)
  {
    assert xs == xs[..i] + xs[i..] && xs[i..][1..] == xs[i + 1..];
    ForAppend(xs[..i], xs[i..], k);
    ForAppend(xs[..i], xs[i + 1..], k);
  }

  // ----- sends that keep the lock order -----

  // The send goes to the live connection.
  predicate OnLive<T>(s: State<T>, i: nat) {
    i < |s.log.inflight| && s.c.link == Up(s.log.inflight[i].0)
  }

  // A send on the live connection is that of the message taken first for it.
  predicate InOrder<T>(s: State<T>, step: Step<T>) {
    step.Commit? && OnLive(s, step.i) ==>
      forall j :: 0 <= j < step.i ==> s.log.inflight[j].0 != s.log.inflight[step.i].0
  }

  predicate OrderedRun<T>(s: State<T>, steps: seq<Step<T>>)
    requires IsRun(s, steps)
    decreases |steps|
  {
    steps == [] || (InOrder(s, steps[0]) && OrderedRun(Apply(s, steps[0]), steps[1..]))
  }

  // No step comes between a lock section that takes a message and its send.
  predicate AtomicRun<T>(s: State<T>, steps: seq<Step<T>>)
    requires IsRun(s, steps)
    decreases |steps|
  {
    steps == [] || ((s.log.inflight != [] ==> steps[0].Commit?) && AtomicRun(Apply(s, steps[0]), steps[1..]))
  }

  lemma {:induction false} AtomicIsOrdered<T>(s: State<T>, steps: seq<Step<T>>)
    requires |s.log.inflight| <= 1 && IsRun(s, steps) && AtomicRun(s, steps)
    ensures OrderedRun(s, steps)
    decreases |steps|
  {
    if steps != [] {
      AtomicIsOrdered(Apply(s, steps[0]), steps[1..]);
    }
  }

  ghost predicate WireOrder<T>(log: Log<T>, link: Link) {
    && |log.wires| == |log.released|
    && (forall k :: 0 <= k < |log.wires| ==> log.wires[k] <= log.released[k])
    && (link.Up? && link.id < |log.wires| ==>
          log.wires[link.id] + For(log.inflight, link.id) == log.released[link.id])
  }

  lemma TakeKeepsWireOrder<T>(log: Log<T>, link: Link, k: nat, m: T)
    requires WireOrder(log, link) && link == Up(k)
    ensures WireOrder(Take(log, k, m), link)
  {
    ForAppend(log.inflight, [(k, m)], k);
    assert For([(k, m)], k) == [m];
  }

  lemma CommitKeepsWireOrder<T>(s: State<T>, i: nat, effect: Effect)
    requires Shape(s) && WireOrder(s.log, s.c.link) && i < |s.log.inflight| && InOrder(s, Commit(i, effect))
    ensures WireOrder(CommitLog(s.log, s.c.link, i), s.c.link)
  {
    var xs := s.log.inflight;
    if s.c.link.Up? {
      ForSplit(xs, i, s.c.link.id);
      if OnLive(s, i) {
        ForNone(xs[..i], s.c.link.id);
      }
    }
  }

  lemma WireOrderKept<T>(s: State<T>, step: Step<T>)
    requires Shape(s) && WireOrder(s.log, s.c.link) && Enabled(s, step) && InOrder(s, step)
    ensures WireOrder(LogAfter(s, step), ControlAfter(s, step).link)
  {
    match step {
      case Send(m) =>
        var verdict := Enqueue(s.c.ch, Live(s.c.link), m).1;
        if verdict.SendNow? {
          TakeKeepsWireOrder(Accept(s.log, m), s.c.link, verdict.conn, m);
        }
      case Drain =>
        if MayPop(s.c.ch, Live(s.c.link)) {
          TakeKeepsWireOrder(s.log, s.c.link, s.c.link.id, s.c.ch.pending[0]);
        }
      case Commit(i, effect) => CommitKeepsWireOrder(s, i, effect);
      case LinkUp => ForNone(s.log.inflight, |s.log.released|);
      case _ =>
    }
  }

  lemma {:induction false} WireOrderAlong<T>(s: State<T>, steps: seq<Step<T>>)
    requires Shape(s) && WireOrder(s.log, s.c.link) && IsRun(s, steps) && OrderedRun(s, steps)
    ensures WireOrder(After(s, steps).log, After(s, steps).c.link)
    decreases |steps|
  {
    if steps != [] {
      ShapeKept(s, steps[0]);
      WireOrderKept(s, steps[0]);
      WireOrderAlong(Apply(s, steps[0]), steps[1..]);
    }
  }

  // ----- a send out of turn is never made good -----

  ghost predicate Distinct<T>(xs: seq<T>) {
    forall i, j :: 0 <= i < j < |xs| ==> xs[i] != xs[j]
  }

  // Some wire differs from what was released to it.
  ghost predicate Garbled<T>(log: Log<T>) {
    exists k: nat, p: nat :: GarbledAt(log, k, p)
  }

  ghost predicate GarbledAt<T>(log: Log<T>, k: nat, p: nat) {
    && k < |log.wires| && k < |log.released|
    && p < |log.wires[k]| && p < |log.released[k]|
    && log.wires[k][p] != log.released[k][p]
  }

  lemma GarbledStep<T>(s: State<T>, step: Step<T>, k: nat, p: nat)
    requires GarbledAt(s.log, k, p) && Enabled(s, step)
    ensures GarbledAt(LogAfter(s, step), k, p)
  {
  }

  lemma {:induction false} GarbledForever<T>(s: State<T>, steps: seq<Step<T>>, k: nat, p: nat)
    requires GarbledAt(s.log, k, p) && IsRun(s, steps)
    ensures GarbledAt(After(s, steps).log, k, p)
    decreases |steps|
  {
    if steps != [] {
      GarbledStep(s, steps[0], k, p);
      GarbledForever(Apply(s, steps[0]), steps[1..], k, p);
    }
  }

  lemma {:induction false} FlattenSlice<T>(parts: seq<seq<T>>, k: nat)
    requires k < |parts|
    ensures var lo := |Flatten(parts[..k])|;
            lo + |parts[k]| <= |Flatten(parts)| && Flatten(parts)[lo..lo + |parts[k]|] == parts[k]
  {
    var before, after := parts[..k], parts[k + 1..];
    assert parts == before + ([parts[k]] + after);
    FlattenAppend(before, [parts[k]] + after);
    assert ([parts[k]] + after)[1..] == after;
    var lo := |Flatten(before)|;
    assert Flatten(parts) == Flatten(before) + (parts[k] + Flatten(after));
    assert Flatten(parts)[lo..lo + |parts[k]|] == parts[k];
  }

  lemma ReleasedDistinct<T>(s: State<T>, k: nat)
    requires LockOrder(s) && Distinct(s.log.accepted) && k < |s.log.released|
    ensures Distinct(s.log.released[k])
  {
    FlattenSlice(s.log.released, k);
    var lo, r := |Flatten(s.log.released[..k])|, s.log.released[k];
    forall i, j | 0 <= i < j < |r| ensures r[i] != r[j] {
      assert r[i] == s.log.accepted[lo + i] && r[j] == s.log.accepted[lo + j];
    }
  }

  lemma PlacesDiffer<T>(r: seq<T>, w: seq<T>, early: seq<T>, m: T, late: seq<T>)
    requires r == w + (early + [m] + late) && early != [] && Distinct(r)
    ensures |w| < |r| && r[|w|] != m
  {
    assert r[|w| + |early|] == m;
  }

  lemma OutOfTurnGarbles<T>(s: State<T>, i: nat, effect: Effect)
    requires Inv(s) && WireOrder(s.log, s.c.link) && Distinct(s.log.accepted)
    requires i < |s.log.inflight| && !InOrder(s, Commit(i, effect))
    ensures Garbled(CommitLog(s.log, s.c.link, i))
  {
    var xs, k := s.log.inflight, s.c.link.id;
    var w, r, m := s.log.wires[k], s.log.released[k], xs[i].1;
    var early := EarlierFor(xs, i, k);
    ReleasedDistinct(s, k);
    PlacesDiffer(r, w, early, m, For(xs[i + 1..], k));
    assert GarbledAt(CommitLog(s.log, s.c.link, i), k, |w|);
  }

  lemma EarlierFor<T>(xs: seq<(nat, T)>, i: nat, k: nat) returns (early: seq<T>)
    requires i < |xs| && xs[i].0 == k && exists j :: 0 <= j < i && xs[j].0 == k
    ensures early != [] && For(xs, k) == early + [xs[i].1] + For(xs[i + 1..], k)
  {
    var j :| 0 <= j < i && xs[j].0 == k;
    ForSplit(xs, i, k);
    ForSplit(xs[..i], j, k);
    early := For(xs[..i], k);
  }

  lemma {:induction false} AcceptedGrows<T>(s: State<T>, steps: seq<Step<T>>)
    requires IsRun(s, steps)
    ensures s.log.accepted <= After(s, steps).log.accepted
    decreases |steps|
  {
    if steps != [] {
      assert s.log.accepted <= LogAfter(s, steps[0]).accepted;
      AcceptedGrows(Apply(s, steps[0]), steps[1..]);
    }
  }

  lemma {:induction false} UnorderedGarbles<T>(s: State<T>, steps: seq<Step<T>>)
    requires Inv(s) && WireOrder(s.log, s.c.link) && IsRun(s, steps) && !OrderedRun(s, steps)
    requires Distinct(After(s, steps).log.accepted)
    ensures Garbled(After(s, steps).log)
    decreases |steps|
  {
    var step, rest := steps[0], steps[1..];
    var s' := Apply(s, step);
    if InOrder(s, step) {
      InvKept(s, step);
      WireOrderKept(s, step);
      UnorderedGarbles(s', rest);
    } else {
      AcceptedGrows(s, steps);
      OutOfTurnGarbles(s, step.i, step.effect);
      var k: nat, p: nat :| GarbledAt(s'.log, k, p);
      GarbledForever(s', rest, k, p);
    }
  }

  // Each connection carries a prefix of what the lock released to it.
  ghost predicate CarriesPrefixes<T>(log: Log<T>) {
    forall k :: 0 <= k < |log.wires| ==> k < |log.released| && log.wires[k] <= log.released[k]
  }

  lemma GarbledNoPrefix<T>(log: Log<T>)
    requires Garbled(log)
    ensures !CarriesPrefixes(log)
  {
    var k: nat, p: nat :| GarbledAt(log, k, p);
    assert !(log.wires[k] <= log.released[k]);
  }

  // Whatever the interleaving, the wires are in order exactly when every live send was
  // made in turn.
  lemma OrderExactly<T>(limit: nat, steps: seq<Step<T>>)
    requires IsRun(Init(limit), steps)
    requires Distinct(After(Init(limit), steps).log.accepted)
    ensures CarriesPrefixes(After(Init(limit), steps).log) <==> OrderedRun(Init(limit), steps)
  {
    InvInit<T>(limit);
    if OrderedRun(Init(limit), steps) {
      WireOrderAlong(Init(limit), steps);
    } else {
      UnorderedGarbles(Init(limit), steps);
      GarbledNoPrefix(After(Init(limit), steps).log);
    }
  }

  // ----- end to end -----

  // What the receiver of any connection has handed over, however the bytes were cut
  // and however many of them have arrived, is a gap-free stretch of the accepted
  // messages, starting at the first one released to that connection.
  lemma DeliveredInOrder(limit: nat, steps: seq<Step<Message>>, k: nat, chunks: seq<seq<byte>>)
    requires IsRun(Init(limit), steps) && OrderedRun(Init(limit), steps)
    requires AllSendable(After(Init(limit), steps).log.accepted)
    requires k < |After(Init(limit), steps).log.wires|
    requires Flatten(chunks) <= EncodeAll(After(Init(limit), steps).log.wires[k])
    ensures var log := After(Init(limit), steps).log;
            k < |log.released| &&
            var got, lo := Feed([], chunks).out, |Flatten(log.released[..k])|;
            lo + |got| <= |log.accepted| && got == log.accepted[lo..lo + |got|]
    ensures k == 0 ==> Feed([], chunks).out <= After(Init(limit), steps).log.accepted
  {
    OrderedSoFar(Init(limit), steps);
    var log := After(Init(limit), steps).log;
    StretchDecoded(log.released, k, log.accepted, log.wires[k], chunks);
  }

  // In particular when every lock section and its send are one step.
  lemma AtomicDelivery(limit: nat, steps: seq<Step<Message>>, k: nat, chunks: seq<seq<byte>>)
    requires IsRun(Init(limit), steps) && AtomicRun(Init(limit), steps)
    requires AllSendable(After(Init(limit), steps).log.accepted)
    requires k < |After(Init(limit), steps).log.wires|
    requires Flatten(chunks) <= EncodeAll(After(Init(limit), steps).log.wires[k])
    ensures var log := After(Init(limit), steps).log;
            k < |log.released| &&
            var got, lo := Feed([], chunks).out, |Flatten(log.released[..k])|;
            lo + |got| <= |log.accepted| && got == log.accepted[lo..lo + |got|]
    ensures k == 0 ==> Feed([], chunks).out <= After(Init(limit), steps).log.accepted
  {
    AtomicIsOrdered(Init(limit), steps);
    DeliveredInOrder(limit, steps, k, chunks);
  }

  lemma OrderedSoFar<T>(s: State<T>, steps: seq<Step<T>>)
    requires s == Init(s.c.ch.limit) && IsRun(s, steps) && OrderedRun(s, steps)
    ensures LockOrder(After(s, steps)) && WireOrder(After(s, steps).log, After(s, steps).c.link)
  {
    InvInit<T>(s.c.ch.limit);
    InvAlong(s, steps);
    WireOrderAlong(s, steps);
  }

  // A prefix of one part is a stretch of the whole.
  lemma StretchOfPart<T>(parts: seq<seq<T>>, k: nat, all: seq<T>, got: seq<T>)
    requires k < |parts| && Flatten(parts) <= all && got <= parts[k]
    ensures var lo := |Flatten(parts[..k])|; lo + |got| <= |all| && got == all[lo..lo + |got|]
    ensures k == 0 ==> got <= all
  {
    assert parts[..0] == [];
    FlattenSlice(parts, k);
    var lo := |Flatten(parts[..k])|;
    assert Flatten(parts)[lo..lo + |parts[k]|] == parts[k];
    assert forall i :: 0 <= i < |got| ==> got[i] == parts[k][i] == Flatten(parts)[lo + i] == all[lo + i];
  }

  lemma SendableStretch(ms: seq<Message>, lo: nat, hi: nat)
    requires lo <= hi <= |ms| && AllSendable(ms)
    ensures AllSendable(ms[lo..hi])
  {
  }

  // Whatever has been decoded of a wire is a stretch of what was accepted.
  lemma StretchDecoded(parts: seq<seq<Message>>, k: nat, all: seq<Message>, wire: seq<Message>, chunks: seq<seq<byte>>)
    requires k < |parts| && Flatten(parts) <= all && wire <= parts[k]
    requires AllSendable(all) && Flatten(chunks) <= EncodeAll(wire)
    ensures var got, lo := Feed([], chunks).out, |Flatten(parts[..k])|;
            lo + |got| <= |all| && got == all[lo..lo + |got|]
    ensures k == 0 ==> Feed([], chunks).out <= all
  {
    var lo := |Flatten(parts[..k])|;
    StretchOfPart(parts, k, all, wire);
    SendableStretch(all, lo, lo + |wire|);
    PartialDelivery(wire, chunks);
    StretchOfPart(parts, k, all, Feed([], chunks).out);
  }

  // ----- the window between the lock and the send -----

  // Two senders leave the lock one after the other, and their sends are made in the
  // opposite order.
  lemma Overtaking<T>(first: T, second: T) returns (steps: seq<Step<T>>)
    ensures IsRun(Init<T>(1), steps)
    ensures var log := After(Init<T>(1), steps).log;
            log.accepted == [first, second] && log.wires == [[second, first]]
  {
    var s := Init<T>(1);
    steps := PrewarmedRun();
    var s4 := After(s, steps);
    Extend(s, steps, Send(first));
    SentDirectly(s4, [], first);
    steps := steps + [Send(first)];
    var s5 := Apply(s4, Send(first));
    Extend(s, steps, Send(second));
    SentDirectly(s5, [first], second);
    steps := steps + [Send(second)];
    var s6 := Apply(s5, Send(second));
    assert [] + [(0, first)] + [(0, second)] == [(0, first), (0, second)];
    CommitsSwapped(s6, first, second);
    Extend(s, steps, Commit(1, Written));
    steps := steps + [Commit(1, Written)];
    Extend(s, steps, Commit(0, Written));
    steps := steps + [Commit(0, Written)];
  }

  lemma SentDirectly<T>(s: State<T>, before: seq<T>, m: T)
    requires Enqueue(s.c.ch, Live(s.c.link), m) == (s.c.ch, SendNow(0)) && !s.c.busy
    requires s.log.accepted == before && s.log.released == [before]
    ensures var t := Apply(s, Send(m));
            && t.c == s.c
            && t.log == s.log.(accepted := before + [m], released := [before + [m]],
                               inflight := s.log.inflight + [(0, m)])
  {
  }

  lemma CommitsSwapped<T>(s: State<T>, first: T, second: T)
    requires s.c.link == Up(0) && !s.c.busy && s.log.wires == [[]] && s.log.inflight == [(0, first), (0, second)]
    ensures Enabled(s, Commit(1, Written)) && Enabled(Apply(s, Commit(1, Written)), Commit(0, Written))
    ensures var t := Apply(Apply(s, Commit(1, Written)), Commit(0, Written));
            t.log.accepted == s.log.accepted && t.log.wires == [[second, first]]
  {
    var t := Apply(s, Commit(1, Written));
    assert t.log.wires[0] == [second];
    assert t.log.inflight == [(0, first)] && t.log.wires == [[second]];
    assert [second] + [first] == [second, first];
    assert Apply(t, Commit(0, Written)).log.wires[0] == [second, first];
  }

  // A prewarm connects the channel.
  lemma PrewarmedRun<T>() returns (steps: seq<Step<T>>)
    ensures IsRun(Init<T>(1), steps)
    ensures After(Init<T>(1), steps)
         == State(Control(Established(NewChannel(1), 0), Up(0), true, false, 0, 0, 1, 0, false, []),
                  Log([], [[]], [], [[]], [], []))
  {
    var s := Init<T>(1);
    steps := [Prewarm];
    assert steps[1..] == [];
    Extend(s, steps, ConnectCheck);
    steps := steps + [ConnectCheck];
    Extend(s, steps, ConnectStart);
    steps := steps + [ConnectStart];
    Extend(s, steps, LinkUp);
    steps := steps + [LinkUp];
  }
}
