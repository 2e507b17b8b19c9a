/**
 Any number of threads in getOrCreateChannel at once, and closeAll among them. The
 two lookups are lock sections; between them a thread stops a stale channel and
 makes a new one.
 */
module ChannelTable {
  import opened Wrappers
  import opened ChannelState
  import opened ClusterRouter

  datatype Phase =
    | Asked
    | Stale(ch: nat)                // taken out of the table, still to be stopped
    | Making
    | Made(ch: nat)                 // not in the table yet
    | Returned(ch: nat, lost: bool) // lost: the second lookup found another one

  datatype Thread = Thread(key: string, endpoint: Endpoint, phase: Phase)

  // made: the channels ever made, with their key and endpoint; doomed: those that
  // closeAll has collected and not stopped yet.
  datatype State = State(connMap: map<string, nat>, made: seq<(string, Endpoint)>, doomed: set<nat>, stopped: set<nat>,
                         threads: seq<Thread>)

  const NEW := State(map[], [], {}, {}, [])

  datatype Step =
    | Ask(key: string, endpoint: Endpoint)
    | LookUp(t: nat)
    | StopStale(t: nat)
    | Make(t: nat)
    | PublishIt(t: nat)
    | BeginClose
    | StopDoomed(ch: nat)

  predicate Enabled(s: State, step: Step) {
    match step
    case Ask(_, _) => true
    case LookUp(t) => t < |s.threads| && s.threads[t].phase.Asked?
    case StopStale(t) => t < |s.threads| && s.threads[t].phase.Stale?
    case Make(t) => t < |s.threads| && s.threads[t].phase.Making?
    case PublishIt(t) => t < |s.threads| && s.threads[t].phase.Made?
    case BeginClose => true
    case StopDoomed(ch) => ch in s.doomed
  }

  function Moved(s: State, t: nat, phase: Phase): State
    requires t < |s.threads|
  {
    s.(threads := s.threads[t := s.threads[t].(phase := phase)])
  }

  predicate Usable(s: State, th: Thread) {
    th.key in s.connMap && s.connMap[th.key] < |s.made| && s.made[s.connMap[th.key]].1 == th.endpoint
  }

  function Apply(s: State, step: Step): State
    requires Enabled(s, step)
  {
    match step
    case Ask(key, endpoint) => s.(threads := s.threads + [Thread(key, endpoint, Asked)])
    case LookUp(t) =>
      var th := s.threads[t];
      var (m, found, stale) := Lookup(s.connMap, th.key, Usable(s, th));
      Moved(s.(connMap := m), t, if found.Some? then Returned(found.value, false)
                                 else if stale.Some? then Stale(stale.value) else Making)
    case StopStale(t) => Moved(s.(stopped := s.stopped + {s.threads[t].phase.ch}), t, Making)
    case Make(t) => Moved(s.(made := s.made + [(s.threads[t].key, s.threads[t].endpoint)]), t, Made(|s.made|))
    case PublishIt(t) =>
      var th := s.threads[t];
      var (m, used) := Publish(s.connMap, th.key, th.phase.ch);
      if th.key in s.connMap then Moved(s.(stopped := s.stopped + {th.phase.ch}), t, Returned(used, true))
      else Moved(s.(connMap := m), t, Returned(used, false))
    case BeginClose => s.(connMap := map[], doomed := s.doomed + s.connMap.Values)
    case StopDoomed(ch) => s.(doomed := s.doomed - {ch}, stopped := s.stopped + {ch})
  }

  predicate IsRun(s: State, steps: seq<Step>)
    decreases |steps|
  {
    steps == [] || (Enabled(s, steps[0]) && IsRun(Apply(s, steps[0]), steps[1..]))
  }

  function After(s: State, steps: seq<Step>): State
    requires IsRun(s, steps)
    decreases |steps|
  {
    if steps == [] then s else After(Apply(s, steps[0]), steps[1..])
  }

  // ----- every channel is accounted for -----

  // Threads that will stop or publish the channel.
  function Hands(threads: seq<Thread>, ch: nat): nat {
    if threads == [] then 0
    else
      var phase := threads[|threads| - 1].phase;
      (if phase == Stale(ch) || phase == Made(ch) then 1 else 0) + Hands(threads[..|threads| - 1], ch)
  }

  lemma {:induction false} HandsUpdate(threads: seq<Thread>, t: nat, th: Thread, ch: nat)
    requires t < |threads|
    ensures Hands(threads[t := th], ch) + Hands([threads[t]], ch) == Hands(threads, ch) + Hands([th], ch)
  {
    var n := |threads| - 1;
    if t < n {
      assert threads[t := th][..n] == threads[..n][t := th];
      HandsUpdate(threads[..n], t, th, ch);
    } else {
      assert threads[t := th][..n] == threads[..n];
    }
  }

  predicate InTable(s: State, ch: nat) {
    exists k :: k in s.connMap && s.connMap[k] == ch
  }

  // In how many places a channel is: in the table, in the hand of a thread that will
  // stop or publish it, collected by closeAll, or stopped.
  ghost function Places(s: State, ch: nat): nat {
    (if InTable(s, ch) then 1 else 0) + Hands(s.threads, ch)
    + (if ch in s.doomed then 1 else 0) + (if ch in s.stopped then 1 else 0)
  }

  // A channel is stored under its own key; a thread has channels of its own key and,
  // unless it lost, of the endpoint it asked for.
  ghost predicate Inv(s: State) {
    && (forall k :: k in s.connMap ==> s.connMap[k] < |s.made| && s.made[s.connMap[k]].0 == k)
    && (forall t :: 0 <= t < |s.threads| ==> ThreadOk(s.made, s.threads[t]))
    && (forall ch: nat :: Places(s, ch) == if ch < |s.made| then 1 else 0)
  }

  predicate ThreadOk(made: seq<(string, Endpoint)>, th: Thread) {
    th.phase.Stale? || th.phase.Made? || th.phase.Returned? ==>
      && th.phase.ch < |made| && made[th.phase.ch].0 == th.key
      && (th.phase.Made? || (th.phase.Returned? && !th.phase.lost) ==> made[th.phase.ch].1 == th.endpoint)
  }

  lemma InvKept(s: State, step: Step)
    requires Inv(s) && Enabled(s, step)
    ensures Inv(Apply(s, step))
  {
    var s' := Apply(s, step);
    forall ch: nat ensures Places(s', ch) == if ch < |s'.made| then 1 else 0 {
      PlacesKept(s, step, ch);
    }
  }

  lemma PlacesKept(s: State, step: Step, ch: nat)
    requires Inv(s) && Enabled(s, step)
    ensures var s' := Apply(s, step); Places(s', ch) == if ch < |s'.made| then 1 else 0
  {
    var s' := Apply(s, step);
    assert Places(s, ch) == if ch < |s.made| then 1 else 0;
    match step {
      case Ask(key, endpoint) => assert s'.threads[..|s.threads|] == s.threads;
      case LookUp(t) =>
        HandsUpdate(s.threads, t, s'.threads[t], ch);
        LookUpMoves(s, t, ch);
      case StopStale(t) =>
        HandsUpdate(s.threads, t, s'.threads[t], ch);
        assert Places(s, s.threads[t].phase.ch) == 1;
        HandIsHeld(s.threads, t);
      case Make(t) => HandsUpdate(s.threads, t, s'.threads[t], ch);
      case PublishIt(t) => PublishKeepsPlaces(s, t, ch);
      case BeginClose =>
      case StopDoomed(c) => assert Places(s, c) <= 1;
    }
  }

  lemma PublishKeepsPlaces(s: State, t: nat, ch: nat)
    requires Inv(s) && Enabled(s, PublishIt(t))
    ensures Places(Apply(s, PublishIt(t)), ch) == Places(s, ch)
  {
    HandsUpdate(s.threads, t, Apply(s, PublishIt(t)).threads[t], ch);
    assert Places(s, s.threads[t].phase.ch) == 1;
    HandIsHeld(s.threads, t);
    PublishMoves(s, t, ch);
  }

  lemma {:induction false} HandIsHeld(threads: seq<Thread>, t: nat)
    requires t < |threads| && (threads[t].phase.Stale? || threads[t].phase.Made?)
    ensures Hands(threads, threads[t].phase.ch) >= 1
  {
    var n := |threads| - 1;
    if t < n {
      HandIsHeld(threads[..n], t);
    }
  }

  lemma LookUpMoves(s: State, t: nat, ch: nat)
    requires Inv(s) && Enabled(s, LookUp(t))
    ensures var s' := Apply(s, LookUp(t));
            (if InTable(s', ch) then 1 else 0) + Hands([s'.threads[t]], ch) == if InTable(s, ch) then 1 else 0
  {
    var s', key := Apply(s, LookUp(t)), s.threads[t].key;
    if s'.threads[t].phase == Stale(ch) {
      assert key in s.connMap && s.connMap[key] == ch;
    } else if InTable(s, ch) {
      var k :| k in s.connMap && s.connMap[k] == ch;
      assert k in s'.connMap && s'.connMap[k] == ch;
    }
  }

  lemma PublishMoves(s: State, t: nat, ch: nat)
    requires Inv(s) && Enabled(s, PublishIt(t))
    ensures var s' := Apply(s, PublishIt(t));
            InTable(s', ch) <==> InTable(s, ch) || (ch == s.threads[t].phase.ch && s.threads[t].key !in s.connMap)
  {
    var s', key := Apply(s, PublishIt(t)), s.threads[t].key;
    if InTable(s, ch) {
      var k :| k in s.connMap && s.connMap[k] == ch;
      assert k in s'.connMap && s'.connMap[k] == ch;
    }
    if key !in s.connMap {
      assert key in s'.connMap && s'.connMap[key] == s.threads[t].phase.ch;
    }
  }

  lemma {:induction false} InvAlong(s: State, steps: seq<Step>)
    requires Inv(s) && IsRun(s, steps)
    ensures Inv(After(s, steps))
    decreases |steps|
  {
    if steps != [] {
      InvKept(s, steps[0]);
      InvAlong(Apply(s, steps[0]), steps[1..]);
    }
  }

  // No interleaving leaks a channel or stops one that is in use through the table.
  lemma EveryChannelAccounted(steps: seq<Step>, ch: nat)
    requires IsRun(NEW, steps)
    ensures var s := After(NEW, steps);
            && Places(s, ch) == (if ch < |s.made| then 1 else 0)
            && (InTable(s, ch) ==> ch !in s.stopped && Hands(s.threads, ch) == 0)
  {
    InvAlong(NEW, steps);
  }

  // ----- what a thread gets -----

  // A thread that did not lose has a channel to the endpoint it asked for; one that
  // loses has one exactly when the winner asked for the same endpoint.
  lemma RightEndpoint(steps: seq<Step>, t: nat)
    requires IsRun(NEW, steps)
    ensures var s := After(NEW, steps);
            && (t < |s.threads| && s.threads[t].phase.Returned? && !s.threads[t].phase.lost ==>
                  s.threads[t].phase.ch < |s.made| && s.made[s.threads[t].phase.ch]
                    == (s.threads[t].key, s.threads[t].endpoint))
            && (Enabled(s, PublishIt(t)) ==>
                  var s' := Apply(s, PublishIt(t));
                  var got := s'.threads[t].phase.ch;
                  got < |s'.made| &&
                  (s'.made[got].1 == s.threads[t].endpoint
                   <==> (s.threads[t].key in s.connMap ==> Usable(s, s.threads[t]))))
  {
    InvAlong(NEW, steps);
    var s := After(NEW, steps);
    assert t < |s.threads| ==> ThreadOk(s.made, s.threads[t]);
  }

  // Two threads that disagree about the endpoint of a node: the loser gets a channel
  // to the other endpoint.
  lemma WrongEndpoint(key: string, e1: Endpoint, e2: Endpoint) returns (steps: seq<Step>)
    requires e1 != e2
    ensures IsRun(NEW, steps)
    ensures var s := After(NEW, steps);
            && s.threads == [Thread(key, e1, Returned(0, false)), Thread(key, e2, Returned(0, true))]
            && s.made == [(key, e1), (key, e2)] && s.stopped == {1}
  {
    var s2 := State(map[], [], {}, {}, [Thread(key, e1, Asked), Thread(key, e2, Asked)]);
    var s4 := s2.(threads := [Thread(key, e1, Making), Thread(key, e2, Making)]);
    var s6 := s4.(made := [(key, e1), (key, e2)], threads := [Thread(key, e1, Made(0)), Thread(key, e2, Made(1))]);
    steps := Twice(NEW, [], Ask(key, e1), Ask(key, e2));
    assert After(NEW, steps).threads == s2.threads;
    steps := Twice(NEW, steps, LookUp(0), LookUp(1));
    assert After(NEW, steps).threads == s4.threads;
    steps := Twice(NEW, steps, Make(0), Make(1));
    assert After(NEW, steps).made == s6.made && After(NEW, steps).threads == s6.threads;
    steps := Twice(NEW, steps, PublishIt(0), PublishIt(1));
    assert After(NEW, steps).threads == [Thread(key, e1, Returned(0, false)), Thread(key, e2, Returned(0, true))];
  }

  lemma Twice(s: State, steps: seq<Step>, a: Step, b: Step) returns (r: seq<Step>)
    requires IsRun(s, steps) && Enabled(After(s, steps), a) && Enabled(Apply(After(s, steps), a), b)
    ensures IsRun(s, r) && After(s, r) == Apply(Apply(After(s, steps), a), b)
  {
    Extend(s, steps, a);
    Extend(s, steps + [a], b);
    r := steps + [a] + [b];
  }

  lemma {:induction false} Extend(s: State, steps: seq<Step>, step: Step)
    requires IsRun(s, steps) && Enabled(After(s, steps), step)
    ensures IsRun(s, steps + [step]) && After(s, steps + [step]) == Apply(After(s, steps), step)
    decreases |steps|
  {
    if steps == [] {
      assert ([] + [step])[1..] == [];
    } else {
      assert (steps + [step])[1..] == steps[1..] + [step];
      Extend(Apply(s, steps[0]), steps[1..], step);
    }
  }

  // ----- agreement -----

  // Everyone knows where each node is, and the router is not being closed.
  predicate Settled(steps: seq<Step>, home: string -> Endpoint) {
    forall i :: 0 <= i < |steps| ==>
      !steps[i].BeginClose? && (steps[i].Ask? ==> steps[i].endpoint == home(steps[i].key))
  }

  // Then a channel once stored stays, and whoever has returned has that one.
  ghost predicate Agreed(s: State, home: string -> Endpoint) {
    && s.doomed == {}
    && (forall ch :: 0 <= ch < |s.made| ==> s.made[ch].1 == home(s.made[ch].0))
    && (forall t :: 0 <= t < |s.threads| ==> ThreadAgrees(s.connMap, s.threads[t], home))
  }

  predicate ThreadAgrees(m: map<string, nat>, th: Thread, home: string -> Endpoint) {
    && th.endpoint == home(th.key) && !th.phase.Stale?
    && (th.phase.Returned? ==> th.key in m && m[th.key] == th.phase.ch)
  }

  lemma AgreedKept(s: State, step: Step, home: string -> Endpoint)
    requires Inv(s) && Agreed(s, home) && Enabled(s, step) && Settled([step], home)
    ensures Agreed(Apply(s, step), home)
  {
    assert [step][0] == step;
    var s' := Apply(s, step);
    forall t | 0 <= t < |s'.threads| ensures ThreadAgrees(s'.connMap, s'.threads[t], home) {
      assert t < |s.threads| ==> ThreadAgrees(s.connMap, s.threads[t], home);
    }
  }

  lemma {:induction false} AgreedAlong(s: State, steps: seq<Step>, home: string -> Endpoint)
    requires Inv(s) && Agreed(s, home) && IsRun(s, steps) && Settled(steps, home)
    ensures Inv(After(s, steps)) && Agreed(After(s, steps), home)
    decreases |steps|
  {
    if steps != [] {
      assert Settled([steps[0]], home) && Settled(steps[1..], home);
      AgreedKept(s, steps[0], home);
      InvKept(s, steps[0]);
      AgreedAlong(Apply(s, steps[0]), steps[1..], home);
    }
  }

  // However the threads interleave, all that have returned for a node and shard have
  // the same channel; it leads to the right endpoint, is stored, and is not stopped.
  lemma EveryoneGetsTheSame(steps: seq<Step>, home: string -> Endpoint, t: nat, u: nat)
    requires IsRun(NEW, steps) && Settled(steps, home)
    ensures var s := After(NEW, steps);
            t < |s.threads| && u < |s.threads| && s.threads[t].key == s.threads[u].key
            && s.threads[t].phase.Returned? && s.threads[u].phase.Returned? ==>
              var ch := s.threads[t].phase.ch;
              && ch == s.threads[u].phase.ch && InTable(s, ch) && ch !in s.stopped
              && ch < |s.made| && s.made[ch] == (s.threads[t].key, home(s.threads[t].key))
  {
    AgreedAlong(NEW, steps, home);
    var s := After(NEW, steps);
    if t < |s.threads| && u < |s.threads| && s.threads[t].key == s.threads[u].key
       && s.threads[t].phase.Returned? && s.threads[u].phase.Returned?
    {
      assert ThreadAgrees(s.connMap, s.threads[t], home) && ThreadAgrees(s.connMap, s.threads[u], home);
      assert Places(s, s.threads[t].phase.ch) <= 1;
    }
  }
}
