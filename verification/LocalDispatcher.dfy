/**
 ChatService::LocalLoopDispatcher: deliveries to client connections of one event
 loop. Enqueuers push under a mutex and the one that finds flushScheduled unset
 must schedule a drain; a drain swaps the queue out, sends its batch, and clears
 the flag only when it finds the queue empty.
 */
module LocalDispatcher {
  import opened Bytes

  datatype Queue<T> = Queue(limit: nat, pending: seq<T>, flushScheduled: bool)

  predicate Full<T>(q: Queue<T>) {
    |q.pending| >= q.limit
  }

  // The enqueue lock section, when the queue has room.
  function Pushed<T>(q: Queue<T>, task: T): Queue<T> {
    q.(pending := q.pending + [task], flushScheduled := true)
  }

  class LocalLoopDispatcher<T(==)> {
    const pendingLimit: nat
    var pending: seq<T>
    var flushScheduled: bool
    var sent: seq<T> // task.conn->send(task.msg), in order

    ghost function View(): Queue<T>
      reads this
    {
      Queue(pendingLimit, pending, flushScheduled)
    }

    constructor (limit: nat)
      ensures View() == Queue(limit, [], false) && sent == []
    {
      pendingLimit, pending, flushScheduled, sent := limit, [], false, [];
    }

    method EnqueueSection(task: T) returns (accepted: bool, shouldSchedule: bool)
      modifies this
      ensures accepted == !Full(old(View()))
      ensures accepted <==> |old(pending)| < pendingLimit
      ensures shouldSchedule == (accepted && !old(flushScheduled))
      ensures pending == old(pending) + if accepted then [task] else []
      ensures View() == if accepted then Pushed(old(View()), task) else old(View())
      ensures sent == old(sent)
    {
      if |pending| >= pendingLimit {
        return false, false;
      }
      pending := pending + [task];
      accepted, shouldSchedule := true, false;
      if !flushScheduled {
        flushScheduled, shouldSchedule := true, true;
      }
    }

    // Undisturbed, a drain sends everything in order and gives up the token. From any
    // protocol state s in which the queue is as here and this is the drain running, it
    // is a run of that drain.
    method DrainInLoop(ghost s: State<T>) returns (ghost run: seq<Step<T>>)
      requires s.q == View() && s.drains == [[]] && s.sent == sent
      modifies this
      ensures sent == old(sent) + old(pending)
      ensures View() == Queue(pendingLimit, [], false)
      ensures IsRun(s, run) && After(s, run) == s.(q := View(), drains := [], sent := sent)
    {
      run := [];
      while true
        invariant sent + pending == old(sent) + old(pending)
        invariant Leads(s, run, s.(q := View(), drains := [[]], sent := sent))
        decreases |pending|
      {
        Extend(s, run, Swap(0));
        run := run + [Swap(0)];
        if pending == [] {
          flushScheduled := false;
          return;
        }
        var tasks := pending;
        pending := [];
        assert [[]][0 := tasks] == [tasks];
        ghost var before, batch := sent, tasks;
        while tasks != []
          invariant sent + tasks == before + batch
          invariant pending == [] && sent + tasks + pending == old(sent) + old(pending)
          invariant Leads(s, run, s.(q := View(), drains := [tasks], sent := sent))
          decreases |tasks|
        {
          assert sent + tasks == sent + [tasks[0]] + tasks[1..];
          Extend(s, run, Deliver(0));
          run := run + [Deliver(0)];
          assert [tasks][0 := tasks[1..]] == [tasks[1..]];
          sent := sent + [tasks[0]];
          tasks := tasks[1..];
        }
      }
    }
  }

  // ----- enqueuers and drains, interleaved -----

  // A priori any number of drains may be running, each with the rest of its batch.
  datatype State<T> = State(
    q: Queue<T>,
    owing: nat,           // enqueuers that must still schedule a drain
    queued: nat,          // drains queued in the loop
    drains: seq<seq<T>>,  // drains running
    sent: seq<T>,
    accepted: seq<T>)

  function Init<T>(limit: nat): State<T> {
    State(Queue(limit, [], false), 0, 0, [], [], [])
  }

  datatype Step<T> =
    | Enqueue(task: T)
    | Schedule(inline: bool) // queueInLoop, or the drain called directly in the loop thread
    | Begin                  // a queued drain starts
    | Swap(d: nat)           // the drain's lock section
    | Deliver(d: nat)

  predicate Enabled<T>(s: State<T>, step: Step<T>) {
    match step
    case Enqueue(_) => true
    case Schedule(_) => s.owing > 0
    case Begin => s.queued > 0
    case Swap(d) => d < |s.drains| && s.drains[d] == []
    case Deliver(d) => d < |s.drains| && s.drains[d] != []
  }

  function Apply<T>(s: State<T>, step: Step<T>): State<T>
    requires Enabled(s, step)
  {
    match step
    case Enqueue(task) =>
      if Full(s.q) then s
      else s.(q := Pushed(s.q, task), accepted := s.accepted + [task],
              owing := s.owing + (if s.q.flushScheduled then 0 else 1))
    case Schedule(inline) =>
      if inline then s.(owing := s.owing - 1, drains := s.drains + [[]])
      else s.(owing := s.owing - 1, queued := s.queued + 1)
    case Begin => s.(queued := s.queued - 1, drains := s.drains + [[]])
    case Swap(d) =>
      if s.q.pending == [] then s.(q := s.q.(flushScheduled := false), drains := Without(s.drains, d))
      else s.(q := s.q.(pending := []), drains := s.drains[d := s.q.pending])
    case Deliver(d) =>
      s.(sent := s.sent + [s.drains[d][0]], drains := s.drains[d := s.drains[d][1..]])
  }

  predicate IsRun<T>(s: State<T>, steps: seq<Step<T>>)
    decreases |steps|
  {
    steps == [] || (Enabled(s, steps[0]) && IsRun(Apply(s, steps[0]), steps[1..]))
  }

  function After<T>(s: State<T>, steps: seq<Step<T>>): State<T>
    requires IsRun(s, steps)
    decreases |steps|
  {
    if steps == [] then s else After(Apply(s, steps[0]), steps[1..])
  }

  ghost predicate Leads<T>(s: State<T>, steps: seq<Step<T>>, t: State<T>) {
    IsRun(s, steps) && After(s, steps) == t
  }

  lemma {:induction false} Extend<T>(s: State<T>, steps: seq<Step<T>>, step: Step<T>)
    requires IsRun(s, steps) && Enabled(After(s, steps), step)
    ensures IsRun(s, steps + [step]) && After(s, steps + [step]) == Apply(After(s, steps), step)
    decreases |steps|
  {
    if steps == [] {
      assert ([] + [step])[1..] == [];
    } else {
      assert (steps + [step])[1..] == steps[1..] + [step];
      Extend(Apply(s, steps[0]), steps[1..], step);
    }
  }

  // How many drains exist in any form.
  function Tokens<T>(s: State<T>): nat {
    s.owing + s.queued + |s.drains|
  }

  ghost predicate Inv<T>(s: State<T>) {
    && Tokens(s) == (if s.q.flushScheduled then 1 else 0)
    && (s.q.pending != [] ==> s.q.flushScheduled)
    && |s.q.pending| <= s.q.limit
    && s.sent + Flatten(s.drains) + s.q.pending == s.accepted
  }

  lemma InvKept<T>(s: State<T>, step: Step<T>)
    requires Inv(s) && Enabled(s, step)
    ensures Inv(Apply(s, step))
  {
  }

  lemma {:induction false} InvAlong<T>(s: State<T>, steps: seq<Step<T>>)
    requires Inv(s) && IsRun(s, steps)
    ensures Inv(After(s, steps))
    decreases |steps|
  {
    if steps != [] {
      InvKept(s, steps[0]);
      InvAlong(Apply(s, steps[0]), steps[1..]);
    }
  }

  // Under any interleaving: there is never a second drain, flushScheduled says
  // whether there is one, a non-empty queue has one, and what was sent, the batch
  // of the drain and the queue are together the accepted sequence.
  lemma OneDrainer<T>(limit: nat, steps: seq<Step<T>>)
    requires IsRun(Init(limit), steps)
    ensures var s := After(Init(limit), steps);
            && s.owing + s.queued + |s.drains| <= 1
            && (s.q.flushScheduled <==> s.owing + s.queued + |s.drains| == 1)
            && (s.q.pending != [] ==> s.q.flushScheduled)
            && s.sent + (if s.drains == [] then [] else s.drains[0]) + s.q.pending == s.accepted
  {
    InvAlong(Init(limit), steps);
    var s := After(Init(limit), steps);
    if s.drains != [] {
      assert s.drains[1..] == [] && s.drains[0] + [] == s.drains[0];
    }
  }

  // A message is accepted, as the last one, exactly when fewer than limit wait; the
  // enqueuer must then schedule a drain exactly when the flag was unset.
  lemma {:induction false} EnqueueExactly<T>(limit: nat, steps: seq<Step<T>>, task: T)
    requires IsRun(Init(limit), steps)
    ensures var s := After(Init(limit), steps);
            var t, room := Apply(s, Enqueue(task)), |s.q.pending| < limit;
            && t.accepted == s.accepted + (if room then [task] else [])
            && t.q.pending == s.q.pending + (if room then [task] else [])
            && t.owing == s.owing + (if room && !s.q.flushScheduled then 1 else 0)
            && t.sent == s.sent && t.drains == s.drains && t.queued == s.queued
  {
    LimitFixed(Init(limit), steps);
  }

  lemma {:induction false} LimitFixed<T>(s: State<T>, steps: seq<Step<T>>)
    requires IsRun(s, steps)
    ensures After(s, steps).q.limit == s.q.limit
    decreases |steps|
  {
    if steps != [] {
      LimitFixed(Apply(s, steps[0]), steps[1..]);
    }
  }

  // ----- progress -----

  predicate Draining<T>(steps: seq<Step<T>>) {
    forall i :: 0 <= i < |steps| ==> !steps[i].Enqueue?
  }

  function Work<T>(s: State<T>): nat {
    5 * |s.q.pending| + 2 * |Flatten(s.drains)| + 3 * s.owing + 2 * s.queued + |s.drains|
  }

  lemma WorkShrinks<T>(s: State<T>, step: Step<T>)
    requires Inv(s) && Enabled(s, step) && !step.Enqueue?
    ensures Work(Apply(s, step)) < Work(s)
  {
    if step.Schedule? || step.Begin? {
      assert Flatten(s.drains + [[]]) == Flatten(s.drains) by {
        FlattenAppend(s.drains, [[]]);
      }
    } else {
      var d := step.d;
      assert s.drains == [s.drains[0]] && Flatten(s.drains) == s.drains[0] + [];
      assert forall batch :: s.drains[d := batch] == [batch] && Flatten([batch]) == batch + [];
    }
  }

  // Without new messages a reachable dispatcher does a bounded number of steps, and
  // as long as something is unsent one of them is possible.
  lemma {:induction false} AllDelivered<T>(s: State<T>, steps: seq<Step<T>>)
    requires Inv(s) && IsRun(s, steps) && Draining(steps)
    ensures |steps| <= Work(s)
    ensures var t := After(s, steps);
            && t.accepted == s.accepted
            && (t.sent == t.accepted || exists next: Step<T> :: !next.Enqueue? && Enabled(t, next))
    decreases |steps|
  {
    if steps == [] {
      if s.owing > 0 {
        assert Enabled(s, Schedule(true));
      } else if s.queued > 0 {
        assert Enabled(s, Begin);
      } else if s.drains != [] {
        assert Enabled(s, if s.drains[0] == [] then Swap(0) else Deliver(0));
      }
    } else {
      InvKept(s, steps[0]);
      WorkShrinks(s, steps[0]);
      assert Draining(steps[1..]);
      AllDelivered(Apply(s, steps[0]), steps[1..]);
    }
  }
}
