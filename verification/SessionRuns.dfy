/**
 Binds, unbinds and cleanups of any number of nodes, interleaved one Redis method
 at a time. A cleanup reads the node's user set, unbinds those users one by one,
 and unregisters the node.
 */
module SessionRuns {
  import opened Wrappers
  import opened RedisStore

  // cleaning: for each node in cleanup, the users it still has to unbind.
  datatype World = World(store: Store, cleaning: map<string, set<int>>)

  const NOTHING := World(EMPTY, map[])

  datatype Step =
    | BindUser(user: int, session: Session, answered: nat)
    | UnbindUser(user: int, nodeId: string, answered: nat)
    | RegisterNode(meta: Meta, nowMs: int, ttlMs: int, answered: nat)
    | BeginCleanup(nodeId: string)
    | CleanUser(nodeId: string, user: int)
    | EndCleanup(nodeId: string)

  // Instance ids hold no bar, a node being cleaned up binds nobody, and no bind
  // writes a session without indexing it.
  predicate Enabled(w: World, step: Step) {
    match step
    case BindUser(_, session, answered) => Plain(session) && session.nodeId !in w.cleaning && answered != 1
    case UnbindUser(_, _, _) => true
    case RegisterNode(_, _, _, _) => true
    case BeginCleanup(n) => n !in w.cleaning
    case CleanUser(n, u) => n in w.cleaning && u in w.cleaning[n]
    case EndCleanup(n) => n in w.cleaning && w.cleaning[n] == {}
  }

  function Apply(w: World, step: Step): World
    requires Enabled(w, step)
  {
    match step
    case BindUser(u, session, answered) => w.(store := Bind(w.store, u, session, answered))
    case UnbindUser(u, n, answered) => w.(store := Unbind(w.store, u, n, answered))
    case RegisterNode(meta, nowMs, ttlMs, answered) =>
      w.(store := Register(w.store, meta, nowMs, ttlMs, answered))
    case BeginCleanup(n) => w.(cleaning := w.cleaning[n := UsersAt(w.store, n)])
    case CleanUser(n, u) => World(Unbind(w.store, u, n, ALL), w.cleaning[n := w.cleaning[n] - {u}])
    case EndCleanup(n) => World(Unregister(w.store, n, ALL), w.cleaning - {n})
  }

  predicate IsRun(w: World, steps: seq<Step>)
    decreases |steps|
  {
    steps == [] || (Enabled(w, steps[0]) && IsRun(Apply(w, steps[0]), steps[1..]))
  }

  function After(w: World, steps: seq<Step>): World
    requires IsRun(w, steps)
    decreases |steps|
  {
    if steps == [] then w else After(Apply(w, steps[0]), steps[1..])
  }

  predicate Names(s: Store, user: int, nodeId: string) {
    SessionOf(s, user).Some? && SessionOf(s, user).value.nodeId == nodeId
  }

  // Sessions are indexed, and those of a node in cleanup are still on its list.
  ghost predicate Inv(w: World) {
    && Indexed(w.store)
    && (forall n, u :: n in w.cleaning && u in w.store.sessions && Names(w.store, u, n) ==> u in w.cleaning[n])
  }

  lemma BindKeepsOthers(s: Store, user: int, session: Session, answered: nat, u: int)
    requires Plain(session) && user !in s.sessions && answered > 1
    ensures SessionOf(Bind(s, user, session, answered), u) == if u == user then Some(session) else SessionOf(s, u)
  {
    SessionRoundTrip(session);
  }

  lemma InvKept(w: World, step: Step)
    requires Inv(w) && Enabled(w, step)
    ensures Inv(Apply(w, step))
  {
    var w' := Apply(w, step);
    match step {
      case BindUser(user, session, answered) =>
        BindKeepsIndex(w.store, user, session, answered);
        if user !in w.store.sessions && answered > 0 {
          forall u {
            BindKeepsOthers(w.store, user, session, answered, u);
          }
        }
      case UnbindUser(u, n, answered) => UnbindKeepsIndex(w.store, u, n, answered);
      case RegisterNode(_, _, _, _) =>
        forall u | u in w.store.sessions ensures IndexedUser(w'.store, u) {
          assert IndexedUser(w.store, u);
        }
      case BeginCleanup(n) =>
        forall u | u in w.store.sessions && Names(w.store, u, n) ensures u in UsersAt(w.store, n) {
          assert IndexedUser(w.store, u);
        }
      case CleanUser(n, u) => UnbindKeepsIndex(w.store, u, n, ALL);
      case EndCleanup(n) => UnregisterKeepsIndex(w.store, n, ALL);
    }
  }

  // After any run every session is indexed under the node it names.
  lemma {:induction false} SessionsStayIndexed(w: World, steps: seq<Step>)
    requires Inv(w) && IsRun(w, steps)
    ensures Inv(After(w, steps))
    decreases |steps|
  {
    if steps != [] {
      InvKept(w, steps[0]);
      SessionsStayIndexed(Apply(w, steps[0]), steps[1..]);
    }
  }

  lemma EmptyWorld()
    ensures Inv(NOTHING)
  {
  }

  // When a cleanup ends, whatever else was going on, no session is left on the node.
  lemma CleanupLeavesNoSession(steps: seq<Step>, nodeId: string)
    requires IsRun(NOTHING, steps) && Enabled(After(NOTHING, steps), EndCleanup(nodeId))
    ensures var t := Apply(After(NOTHING, steps), EndCleanup(nodeId));
            && (forall u :: u in t.store.sessions ==> !Names(t.store, u, nodeId))
            && Inv(t)
  {
    EmptyWorld();
    SessionsStayIndexed(NOTHING, steps);
    InvKept(After(NOTHING, steps), EndCleanup(nodeId));
  }

  // ----- a cleanup without interruption -----

  function CleanedUp(s: Store, nodeId: string): Store {
    Store(s.sessions - UsersAt(s, nodeId), s.users - {nodeId}, s.nodes - {nodeId}, s.nodeIds - {nodeId})
  }

  // The users of the node in the order in which Redis listed them.
  predicate Lists(order: seq<int>, users: set<int>) {
    && users == (set u | u in order)
    && (forall i, j :: 0 <= i < j < |order| ==> order[i] != order[j])
  }

  function CleanSteps(nodeId: string, order: seq<int>): seq<Step> {
    if order == [] then [EndCleanup(nodeId)] else [CleanUser(nodeId, order[0])] + CleanSteps(nodeId, order[1..])
  }

  lemma {:induction false} CleanRest(w: World, nodeId: string, order: seq<int>)
    requires nodeId in w.cleaning && Lists(order, w.cleaning[nodeId])
    ensures IsRun(w, CleanSteps(nodeId, order))
    ensures var s := w.store;
            After(w, CleanSteps(nodeId, order))
            == World(Store(s.sessions - w.cleaning[nodeId], s.users - {nodeId}, s.nodes - {nodeId},
               s.nodeIds - {nodeId}),
                     w.cleaning - {nodeId})
    decreases |order|
  {
    var todo := w.cleaning[nodeId];
    if order == [] {
      assert todo == {};
    } else {
      var w' := Apply(w, CleanUser(nodeId, order[0]));
      assert Lists(order[1..], todo - {order[0]});
      CleanRest(w', nodeId, order[1..]);
      assert w.store.sessions - {order[0]} - (todo - {order[0]}) == w.store.sessions - todo;
      assert w'.store.users - {nodeId} == w.store.users - {nodeId};
      assert w'.cleaning - {nodeId} == w.cleaning - {nodeId};
    }
  }

  // The cleanup of a node, its steps in a row, in whatever order the users come.
  lemma CleanupRun(w: World, nodeId: string, order: seq<int>)
    requires nodeId !in w.cleaning && Lists(order, UsersAt(w.store, nodeId))
    ensures var steps := [BeginCleanup(nodeId)] + CleanSteps(nodeId, order);
            IsRun(w, steps) && After(w, steps) == w.(store := CleanedUp(w.store, nodeId))
  {
    var begun := Apply(w, BeginCleanup(nodeId));
    CleanRest(begun, nodeId, order);
    var steps := [BeginCleanup(nodeId)] + CleanSteps(nodeId, order);
    assert steps[1..] == CleanSteps(nodeId, order);
    assert begun.cleaning - {nodeId} == w.cleaning;
  }

  // Which sessions such a cleanup takes: those of the users listed under the node,
  // and with them every session that names it.
  lemma CleanupScope(w: World, nodeId: string, order: seq<int>, user: int)
    requires Inv(w) && user in w.store.sessions
    requires nodeId !in w.cleaning && Lists(order, UsersAt(w.store, nodeId))
    ensures var steps := [BeginCleanup(nodeId)] + CleanSteps(nodeId, order);
            && IsRun(w, steps)
            && var t := After(w, steps).store;
            && (user in t.sessions <==> user !in UsersAt(w.store, nodeId))
            && (user in t.sessions ==> t.sessions[user] == w.store.sessions[user])
            && (Names(w.store, user, nodeId) ==> user !in t.sessions)
  {
    CleanupRun(w, nodeId, order);
    assert IndexedUser(w.store, user);
  }

  // A user who was unbound on behalf of another node is still listed under the first
  // one, whose cleanup then takes the session the user meanwhile has elsewhere.
  lemma ForeignSessionTaken(a: Session, b: Session, user: int) returns (steps: seq<Step>)
    requires Plain(a) && Plain(b) && a.nodeId != b.nodeId
    ensures IsRun(NOTHING, steps)
    ensures var w := After(NOTHING, steps);
            && Inv(w) && w.cleaning == map[] && Names(w.store, user, b.nodeId)
            && var cleanup := [BeginCleanup(a.nodeId)] + CleanSteps(a.nodeId, [user]);
            && IsRun(w, cleanup) && user !in After(w, cleanup).store.sessions
  {
    steps := [BindUser(user, a, ALL), UnbindUser(user, b.nodeId, ALL), BindUser(user, b, ALL)];
    assert steps[1..] == [steps[1], steps[2]] && steps[1..][1..] == [steps[2]] && [steps[2]][1..] == [];
    var w1 := Apply(NOTHING, steps[0]);
    var w2 := Apply(w1, steps[1]);
    var w := Apply(w2, steps[2]);
    assert IsRun(w1, [steps[1], steps[2]]) && IsRun(w2, [steps[2]]) && IsRun(w, []);
    assert After(w2, [steps[2]]) == w;
    EmptyWorld();
    SessionsStayIndexed(NOTHING, steps);
    SessionRoundTrip(b);
    assert UsersAt(w.store, a.nodeId) == {user};
    assert Lists([user], {user});
    CleanupScope(w, a.nodeId, [user], user);
  }
}
