/**
 The control-plane data in Redis: sessions (user -> "node|instance"), the set of
 users indexed under each node, and node records that expire. Each method of the
 client wrapper runs under one mutex and is one operation here.
 */
module RedisStore {
  import opened Wrappers

  datatype Meta = Meta(nodeId: string, instanceId: string, interIp: string, interPort: nat)

  predicate ValidMeta(m: Meta) {
    m.nodeId != "" && m.interIp != "" && m.interPort != 0
  }

  datatype Record = Record(meta: Meta, expireAtMs: Option<int>) // None: kept until deleted
  datatype Session = Session(nodeId: string, instanceId: string)

  datatype Store = Store(sessions: map<int, string>, users: map<string, set<int>>, nodes: map<string, Record>,
                         nodeIds: set<string>)

  const EMPTY := Store(map[], map[], map[], {})

  // ----- session values -----

  function JoinSession(s: Session): string {
    s.nodeId + "|" + s.instanceId
  }

  // Position of the last bar, or the length when there is none.
  function LastBar(v: string): (r: nat)
    ensures r <= |v|
    ensures r < |v| ==> v[r] == '|'
    ensures forall i :: r < i < |v| ==> v[i] != '|'
    ensures r == |v| ==> '|' !in v
  {
    if v == [] then 0
    else if v[|v| - 1] == '|' then |v| - 1
    else
      var front := v[..|v| - 1];
      var r := LastBar(front);
      assert forall i :: 0 <= i < |front| ==> v[i] == front[i];
      if r == |front| then |v| else r
  }

  function SplitSession(v: string): Option<Session> {
    var pos := LastBar(v);
    var s := if pos == |v| then Session(v, "") else Session(v[..pos], v[pos + 1..]);
    if s.nodeId == "" then None else Some(s)
  }

  // A stored session is read back as it was written exactly when the instance id
  // has no bar and the node id is not empty.
  lemma SessionRoundTrip(s: Session)
    ensures SplitSession(JoinSession(s)) == Some(s) <==> '|' !in s.instanceId && s.nodeId != ""
  {
    var v, n := JoinSession(s), |s.nodeId|;
    var pos := LastBar(v);
    assert v[n] == '|' && n <= pos < |v|;
    assert v[..n] == s.nodeId && v[n + 1..] == s.instanceId;
    if '|' !in s.instanceId {
      assert forall i :: n < i < |v| ==> v[i] == s.instanceId[i - n - 1];
    } else {
      var i :| 0 <= i < |s.instanceId| && s.instanceId[i] == '|';
      assert v[n + 1 + i] == '|';
      assert |v[..pos]| > n;
    }
  }

  // ----- operations -----

  // A method stops at the first command that gets no answer; answered counts those before it.
  const ALL := 3

  function UsersAt(s: Store, nodeId: string): set<int> {
    if nodeId in s.users then s.users[nodeId] else {}
  }

  function SessionOf(s: Store, user: int): Option<Session> {
    if user in s.sessions then SplitSession(s.sessions[user]) else None
  }

  // SET NX, then SADD.
  function Bind(s: Store, user: int, session: Session, answered: nat): Store {
    if user in s.sessions || answered == 0 then s
    else
      var s' := s.(sessions := s.sessions[user := JoinSession(session)]);
      if answered == 1 then s'
      else s'.(users := s.users[session.nodeId := UsersAt(s, session.nodeId) + {user}])
  }

  // DEL of the session, whoever owns it, then SREM from the given node's index.
  function Unbind(s: Store, user: int, nodeId: string, answered: nat): Store {
    if answered == 0 then s
    else
      s.(sessions := s.sessions - {user},
         users := if nodeId == "" || answered == 1 then s.users
                  else s.users[nodeId := UsersAt(s, nodeId) - {user}])
  }

  predicate Alive(s: Store, nodeId: string, nowMs: int) {
    nodeId in s.nodes && (s.nodes[nodeId].expireAtMs.Some? ==> nowMs < s.nodes[nodeId].expireAtMs.value)
  }

  function GetNode(s: Store, nodeId: string, nowMs: int): Option<Meta> {
    if Alive(s, nodeId, nowMs) && ValidMeta(s.nodes[nodeId].meta) then Some(s.nodes[nodeId].meta) else None
  }

  // HMSET, which keeps the expiry of a record that is there, then EXPIRE, then SADD.
  function Register(s: Store, meta: Meta, nowMs: int, ttlMs: int, answered: nat): Store {
    if answered == 0 then s
    else
      var n := meta.nodeId;
      var expiry := if answered > 1 then Some(nowMs + ttlMs)
                    else if Alive(s, n, nowMs) then s.nodes[n].expireAtMs else None;
      s.(nodes := s.nodes[n := Record(meta, expiry)],
         nodeIds := if answered > 2 then s.nodeIds + {n} else s.nodeIds)
  }

  // DEL of the record, DEL of the user set, SREM from the set of node ids.
  function Unregister(s: Store, nodeId: string, answered: nat): Store {
    Store(s.sessions,
          if answered > 1 then s.users - {nodeId} else s.users,
          if answered > 0 then s.nodes - {nodeId} else s.nodes,
          if answered > 2 then s.nodeIds - {nodeId} else s.nodeIds)
  }

  class Redis {
    var sessions: map<int, string>
    var users: map<string, set<int>>
    var nodes: map<string, Record>
    var nodeIds: set<string>

    ghost function View(): Store
      reads this
    {
      Store(sessions, users, nodes, nodeIds)
    }

    constructor ()
      ensures View() == EMPTY
    {
      sessions, users, nodes, nodeIds := map[], map[], map[], {};
    }

    method BindUserNode(user: int, session: Session, answered: nat) returns (ok: bool)
      modifies this
      ensures View() == Bind(old(View()), user, session, answered)
      ensures ok <==> user !in old(sessions) && answered >= 2
    {
      if answered == 0 || user in sessions {
        return false;
      }
      sessions := sessions[user := session.nodeId + "|" + session.instanceId];
      if answered == 1 {
        return false;
      }
      var known := if session.nodeId in users then users[session.nodeId] else {};
      users := users[session.nodeId := known + {user}];
      ok := true;
    }

    method UnbindUserNode(user: int, nodeId: string, answered: nat) returns (ok: bool)
      modifies this
      ensures View() == Unbind(old(View()), user, nodeId, answered)
      ensures ok <==> answered >= if nodeId == "" then 1 else 2
    {
      if answered == 0 {
        return false;
      }
      sessions := sessions - {user};
      if nodeId != "" {
        if answered == 1 {
          return false;
        }
        var known := if nodeId in users then users[nodeId] else {};
        users := users[nodeId := known - {user}];
      }
      ok := true;
    }

    method GetUserSession(user: int) returns (session: Option<Session>)
      ensures session == SessionOf(View(), user)
    {
      if user !in sessions {
        return None;
      }
      session := SplitSession(sessions[user]);
    }

    method GetNodeUsers(nodeId: string) returns (r: set<int>)
      ensures r == UsersAt(View(), nodeId)
    {
      r := if nodeId in users then users[nodeId] else {};
    }

    method GetNodeRecord(nodeId: string, nowMs: int) returns (meta: Option<Meta>)
      ensures meta == GetNode(View(), nodeId, nowMs)
    {
      if nodeId !in nodes {
        return None;
      }
      var record := nodes[nodeId];
      if (record.expireAtMs.Some? && record.expireAtMs.value <= nowMs) || !ValidMeta(record.meta) {
        return None;
      }
      meta := Some(record.meta);
    }

    method RegisterNode(meta: Meta, nowMs: int, ttlMs: int, answered: nat) returns (ok: bool)
      modifies this
      ensures View() == Register(old(View()), meta, nowMs, ttlMs, answered)
      ensures ok <==> answered >= 3
    {
      if answered == 0 {
        return false;
      }
      var n := meta.nodeId;
      var expiry := None;
      if n in nodes {
        var before := nodes[n].expireAtMs;
        if before.Some? && nowMs < before.value {
          expiry := before;
        }
      }
      nodes := nodes[n := Record(meta, expiry)];
      if answered == 1 {
        return false;
      }
      nodes := nodes[n := Record(meta, Some(nowMs + ttlMs))];
      if answered == 2 {
        return false;
      }
      nodeIds := nodeIds + {n};
      ok := true;
    }

    method UnregisterNode(nodeId: string, answered: nat) returns (ok: bool)
      modifies this
      ensures View() == Unregister(old(View()), nodeId, answered)
      ensures ok <==> answered >= 3
    {
      if answered == 0 {
        return false;
      }
      nodes := nodes - {nodeId};
      if answered == 1 {
        return false;
      }
      users := users - {nodeId};
      if answered == 2 {
        return false;
      }
      nodeIds := nodeIds - {nodeId};
      ok := true;
    }
  }

  // ----- the operations, as the lookups see them -----

  // A new session is stored when the first command is answered, and its user indexed
  // under its node when the second is too; nothing else changes.
  lemma BindExactly(s: Store, user: int, session: Session, answered: nat, u: int, n: string)
    ensures var t, fresh' := Bind(s, user, session, answered), user !in s.sessions;
            && (u in t.sessions <==> u in s.sessions || (u == user && answered >= 1))
            && (u in s.sessions ==> t.sessions[u] == s.sessions[u])
            && (fresh' && answered >= 1 && Plain(session) ==> SessionOf(t, user) == Some(session))
            && (u in UsersAt(t, n) <==>
                  u in UsersAt(s, n) || (fresh' && u == user && n == session.nodeId && answered >= 2))
            && t.nodes == s.nodes && t.nodeIds == s.nodeIds
  {
    SessionRoundTrip(session);
  }

  // The session goes with the first command, the user's index entry under the given
  // node with the second.
  lemma UnbindExactly(s: Store, user: int, nodeId: string, answered: nat, u: int, n: string)
    ensures var t := Unbind(s, user, nodeId, answered);
            && (u in t.sessions <==> u in s.sessions && !(u == user && answered >= 1))
            && (u in t.sessions ==> t.sessions[u] == s.sessions[u])
            && (u in UsersAt(t, n) <==>
                  u in UsersAt(s, n) && !(u == user && n == nodeId && nodeId != "" && answered >= 2))
            && t.nodes == s.nodes && t.nodeIds == s.nodeIds
  {
  }

  // A registration whose EXPIRE was answered is seen until exactly its lifetime is over,
  // one with only HMSET answered as long as a record that was there, or for ever; the
  // node id is listed with the third command. Other nodes, sessions and sets stay.
  lemma RegisterExactly(s: Store, meta: Meta, nowMs: int, ttlMs: int, answered: nat, n: string, later: int)
    requires ValidMeta(meta) && later >= nowMs
    ensures var t := Register(s, meta, nowMs, ttlMs, answered);
            && (n == meta.nodeId && answered >= 2 ==>
                  GetNode(t, n, later) == if later < nowMs + ttlMs then Some(meta) else None)
            && (n == meta.nodeId && answered == 1 ==>
                  GetNode(t, n, later) == if Alive(s, n, nowMs) && !Alive(s, n, later) then None else Some(meta))
            && (n != meta.nodeId || answered == 0 ==> GetNode(t, n, later) == GetNode(s, n, later))
            && (n in t.nodeIds <==> n in s.nodeIds || (n == meta.nodeId && answered >= 3))
            && t.sessions == s.sessions && t.users == s.users
  {
  }

  // Record, user set and listed id go with the first, second and third command.
  lemma UnregisterExactly(s: Store, nodeId: string, answered: nat, n: string, later: int)
    ensures var t := Unregister(s, nodeId, answered);
            && GetNode(t, n, later) == (if n == nodeId && answered >= 1 then None else GetNode(s, n, later))
            && UsersAt(t, n) == (if n == nodeId && answered >= 2 then {} else UsersAt(s, n))
            && (n in t.nodeIds <==> n in s.nodeIds && !(n == nodeId && answered >= 3))
            && t.sessions == s.sessions
  {
  }

  // ----- expiry -----

  // A registration of which at least the first command was answered leaves a record
  // that never expires exactly when EXPIRE failed and no expiry was there to keep.
  lemma RegisteredForever(s: Store, meta: Meta, nowMs: int, ttlMs: int, answered: nat)
    requires ValidMeta(meta) && answered > 0
    ensures var t := Register(s, meta, nowMs, ttlMs, answered);
            (forall later :: later >= nowMs ==> GetNode(t, meta.nodeId, later) == Some(meta))
            <==> answered == 1 && !(Alive(s, meta.nodeId, nowMs) && s.nodes[meta.nodeId].expireAtMs.Some?)
  {
    var t := Register(s, meta, nowMs, ttlMs, answered);
    var expiry := t.nodes[meta.nodeId].expireAtMs;
    if expiry.Some? {
      var late := if expiry.value > nowMs then expiry.value else nowMs;
      assert GetNode(t, meta.nodeId, late) == None;
    }
  }

  // ----- the user index -----

  // A session naming a node is indexed under that node.
  ghost predicate Indexed(s: Store) {
    forall u :: u in s.sessions ==> IndexedUser(s, u)
  }

  predicate IndexedUser(s: Store, user: int) {
    SessionOf(s, user).Some? ==> user in UsersAt(s, SessionOf(s, user).value.nodeId)
  }

  predicate Plain(session: Session) {
    '|' !in session.instanceId && session.nodeId != ""
  }

  // Binding keeps the index exactly when it wrote no session, indexed it, or the user was in the node's set.
  lemma BindKeepsIndex(s: Store, user: int, session: Session, answered: nat)
    requires Indexed(s) && Plain(session)
    ensures Indexed(Bind(s, user, session, answered))
       <==> user in s.sessions || answered != 1 || user in UsersAt(s, session.nodeId)
  {
    var t := Bind(s, user, session, answered);
    SessionRoundTrip(session);
    forall u | u in s.sessions ensures IndexedUser(s, u) && (user !in s.sessions ==> IndexedUser(t, u)) {
      assert IndexedUser(s, u);
    }
    if user !in s.sessions && answered > 0 {
      assert SessionOf(t, user) == Some(session);
      assert user in t.sessions;
      assert IndexedUser(t, user) <==> user in UsersAt(t, session.nodeId);
    }
  }

  lemma UnbindKeepsIndex(s: Store, user: int, nodeId: string, answered: nat)
    requires Indexed(s)
    ensures Indexed(Unbind(s, user, nodeId, answered))
  {
  }

  // Unregistering drops the node's user set with its second command; it keeps the
  // index exactly when it does not get that far or no session names the node.
  lemma UnregisterKeepsIndex(s: Store, nodeId: string, answered: nat)
    requires Indexed(s)
    ensures Indexed(Unregister(s, nodeId, answered))
       <==> answered < 2 || forall u :: u in s.sessions ==>
            SessionOf(s, u).None? || SessionOf(s, u).value.nodeId != nodeId
  {
  }
}
