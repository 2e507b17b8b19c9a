/**
 The way of one recipient through the system: which step comes next for it, and what
 becomes of it. Local delivery is always tried first; oneChat then asks the registry
 and the router, a receiver does not; the offline table comes last.
 */
module ClusterMeaning {
  import opened Bytes
  import opened Wrappers
  import opened Cluster
  import C = ChannelProtocol
  import M = ChannelMeaning
  import T = ChannelTheorems
  import F = FanOut

  // The recipient at place i can only be tried locally, looked up, sent on, or stored.
  predicate OnlyLocal(s: System, i: nat) {
    && Enabled(s, TryLocal(i, None)) && !Enabled(s, AskRegistry(i, None))
    && !Enabled(s, AskRouter(i, None)) && !Enabled(s, StoreOne(i))
  }

  predicate OnlyRegistry(s: System, i: nat) {
    && !Enabled(s, TryLocal(i, None)) && Enabled(s, AskRegistry(i, None))
    && !Enabled(s, AskRouter(i, None)) && !Enabled(s, StoreOne(i))
  }

  predicate OnlyRouter(s: System, i: nat) {
    && !Enabled(s, TryLocal(i, None)) && !Enabled(s, AskRegistry(i, None))
    && Enabled(s, AskRouter(i, None)) && !Enabled(s, StoreOne(i))
  }

  predicate OnlyStore(s: System, i: nat) {
    && !Enabled(s, TryLocal(i, None)) && !Enabled(s, AskRegistry(i, None))
    && !Enabled(s, AskRouter(i, None)) && Enabled(s, StoreOne(i))
  }

  lemma OneChatStarts(s: System, self: F.NodeId, user: int)
    ensures var t, i := Apply(s, OneChat(self, user)), |s.singles|;
            && |t.singles| == i + 1 && t.singles[..i] == s.singles && OnlyLocal(t, i)
            && t.singles[i].ob.user == user && t.singles[i].self == self && !t.singles[i].relay
            && t.created == s.created + [t.singles[i].ob]
  {
  }

  // One new recipient for each in the next message of the connection, in order.
  lemma ReceiveStarts(s: System, self: F.NodeId, r: nat, k: nat, j: nat)
    requires Enabled(s, Receive(self, r, k)) && j < |NextPacket(s.routes[r], k)|
    ensures var t, i := Apply(s, Receive(self, r, k)), |s.singles| + j;
            && |t.singles| == |s.singles| + |NextPacket(s.routes[r], k)| && t.singles[..|s.singles|] == s.singles
            && OnlyLocal(t, i) && t.singles[i].ob == NextPacket(s.routes[r], k)[j]
            && t.singles[i].self == self && t.singles[i].relay && t.created == s.created
  {
  }

  // With a connection and room in its queue the recipient goes there; otherwise oneChat
  // goes on to the registry and a receiver to the offline table.
  lemma LocalTried(s: System, i: nat, loop: Option<nat>)
    requires Enabled(s, TryLocal(i, loop))
    ensures var t, x := Apply(s, TryLocal(i, loop)), s.singles[i];
            var room := loop.Some? && |s.dispatchers[loop.value].q.pending| < s.dispatchers[loop.value].q.limit;
            && (room ==> t.dispatchers[loop.value].accepted == s.dispatchers[loop.value].accepted + [x.ob]
                         && t.singles == Without(s.singles, i))
            && (!room ==> t.dispatchers == s.dispatchers && t.singles[i].(stage := x.stage) == x
                          && if x.relay then OnlyStore(t, i) else OnlyRegistry(t, i))
            && t.offline == s.offline && t.routes == s.routes
  {
  }

  // The router is asked exactly when the registry names another node.
  lemma RegistryAsked(s: System, i: nat, answer: Option<F.NodeId>)
    requires Enabled(s, AskRegistry(i, answer))
    ensures var t, x := Apply(s, AskRegistry(i, answer)), s.singles[i];
            && t.singles[i].(stage := x.stage) == x
            && (if answer.Some? && answer.value != x.self then OnlyRouter(t, i) else OnlyStore(t, i))
            && t.offline == s.offline && t.routes == s.routes && t.dispatchers == s.dispatchers
  {
  }

  // A channel takes a packet exactly when it is not stopped and can send at once or has room.
  lemma AcceptsExactly(route: Route, packet: Packet)
    requires T.Inv(route.ch)
    ensures var c := route.ch.c;
            Accepts(route, packet) <==> !c.ch.closing && (M.Direct(c) || |c.ch.pending| < c.ch.limit)
  {
  }

  lemma RouterAsked(s: System, i: nat, r: Option<nat>)
    requires Enabled(s, AskRouter(i, r))
    ensures var t, x := Apply(s, AskRouter(i, r)), s.singles[i];
            var taken := r.Some? && Accepts(s.routes[r.value], [x.ob]);
            && (taken ==> t.routes[r.value].ch.log.accepted == s.routes[r.value].ch.log.accepted + [[x.ob]]
                          && t.singles == Without(s.singles, i))
            && (!taken ==> t.routes == s.routes && t.singles[i].(stage := x.stage) == x && OnlyStore(t, i))
            && t.offline == s.offline && t.dispatchers == s.dispatchers
  {
    if r.Some? {
      AcceptedOnlyBySend(s.routes[r.value].ch, C.Send([s.singles[i].ob]));
    }
  }

  lemma Stored(s: System, i: nat)
    requires Enabled(s, StoreOne(i))
    ensures var t := Apply(s, StoreOne(i));
            && t.offline == s.offline + [s.singles[i].ob] && t.singles == Without(s.singles, i)
            && t.routes == s.routes && t.dispatchers == s.dispatchers
  {
  }
}
