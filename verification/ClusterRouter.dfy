/** ClusterRouter's channel table: which channel carries a message, and when it is replaced. */
module ClusterRouter {
  import opened Wrappers
  import opened Numerals
  import opened ChannelState
  import opened ShardChannel

  datatype NodeMeta = NodeMeta(nodeId: string, instanceId: string, endpoint: Endpoint)

  predicate ValidNode(node: NodeMeta) {
    node.nodeId != "" && node.endpoint.ip != "" && node.endpoint.port != 0
  }

  // userId -> shard; the minimum int, whose negation is undefined, is not a user.
  function PickShard(userId: int, shardCount: nat): (r: nat)
    ensures shardCount > 0 ==> r < shardCount
  {
    if shardCount == 0 then 0 else (if userId >= 0 then userId else -userId) % shardCount
  }

  // The absolute value of the id is a number of rounds over all shards, and its shard more.
  lemma ShardExactly(userId: int, shardCount: nat) returns (rounds: nat)
    requires shardCount > 0
    ensures PickShard(userId, shardCount) < shardCount
    ensures userId == rounds * shardCount + PickShard(userId, shardCount)
         || -userId == rounds * shardCount + PickShard(userId, shardCount)
  {
    var x := if userId >= 0 then userId else -userId;
    rounds := x / shardCount;
    Rounds(x, shardCount);
  }

  lemma Rounds(x: nat, n: nat)
    requires n > 0
    ensures x == x / n * n + x % n
  {
  }

  function ChannelKey(nodeId: string, shard: nat): string {
    nodeId + "#" + Decimal(shard)
  }

  // Different nodes or shards never share a channel, even when node ids contain the separator.
  lemma KeysAreUnique(n1: string, s1: nat, n2: string, s2: nat)
    ensures ChannelKey(n1, s1) == ChannelKey(n2, s2) <==> n1 == n2 && s1 == s2
  {
    var k1, k2 := ChannelKey(n1, s1), ChannelKey(n2, s2);
    if k1 == k2 {
      SeparatorIsLast(n1, s1);
      SeparatorIsLast(n2, s2);
      assert |n1| == |n2|;
      assert k1[..|n1|] == n1 && k2[..|n2|] == n2;
      assert k1[|n1| + 1..] == Decimal(s1) && k2[|n2| + 1..] == Decimal(s2);
      DecimalRoundTrip(s1);
      DecimalRoundTrip(s2);
    }
  }

  lemma SeparatorIsLast(n: string, s: nat)
    ensures var k := ChannelKey(n, s); |n| < |k| && k[|n|] == '#' && forall i :: |n| < i < |k| ==> k[i] != '#'
  {
    var k, d := ChannelKey(n, s), Decimal(s);
    forall i | |n| < i < |k| ensures k[i] != '#' {
      assert k[i] == d[i - |n| - 1] && d[i - |n| - 1] in d;
    }
  }

  // The first lookup: a channel that may be used, or a stale one that has been taken out.
  function Lookup<C(==)>(m: map<string, C>, key: string, usable: bool): (map<string, C>, Option<C>, Option<C>) {
    if key !in m then (m, None, None)
    else if usable then (m, Some(m[key]), None)
    else (m - {key}, None, Some(m[key]))
  }

  // The second lookup: the table and the channel to use.
  function Publish<C(==)>(m: map<string, C>, key: string, made: C): (map<string, C>, C) {
    if key in m then (m, m[key]) else (m[key := made], made)
  }

  class ClusterRouter<T(==)> {
    const shardCount: nat
    const queueLimit: nat
    const highWaterMark: nat
    const ioThreadCount: nat
    var connMap: map<string, ShardChannel<T>>

    // No channel is stored under two keys, and none of them has been stopped.
    ghost predicate Valid()
      reads this, connMap.Values
    {
      && (forall k, l :: k in connMap && l in connMap && k != l ==> connMap[k] != connMap[l])
      && (forall k :: k in connMap ==> !connMap[k].closing)
    }

    // Settings that are not positive leave the defaults; the queue limit has a second
    // setting to fall back to; without a setting there are as many I/O threads as
    // shards, but at most four.
    constructor (shards: int, connectingLimit: Option<int>, otherLimit: int, mark: int, threads: int)
      ensures Valid() && connMap == map[]
      ensures shardCount == if shards > 0 then shards else 4
      ensures var limit := if connectingLimit.Some? then connectingLimit.value else otherLimit;
              queueLimit == if limit > 0 then limit else 256
      ensures highWaterMark == if mark > 0 then mark else 512 * 1024
      ensures ioThreadCount > 0
      ensures if threads > 0 then ioThreadCount == threads
              else ioThreadCount <= 4 && ioThreadCount <= shardCount && ioThreadCount in {4, shardCount}
    {
      var count := if shards > 0 then shards else 4;
      shardCount := count;
      var limit := otherLimit;
      if connectingLimit.Some? {
        limit := connectingLimit.value;
      }
      queueLimit := if limit > 0 then limit else 256;
      highWaterMark := if mark > 0 then mark else 512 * 1024;
      var io := threads;
      if io <= 0 {
        io := count;
        if io > 4 {
          io := 4;
        }
      }
      ioThreadCount := io;
      connMap := map[];
    }

    method LookupSection(key: string, endpoint: Endpoint)
      returns (found: Option<ShardChannel<T>>, stale: Option<ShardChannel<T>>)
      modifies this
      ensures (connMap, found, stale)
           == Lookup(old(connMap), key, key in old(connMap) && old(connMap)[key].endpoint == endpoint)
      ensures var (known, same) := (key in old(connMap), key in old(connMap) && old(connMap)[key].endpoint == endpoint);
              && found == (if same then Some(old(connMap)[key]) else None)
              && stale == (if known && !same then Some(old(connMap)[key]) else None)
              && connMap == if known && !same then old(connMap) - {key} else old(connMap)
    {
      found, stale := None, None;
      if key in connMap {
        if connMap[key].endpoint == endpoint {
          return Some(connMap[key]), None;
        }
        stale := Some(connMap[key]);
        connMap := connMap - {key};
      }
    }

    // A channel that another thread has stored meanwhile wins, and the one made here is stopped.
    method PublishSection(key: string, made: ShardChannel<T>) returns (channel: ShardChannel<T>)
      modifies this, made
      ensures (connMap, channel) == Publish(old(connMap), key, made)
      ensures if key in old(connMap) then connMap == old(connMap) && channel == old(connMap)[key]
              else connMap == old(connMap)[key := made] && channel == made
      ensures made.View() == if key in old(connMap) then Stopped(old(made.View())) else old(made.View())
      ensures made.sent == old(made.sent)
    {
      if key in connMap {
        var _ := made.StopSection();
        return connMap[key];
      }
      connMap := connMap[key := made];
      channel := made;
    }

    // Without another thread in between: the stored channel if it still leads to the
    // node's endpoint; otherwise that one is stopped and a new one takes its place.
    method GetOrCreateChannel(node: NodeMeta, shard: nat) returns (channel: ShardChannel<T>)
      requires Valid()
      modifies this, connMap.Values
      ensures Valid()
      ensures connMap == old(connMap)[ChannelKey(node.nodeId, shard) := channel]
      ensures channel.endpoint == node.endpoint
      ensures var key := ChannelKey(node.nodeId, shard);
              if key in old(connMap) && old(connMap)[key].endpoint == node.endpoint
              then channel == old(connMap)[key] && channel.View() == old(connMap[key].View())
                   && channel.sent == old(connMap[key].sent)
              else fresh(channel) && channel.View() == NewChannel(queueLimit) && channel.sent == []
                   && (key in old(connMap) ==> old(connMap)[key].View() == Stopped(old(connMap[key].View())))
      ensures forall k :: k in old(connMap) && k != ChannelKey(node.nodeId, shard)
                ==> old(connMap)[k].View() == old(connMap[k].View())
    {
      var key := ChannelKey(node.nodeId, shard);
      var found, stale := LookupSection(key, node.endpoint);
      if found.Some? {
        return found.value;
      }
      if stale.Some? {
        var _ := stale.value.StopSection();
      }
      channel := new ShardChannel<T>(node.endpoint, queueLimit);
      channel := PublishSection(key, channel);
    }

    // The state of the channel that a message for the key would go to.
    ghost function ViewFor(key: string, endpoint: Endpoint): Channel<T>
      reads this, connMap.Values
    {
      if key in connMap && connMap[key].endpoint == endpoint then connMap[key].View() else NewChannel(queueLimit)
    }

    // sendInternalMessage: the verdict is that of the channel for this node and shard,
    // the stored one or, when there is none to the node's endpoint, a new one.
    method SendInternalMessage(node: NodeMeta, shard: nat, message: T, live: Option<nat>) returns (verdict: Verdict)
      requires Valid()
      modifies this, connMap.Values
      ensures Valid()
      ensures var key := ChannelKey(node.nodeId, shard);
              && key in connMap && connMap[key].endpoint == node.endpoint
              && (connMap[key].View(), verdict) == Enqueue(old(ViewFor(key, node.endpoint)), live, message)
    {
      var channel := GetOrCreateChannel(node, shard);
      verdict := channel.EnqueueOrSend(live, message);
    }

    // All messages for one user go to the same shard of a node.
    method SendOneChat(node: NodeMeta, toUser: int, message: T, live: Option<nat>) returns (ok: bool)
      requires Valid()
      modifies this, connMap.Values
      ensures Valid()
      ensures !ValidNode(node) ==> !ok && connMap == old(connMap)
      ensures ValidNode(node) ==>
                var key := ChannelKey(node.nodeId, PickShard(toUser, shardCount));
                && key in connMap && connMap[key].endpoint == node.endpoint
                && var (after, verdict) := Enqueue(old(ViewFor(key, node.endpoint)), live, message);
                connMap[key].View() == after && ok == !verdict.Refused?
    {
      if !ValidNode(node) {
        return false;
      }
      var verdict := SendInternalMessage(node, PickShard(toUser, shardCount), message, live);
      ok := !verdict.Refused?;
    }

    // A group record goes to the shard of its first user.
    method SendGroupChat(node: NodeMeta, toUsers: seq<int>, message: T, live: Option<nat>) returns (ok: bool)
      requires Valid()
      modifies this, connMap.Values
      ensures Valid()
      ensures !ValidNode(node) ==> !ok && connMap == old(connMap)
      ensures ValidNode(node) ==>
                var key := ChannelKey(node.nodeId, if toUsers == [] then 0 else PickShard(toUsers[0], shardCount));
                && key in connMap && connMap[key].endpoint == node.endpoint
                && var (after, verdict) := Enqueue(old(ViewFor(key, node.endpoint)), live, message);
                connMap[key].View() == after && ok == !verdict.Refused?
    {
      if !ValidNode(node) {
        return false;
      }
      var shard := 0;
      if toUsers != [] {
        shard := PickShard(toUsers[0], shardCount);
      }
      var verdict := SendInternalMessage(node, shard, message, live);
      ok := !verdict.Refused?;
    }

    // closeAll empties the table and then stops every channel it held.
    method CloseAll()
      requires Valid()
      modifies this, connMap.Values
      ensures Valid() && connMap == map[]
      ensures forall k :: k in old(connMap) ==> old(connMap)[k].View() == Stopped(old(connMap[k].View()))
    {
      var channels, todo := connMap, connMap.Keys;
      connMap := map[];
      while todo != {}
        invariant todo <= channels.Keys && connMap == map[]
        invariant forall k :: k in channels ==>
                    channels[k].View() == if k in todo then old(connMap[k].View()) else Stopped(old(connMap[k].View()))
      {
        var k :| k in todo;
        var _ := channels[k].StopSection();
        todo := todo - {k};
      }
    }
  }
}
