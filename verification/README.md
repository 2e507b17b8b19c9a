# OneChat: a verified model of message delivery

OneChat is a clustered chat server. A client connection ends at one node; a
message to a user of another node travels over a sharded inter-node channel, and
Redis says which node a user is on. This project models that delivery path, from
the bytes a client writes to the bytes another client reads, and the JSON patch
code of the vendored JSON library.

| part | files |
|---|---|
| inter-node channel: lock sections, all interleavings, conservation, progress, order | `ChannelState`, `ChannelProtocol`, `ShardChannel`, `ChannelTheorems`, `ChannelMeaning`, `ChannelOrder` |
| which channel carries a message, with any number of threads asking | `ClusterRouter`, `ChannelTable` |
| wire protocol of that channel | `WireProtocol`, `FrameFaults`, `ClusterServer` |
| delivery inside a node | `LocalDispatcher`, `ConnectionTable`, `ChatNode`, `FanOut` |
| the whole delivery path at once: conservation, progress | `Cluster`, `ClusterMeaning`, `ClusterProgress` |
| session registry and its caches | `RedisStore`, `SessionRuns`, `NodeRegistry`, `LookupMeaning`, `RegistryRuns`, `LookupSteps` |
| stream splitters of server and client | `ChatServer`, `ClientStream` |
| JSON Patch (RFC 6902), Merge Patch (RFC 7396), iterative destruction | `JsonTree`, `JsonPatch`, `PatchMeaning`, `JsonDiff`, `MergePatch`, `MergeMeaning`, `JsonDestroy` |
| shared vocabulary | `Wrappers`, `Bytes`, `Splitting`, `Sums`, `Numerals` |

Objects that the source updates in place are classes; each of their methods is
proved against a function of the old state. The theorems are about runs of those
functions, and the `Meaning` modules say what each function does in terms of what
can be seen before and after it, and when. Verify with `dafny verify dfyconfig.toml`.

## Assumptions

- A lock section is one step, and so is every `send`, callback and loop task. The
  step of a `send` is the moment its bytes are written or enter the connection's
  output buffer, not the call: a call from outside the connection's loop is only
  handed to that loop. Between a lock section and that moment anything may happen;
  no theorem about conservation or progress needs more.
- Callbacks queued for a connection run before the next connection comes up; a
  connection that went down is dialled again while its client exists; a non-empty
  output buffer is eventually written or its connection fails.
- The steady clock and the clock Redis expires keys by are one clock that only
  moves forward. `stall` bounds the time between a thread's Redis read and its
  cache write.
- Every method of the Redis wrapper is one operation. A command that gets no answer
  has had no effect; `answered` says how many commands of a method got one. Lookups,
  and what the registry does inside a lookup or a cleanup, are always answered.
- The offline table takes every insert.

## What the proofs found

- **Order.** On one connection the receiver sees a prefix of what the lock released
  exactly when live sends follow lock order (`ChannelOrder.OrderExactly`), for which
  it is enough that no step comes between a lock section and its bytes entering the
  output buffer (`ChannelOrder.AtomicIsOrdered`). The code does not enforce that: `enqueueOrSend`
  decides under the lock at `src/server/clusterrouter.cpp:306-330` and sends at line
  334 after leaving it, so of two senders the second can send first
  (`ChannelOrder.Overtaking`).
- **Length field.** It is computed in `size_t` and cut to 32 bits. A frame survives
  the round trip exactly when its payload is shorter than 2^32 - 4 bytes
  (`WireProtocol.RoundTripExactly`).
- **Malformed frames.** A bad magic or a short body clears the whole buffer. The
  outcome is the same for all ways of cutting the bytes into chunks exactly when no
  frame is malformed, or nothing follows the first malformed one but NULs and `O`s
  with at least three more bytes behind each (`FrameFaults.CutsNeverMatterExactly`).
- **Cleanup.** A cleanup deletes the sessions of everybody in the node's user set,
  whoever owns them: exactly those (`SessionRuns.CleanupScope`). A user can be in the
  set of a node and have a session on another, because an unbind on behalf of the
  second deletes the session and leaves the first node's set alone; the first node's
  cleanup then takes the new session (`SessionRuns.ForeignSessionTaken`).
- **Endpoints.** A thread that loses the race to create a channel gets the winner's
  without a second look at its endpoint, so it gets a channel to another endpoint
  exactly when the winner asked for another one (`ChannelTable.RightEndpoint`,
  `ChannelTable.WrongEndpoint`).
- **Expiry.** When the `EXPIRE` of a registration gets no answer and the record had no
  expiry yet, it never expires (`RedisStore.RegisteredForever`).
- **Failed moves.** A failed patch operation leaves the document as it was, except a
  `move` whose source existed: its value is gone (`JsonPatch.FailureKeepsDocument`,
  `JsonPatch.MoveLosesValue`).
- **Staleness.** Cached routes are stale for at most the cache lifetime plus the time a
  reader is held up between its Redis read and its cache write
  (`RegistryRuns.BoundedStaleness`), and can be stale for exactly that long
  (`RegistryRuns.BoundIsTight`).
- **Session values.** They are split at the last bar, so they read back as written
  exactly when the instance id has no bar and the node id is not empty
  (`RedisStore.SessionRoundTrip`).
- **Stray braces.** A closing brace outside any object is counted too, so the client does
  not find the end of the next object (`ClientStream.StrayBrace`).
- **`removeLocalConnectionByConn`** answers -1 for "not found", which is ambiguous only
  when user -1 holds that very connection (`ConnectionTable.LocalConnections.RemoveByConn`).

## Model

| member | source | states |
|---|---|---|
| ShardChannel.ShardChannel.EnqueueOrSend | src/server/clusterrouter.cpp:286-350 | Sent at once exactly when open, up, not overloaded and nothing waits; otherwise queued at the end exactly when open and fewer than the limit wait, dialling or not; a connect is asked for exactly when it was queued with none up or under way, a drain exactly when queued while up and not overloaded. |
| ShardChannel.ShardChannel.DrainPendingInLoop | src/server/clusterrouter.cpp:376-409 | Undisturbed, the loop sends the whole backlog in order on the stored connection and leaves nothing, or it may not pop and changes nothing; it is a run of the drain steps of the protocol, whatever effect each send has. |
| ShardChannel.DrainRun | src/server/clusterrouter.cpp:376-409 | From every protocol state with a drain due and nothing in flight, popping and sending until nothing may be popped is a run that writes exactly the backlog, in order, and uses up the drain. |
| ShardChannel.ShardChannel.PrewarmSection | src/server/clusterrouter.cpp:147-185 | Asks for a connect exactly when not closing, not connected and not connecting, and then marks the channel connecting. |
| ShardChannel.ShardChannel.ConnectSection | src/server/clusterrouter.cpp:352-374 | Goes on exactly when the channel is neither closing nor connected; otherwise the connecting mark is withdrawn. |
| ShardChannel.ShardChannel.ConnectionSection | src/server/clusterrouter.cpp:411-443 | A connection coming up is stored and clears both flags; one going down is dropped and leaves a non-closing channel marked connecting. |
| ShardChannel.ShardChannel.OverloadSection | src/server/clusterrouter.cpp:445-471 | High water sets overloaded, write-complete clears it, nothing else changes. |
| ShardChannel.ShardChannel.StopSection | src/server/clusterrouter.cpp:473-498 | Closes the channel, empties the backlog and hands back the dropped connection. |
| ChannelProtocol.ShapeKept | src/server/clusterrouter.cpp:286-498 | Every step keeps: backlog within its limit, the stored connection is the last one, a closing channel has no backlog, only a stop clears. |
| ChannelProtocol.LockOrderKept | src/server/clusterrouter.cpp:286-409 | Every step keeps: messages taken under the lock, then the backlog, then what a stop cleared, concatenated, are the accepted sequence. |
| ChannelProtocol.BackedKept | src/server/clusterrouter.cpp:286-471 | Every step keeps the truth of the flags, among them: connected, not overloaded and a non-empty backlog imply that a drain is due; down with a backlog implies that a connect is due or dialling; overloaded implies a write-complete to come. |
| ChannelTheorems.ConservedKept | src/server/clusterrouter.cpp:286-409 | Every step keeps: what was taken is, as a multiset, on the wires, in flight, or sent on dead connections. |
| ChannelTheorems.InvAlong | src/server/clusterrouter.cpp:286-498 | The four invariants together hold along every run. |
| ChannelTheorems.ChannelConserves | src/server/clusterrouter.cpp:286-498 | After any run, accepted = wires + in flight + lost on dead connections + backlog + cleared as multisets; the backlog respects its limit; the lock releases in acceptance order. |
| ChannelTheorems.ClosedForever | src/server/clusterrouter.cpp:473-498 | A stopped channel stays stopped and empty along every run and accepts nothing more. |
| ChannelTheorems.WorkShrinks | src/server/clusterrouter.cpp:352-471 | Every loop task, callback or send that is not a new message, failure or stop lowers a natural number. |
| ChannelTheorems.RestMeansEmpty | src/server/clusterrouter.cpp:286-471 | Where no such step is possible, backlog and in-flight messages are empty. |
| ChannelTheorems.NoStrandedBacklog | src/server/clusterrouter.cpp:286-471 | From any reachable open state such steps are bounded in number, and where they end everything accepted has been sent. |
| ChannelMeaning.SendExactly | src/server/clusterrouter.cpp:286-350 | After any run, told by flags and logs: a send extends the accepted messages if and only if the channel is not stopped and either it is up, not overloaded and nothing waits, or fewer than the limit wait; where it goes, and what it asks for, accordingly. |
| ChannelMeaning.PrewarmExactly | src/server/clusterrouter.cpp:166-184 | A prewarm asks for a connect if and only if the channel is not stopped, not up, and none is under way; it does nothing else. |
| ChannelMeaning.ConnectExactly | src/server/clusterrouter.cpp:352-374 | A connect task goes on if and only if the channel is neither stopped nor up. |
| ChannelMeaning.DrainExactly | src/server/clusterrouter.cpp:376-409 | A drain takes the first waiting message for the live connection if and only if the channel is open, not overloaded and has one; otherwise it ends. |
| ChannelMeaning.LinkExactly | src/server/clusterrouter.cpp:411-443 | What a connection coming up and going down does to flags, stored connection and due drains. |
| ChannelMeaning.StopExactly | src/server/clusterrouter.cpp:473-498 | A stop closes, forgets the connection and drops the backlog, and only that. |
| ChannelMeaning.CallbackExactly | src/server/clusterrouter.cpp:445-471 | The high-water callback raises the overload flag; write-complete lowers it and asks for a drain. |
| ChannelMeaning.OverloadedReleasesNothing | src/server/clusterrouter.cpp:286-471 | From high water until write-complete or a new connection nothing more is released, whatever is sent and however many drains run. |
| ChannelOrder.WireOrderKept | src/server/clusterrouter.cpp:286-409 | A step that sends in turn keeps: wire plus in-flight messages of the live connection are what the lock released to it. |
| ChannelOrder.OutOfTurnGarbles | src/server/clusterrouter.cpp:401-408 | A live send out of turn, with distinct messages, makes the wire differ from the released sequence. |
| ChannelOrder.GarbledForever | src/server/clusterrouter.cpp:401-408 | Such a difference is never repaired. |
| ChannelOrder.OrderExactly | src/server/clusterrouter.cpp:286-409 | For every run with distinct messages: each connection carries a prefix of what was released to it if and only if every live send was made in turn. |
| ChannelOrder.AtomicIsOrdered | src/server/clusterrouter.cpp:376-409 | When no step comes between a lock section that takes a message and its bytes entering the output buffer, every live send is made in turn. |
| ChannelOrder.DeliveredInOrder | src/server/clusterserver.cpp:87-153 | End to end, for any run with sends in turn, any connection and any chunking of any received prefix of its bytes: the messages handed over are a gap-free stretch of the accepted sequence, and for the first connection a prefix of it. |
| ChannelOrder.AtomicDelivery | src/server/clusterserver.cpp:87-153 | The same end-to-end order whenever lock section and send are one step. |
| ChannelOrder.Overtaking | src/server/clusterrouter.cpp:286-335 | A run of two senders in which both are accepted for sending at once and the second message reaches the wire first. |
| ClusterRouter.KeysAreUnique | src/server/clusterrouter.cpp:515-518 | Channel keys coincide exactly for the same node and shard, even if node ids contain the separator. |
| ClusterRouter.ShardExactly | src/server/clusterrouter.cpp:505-513 | The absolute value of the id is a number of rounds over all shards and its shard more, which is below the shard count. |
| ClusterRouter.ClusterRouter.constructor | src/server/clusterrouter.cpp:32-74 | Shard count, queue limit and high-water mark keep their defaults unless the setting is positive, the queue limit falling back to its second setting only when the first is absent; without a positive setting there are as many I/O threads as shards, at most four, at least one. |
| ClusterRouter.ClusterRouter.GetOrCreateChannel | src/server/clusterrouter.cpp:213-266 | Without another thread in between: the stored channel is reused exactly when it leads to the node's endpoint; otherwise it is stopped and replaced by a fresh one; no other channel changes, and no stopped or shared channel is ever stored. |
| ClusterRouter.ClusterRouter.SendInternalMessage | src/server/clusterrouter.cpp:205-211 | The message is offered to the stored channel of node and shard, or to a new one when there is none to the node's endpoint, and the verdict is that channel's. |
| ClusterRouter.ClusterRouter.SendOneChat | src/server/clusterrouter.cpp:94-118 | Refused without effect for an invalid node; otherwise offered to the user's shard. |
| ClusterRouter.ClusterRouter.SendGroupChat | src/server/clusterrouter.cpp:120-145 | Refused without effect for an invalid node; otherwise offered to the shard of the first user, or the first shard without users. |
| ClusterRouter.ClusterRouter.LookupSection | src/server/clusterrouter.cpp:219-232 | The stored channel is returned when its endpoint is the asked one, and taken out of the table otherwise. |
| ClusterRouter.ClusterRouter.PublishSection | src/server/clusterrouter.cpp:256-265 | The new channel is stored, or stopped in favour of the one that another thread has stored. |
| ClusterRouter.ClusterRouter.CloseAll | src/server/clusterrouter.cpp:187-203 | The table is emptied and every channel it held is stopped. |
| ChannelTable.InvKept | src/server/clusterrouter.cpp:187-266 | Every section of any number of threads, closeAll included, keeps each channel ever made in exactly one place, under its own key, and with threads of that key only. |
| ChannelTable.EveryChannelAccounted | src/server/clusterrouter.cpp:187-266 | After any interleaving each channel made is exactly once in the table, with a thread that will stop or publish it, collected by closeAll, or stopped; one in the table is not stopped. |
| ChannelTable.RightEndpoint | src/server/clusterrouter.cpp:213-266 | A thread that did not lose the race has a channel of its key to its endpoint; at the second lookup the channel it gets leads there if and only if none is stored or the stored one does. |
| ChannelTable.WrongEndpoint | src/server/clusterrouter.cpp:256-262 | A run in which a thread gets a channel to another endpoint than the one it asked for. |
| ChannelTable.EveryoneGetsTheSame | src/server/clusterrouter.cpp:213-266 | When everybody agrees where each node is and closeAll is not called, all threads that have returned for a key have the same channel, which is stored, leads to the right endpoint and is not stopped. |
| WireProtocol.AppendUint32 | src/server/clusterrouter.cpp:23-29 | Appends the big-endian bytes of the value. |
| WireProtocol.Uint32RoundTrip | src/server/clusterserver.cpp:25-31 | Reading four bytes inverts writing them, for every 32-bit value. |
| WireProtocol.BuildOneChatFrame | src/server/clusterrouter.cpp:94-118 | The frame is magic, length cut to 32 bits, user and payload. |
| WireProtocol.FrameOnTheWire | src/server/clusterrouter.cpp:94-118 | The bytes of one frame, written out. |
| WireProtocol.JsonObjectSendable | src/server/clusterrouter.cpp:133-144 | Text that starts with a brace and has no NUL is a sendable record. |
| WireProtocol.FrontStable | src/server/clusterserver.cpp:87-153 | What the receive loop decides on a buffer does not change when bytes are appended. |
| WireProtocol.DecodeSplit | src/server/clusterserver.cpp:87-153 | Decoding a + b is decoding a, then resuming with what it kept and b; for all bytes, malformed ones included. |
| WireProtocol.ChunkIndependent | src/server/clusterserver.cpp:74-153 | For any bytes and cuts: messages and kept bytes equal those of the concatenation unless a frame is malformed, in which case both notice and agree up to it. |
| FrameFaults.FaultedPrefix | src/server/clusterserver.cpp:87-131 | The decoder has met a malformed frame in exactly the prefixes that reach the byte revealing the first one. |
| FrameFaults.ShortBodyClears | src/server/clusterserver.cpp:105-111 | A frame that announces fewer bytes than its own prefix clears the buffer. |
| FrameFaults.CutsNeverMatterExactly | src/server/clusterserver.cpp:74-153 | For every byte string: all ways of cutting it give the same messages, kept bytes and fault if and only if it has no malformed frame, or only harmless bytes follow the first one. |
| FrameFaults.HarmfulCut | src/server/clusterserver.cpp:104-131 | For any other byte string, a cut into two chunks whose outcome differs from that of one chunk. |
| FrameFaults.FaultDependsOnCuts | src/server/clusterserver.cpp:126-131 | A sendable message right behind a bad magic is lost in the same chunk and received in the next one. |
| WireProtocol.EncodedFront | src/server/clusterserver.cpp:87-153 | A sendable message followed by any bytes is recognised whole. |
| WireProtocol.MixedRoundTrip | src/server/clusterserver.cpp:87-153 | Any sequence of sendable frames and records, cut anywhere, is emitted exactly once, in order, with nothing kept. |
| WireProtocol.PartialDelivery | src/server/clusterserver.cpp:87-153 | With any prefix of the bytes, cut anywhere, a prefix of the messages is emitted and no frame is malformed. |
| WireProtocol.UniquelyDecodable | src/server/clusterrouter.cpp:94-145 | Two sequences of sendable messages with the same bytes are equal. |
| WireProtocol.RoundTripExactly | src/server/clusterrouter.cpp:94-145 | A message decodes to itself if and only if it is sendable: payload below 2^32 - 4 bytes; record non-empty, without NUL, not starting with the first magic byte. |
| ClusterServer.ClusterConnection.OnMessage | src/server/clusterserver.cpp:70-154 | One receive callback hands over and keeps exactly what decoding the kept and new bytes gives; earlier messages stay. |
| LocalDispatcher.LocalLoopDispatcher.EnqueueSection | src/server/chatservice.cpp:719-763 | Accepts exactly when there is room, appends at the end, and asks for a drain exactly when the flag was unset. |
| LocalDispatcher.LocalLoopDispatcher.DrainInLoop | src/server/chatservice.cpp:684-717 | Undisturbed, a drain sends the whole queue in order and clears the flag, and is a run of the swaps and deliveries of that drain in the protocol. |
| LocalDispatcher.InvKept | src/server/chatservice.cpp:684-763 | Every step of any number of enqueuers and drains keeps the token invariant and sent + batch + queue = accepted. |
| LocalDispatcher.OneDrainer | src/server/chatservice.cpp:684-763 | After any run there is at most one drain in any form, the flag is set exactly when there is one, a non-empty queue has one, and sent, batch and queue concatenate to the accepted sequence. |
| LocalDispatcher.EnqueueExactly | src/server/chatservice.cpp:719-763 | After any run a message is accepted, as the last one, if and only if fewer than the limit wait, and a drain must be scheduled exactly when the flag was unset. |
| LocalDispatcher.WorkShrinks | src/server/chatservice.cpp:684-763 | Every step but an enqueue lowers a natural number. |
| LocalDispatcher.AllDelivered | src/server/chatservice.cpp:684-763 | Without new messages runs are bounded, and as long as something accepted is unsent a step is possible. |
| FanOut.HandlerKeeps | src/server/chatservice.cpp:489-578 | Every step of a group handler, under any answer, keeps count of each recipient: waiting before = waiting after + handed out by the step. |
| FanOut.GroupedByNode | src/server/chatservice.cpp:522-544 | A node has a batch if and only if it is not this node and some member was resolved to it; the batch is exactly those members in order. |
| FanOut.GroupConserved | src/server/chatservice.cpp:489-578 | At every moment of every run of the handler, the recipients waiting and those served are together exactly the members. |
| FanOut.EveryoneServed | src/server/chatservice.cpp:489-578 | A handler with nothing left to do has served exactly the members: local sends + accepted batches + offline inserts, as multisets. |
| FanOut.ChatService.SplitLocal | src/server/chatservice.cpp:507-518 | The loop yields the connections found, and the ids without one, in member order, and is a run of the handler; each lookup may be answered differently. |
| FanOut.ChatService.ResolveAll | src/server/chatservice.cpp:522-544 | The loop yields the batches, the immediate offline inserts and the stale sessions to unbind, counts the latter, and is a run of the handler. |
| FanOut.ChatService.SendBatches | src/server/chatservice.cpp:553-571 | Each node of the map is tried exactly once with its own batch, whatever the iteration order; users of refused batches, and only they, fall back; both counters match. |
| FanOut.EachNodeOnce | src/server/chatservice.cpp:553-571 | Trying the nodes of the map once each, in any order, sends the reachable ones exactly their batch and refuses the others. |
| ChatNode.LocalDelivery.EnqueueLocalDelivery | src/server/chatservice.cpp:719-763 | Accepted exactly when the queue of the connection's loop has room, created if need be; then the task is its last one, no other queue changes, and a drain is asked for exactly when none was pending. |
| ChatNode.LocalDelivery.DeliverToLocalUser | src/server/chatservice.cpp:765-778 | True exactly when the user is connected here and that queue has room; otherwise the queues are as they were. |
| ChatNode.DeliveredExactly | src/server/chatservice.cpp:719-778 | For each loop: its queue grows by the message, with a drain pending, if and only if the user is connected on it and fewer than the limit wait there. |
| ChatNode.LocalDelivery.DrainLocalDeliveriesInLoop | src/server/chatservice.cpp:684-717 | An undisturbed drain sends the whole queue of its loop in order, clears its flag and touches no other queue. |
| ChatNode.ForwardedOrStored | src/server/chatservice.cpp:351-401 | A message not delivered locally is forwarded exactly when the registry named another node whose channel took it, and stored otherwise; a session naming this node is dropped with its route, any other left alone; the counters say which. |
| ChatNode.ChatNode.OneChat | src/server/chatservice.cpp:333-401 | On the connection table, the queues, the registry with its caches, and Redis: delivered locally exactly when possible, and then nothing else changes; otherwise routed, with the unbind of a session that names this node. |
| ChatNode.ReceivedIsStored | src/server/chatservice.cpp:809-824 | Under every answer of the registry a receiver that cannot deliver stores the message and sends nothing on; session and route are kept exactly when the registry names another node, which counts as stale. |
| ChatNode.ChatNode.HandleClusterOneChatFrame | src/server/chatservice.cpp:796-825 | Delivered locally exactly when possible, otherwise stored and never sent on; the session is kept only when the registry says that the user is elsewhere. |
| ChatNode.ChatNode.HandleClusterGroupChat | src/server/chatservice.cpp:827-856 | The users are partitioned into those delivered to a local queue and those stored, with both counters, and nothing is sent on. |
| FanOut.ChatService.GroupChat | src/server/chatservice.cpp:489-578 | A complete run of the handler under any answers: the member list equals local sends + users of accepted batches + offline inserts as a multiset; batches go to the resolved nodes, each at most once; every counter grows by the matching amount. |
| ConnectionTable.BucketExactly | src/server/chatservice.cpp:613-621 | Buckets go round with the absolute value of the id, and each of the 64 is used. |
| ConnectionTable.InUnion | src/server/chatservice.cpp:613-668 | A key is in the union of sharded buckets exactly when it is in its own bucket, with that value. |
| ConnectionTable.UnionUpdate | src/server/chatservice.cpp:623-635 | Changing one key in its own bucket keeps the sharding and changes exactly that key of the union. |
| ConnectionTable.LocalConnections.Add | src/server/chatservice.cpp:623-628 | The one map gains or replaces exactly this entry. |
| ConnectionTable.LocalConnections.Remove | src/server/chatservice.cpp:630-635 | The one map loses exactly this key. |
| ConnectionTable.LocalConnections.Get | src/server/chatservice.cpp:657-668 | The answer is that of the one map. |
| ConnectionTable.LocalConnections.RemoveByConn | src/server/chatservice.cpp:637-655 | Without an entry for the connection: -1 and no change. Otherwise one entry that holds it is removed and named. Unless user -1 holds it, -1 exactly when no entry does. |
| Cluster.BalanceKept | src/server/chatservice.cpp:333-401 | Every step of handlers, channels, receivers and dispatchers keeps, per obligation: created + left channels = with handlers + direct + offline + taken by dispatchers + entered channels. |
| Cluster.RoutePlaces | src/server/clusterrouter.cpp:286-498 | What entered a channel is what its receiver handled plus what is on the wire or buffered by the decoder, in flight, lost on a dead connection, waiting, or cleared. |
| Cluster.ExactlyOnePlace | src/server/chatservice.cpp:333-578 | After any run of any number of handlers, channels and dispatchers, every (message, recipient) obligation created by oneChat or groupChat is in exactly one place, the hands of a handler included, and nothing is anywhere that was not created. |
| ClusterProgress.SystemShrinks | src/server/chatservice.cpp:333-856 | Every step of handlers, channels, receivers and dispatchers that is not a new message, a failure or a stop lowers a natural number, also where one part hands work to the next. |
| ClusterProgress.RestIsSettled | src/server/chatservice.cpp:333-856 | Where no such step is possible, handlers and queues are empty, what was written to a live connection has been handled, and each obligation is sent, stored or lost, once. |
| ClusterProgress.EverythingSettles | src/server/chatservice.cpp:333-856 | From every reachable state, runs without new messages, failures and stops are bounded in length, and where they end every obligation created has been sent to a client connection, stored offline, or lost on a dead connection or by a stop, exactly once. |
| Cluster.BalanceGroupStep | src/server/chatservice.cpp:507-578 | A step of a group handler moves recipients from its lists to a connection, a channel or the offline table, or between its lists, and loses none, also when a batch is refused. |
| Cluster.BalanceAskRouter | src/server/chatservice.cpp:358-401 | oneChat hands its recipient to a channel that accepts it, or keeps it to be stored. |
| Cluster.BalanceReceive | src/server/chatservice.cpp:796-856 | A receiver takes over exactly the recipients of the next message, each to be delivered or stored. |
| ClusterMeaning.OneChatStarts | src/server/chatservice.cpp:333-351 | A new recipient of oneChat can only be tried locally. |
| ClusterMeaning.ReceiveStarts | src/server/chatservice.cpp:796-856 | So can each recipient of the next message of a connection, in order. |
| ClusterMeaning.LocalTried | src/server/chatservice.cpp:346-378 | With a connection and room in its queue the recipient goes there; otherwise oneChat can only go on to the registry, and a receiver only to the offline table. |
| ClusterMeaning.RegistryAsked | src/server/chatservice.cpp:360-385 | The router is asked if and only if the registry names another node; otherwise the recipient can only be stored. |
| ClusterMeaning.RouterAsked | src/server/chatservice.cpp:377-401 | A channel that accepts takes the recipient; otherwise it can only be stored. |
| ClusterMeaning.AcceptsExactly | src/server/clusterrouter.cpp:286-350 | A channel accepts if and only if it is not stopped and can send at once or has room. |
| RedisStore.SessionRoundTrip | src/server/redis/redis.cpp:397-428 | The stored value splits back into node and instance if and only if the instance id has no bar and the node id is not empty. |
| RedisStore.Redis.BindUserNode | src/server/redis/redis.cpp:341-369 | An existing session is never overwritten; success exactly when both commands were answered and the session is new. |
| RedisStore.Redis.UnbindUserNode | src/server/redis/redis.cpp:371-395 | Deletes the session whoever owns it and, if that was answered, the user from the given node's set. |
| RedisStore.Redis.RegisterNode | src/server/redis/redis.cpp:178-219 | Record, expiry and node id are written one after the other as far as commands are answered; success exactly when all three were. |
| RedisStore.Redis.UnregisterNode | src/server/redis/redis.cpp:221-249 | Record, user set and node id are deleted one after the other as far as commands are answered; success exactly when all three were. |
| RedisStore.Redis.GetUserSession | src/server/redis/redis.cpp:397-428 | The stored value split at its last bar, if the node id is not empty. |
| RedisStore.Redis.GetNodeRecord | src/server/redis/redis.cpp:251-312 | The record if it is there, has not expired and is valid. |
| RedisStore.RegisteredForever | src/server/redis/redis.cpp:178-219 | A registration leaves a record that never expires if and only if EXPIRE was not answered and there was no expiry to keep. |
| RedisStore.BindExactly | src/server/redis/redis.cpp:341-369 | Which sessions and index entries there are after a bind, for every user and node and however many commands were answered. |
| RedisStore.UnbindExactly | src/server/redis/redis.cpp:371-395 | The same after an unbind. |
| RedisStore.RegisterExactly | src/server/redis/redis.cpp:178-219 | Which record of which node is seen at every later moment, and which node ids are listed, after a registration. |
| RedisStore.UnregisterExactly | src/server/redis/redis.cpp:221-249 | Which records, user sets and node ids are left after an unregistration. |
| RedisStore.BindKeepsIndex | src/server/redis/redis.cpp:341-369 | A bind keeps every session indexed if and only if it wrote none, the index write was answered, or the user was already in the set. |
| RedisStore.UnbindKeepsIndex | src/server/redis/redis.cpp:371-395 | An unbind, for any node id and however far it gets, keeps every session indexed. |
| RedisStore.UnregisterKeepsIndex | src/server/redis/redis.cpp:221-249 | Unregistering keeps every session indexed if and only if it does not get to the user set or no session names the node. |
| SessionRuns.InvKept | src/server/noderegistry.cpp:66-81 | Every Redis method of any node, interleaved with cleanups, keeps sessions indexed and those of a node in cleanup on its list. |
| SessionRuns.SessionsStayIndexed | src/server/redis/redis.cpp:341-428 | After any such run a session naming a node has its user in that node's set. |
| SessionRuns.CleanupLeavesNoSession | src/server/noderegistry.cpp:178-191 | However other nodes interfere, when a cleanup ends no session names its node. |
| SessionRuns.CleanupScope | src/server/noderegistry.cpp:178-191 | The steps of an uninterrupted cleanup, in any order of the users, delete a session if and only if its user is in the node's set, which includes every session naming the node; the others are untouched. |
| SessionRuns.CleanupRun | src/server/noderegistry.cpp:178-191 | Those steps leave exactly the store without the listed users' sessions, the node's set, its record and its id. |
| SessionRuns.ForeignSessionTaken | src/server/redis/redis.cpp:371-395 | A run from the empty store after which the cleanup of one node deletes a session on another. |
| NodeRegistry.RouteCacheTtl | src/server/noderegistry.cpp:25-37 | The cache lifetime is between 1 and 1000, at most a positive heartbeat interval, and no smaller than these bounds require. |
| NodeRegistry.NodeRegistry.Init | src/server/noderegistry.cpp:22-50 | The own record is cached in any case and registered as far as Redis answers; the heartbeat runs exactly after a complete registration, or if it ran before. |
| NodeRegistry.NodeRegistry.Heartbeat | src/server/noderegistry.cpp:208-225 | While running, each turn renews the cached own record and registers it again, whether or not Redis answers. |
| NodeRegistry.RecordTtlExactly | src/server/noderegistry.cpp:41-44 | A record outlives the heartbeat timeout by more than one second and at most two, in whole seconds. |
| NodeRegistry.NodeRegistry.BindUser | src/server/noderegistry.cpp:66-75 | The route is cached exactly when Redis took the whole bind. |
| NodeRegistry.NodeRegistry.UnbindUser | src/server/noderegistry.cpp:77-81 | Route entry, session and index entry go together. |
| NodeRegistry.NodeRegistry.GetCachedRoute | src/server/noderegistry.cpp:233-251 | A hit extends nothing; an expired entry is removed. |
| NodeRegistry.NodeRegistry.GetCachedNode | src/server/noderegistry.cpp:265-282 | A hit extends nothing; an expired entry is removed. |
| NodeRegistry.ExpireExactly | src/server/noderegistry.cpp:233-282 | A lookup drops its entry if and only if that has expired, and no other. |
| NodeRegistry.NodeRegistry.QueryNodeMeta | src/server/noderegistry.cpp:122-137 | Answer and caches are those of the lookup function. |
| NodeRegistry.NodeRegistry.QueryUser | src/server/noderegistry.cpp:83-120 | Answer, caches and store are those of the lookup function, with the unbind of a session whose instance is not the registered one. |
| NodeRegistry.NodeRegistry.Resolve | src/server/noderegistry.cpp:139-154 | Answer, caches and store are those of the fast path over both caches followed by the full lookup. |
| LookupMeaning.QueryExactly | src/server/noderegistry.cpp:83-120 | The answer is the session's node if and only if a session is seen (unexpired cache entry, else Redis), has an instance, and the record seen of its node has that instance; a session seen that is not so is deleted with its index entry and cached route, and nothing else. |
| LookupMeaning.QueryNodeExactly | src/server/noderegistry.cpp:122-137 | The answer is the record seen; without one the cache forgets the node. |
| LookupMeaning.ResolveExactly | src/server/noderegistry.cpp:139-154 | An answer is given under the same condition, on the fast and the slow path, and is the session's node with the record seen of it. |
| LookupMeaning.AnswerStaysCached | src/server/noderegistry.cpp:83-120 | After a positive answer the route is hit until its expiry: the old one of a cached entry, a full lifetime from now for a new one. |
| NodeRegistry.QueriesCacheOnlyRedis | src/server/noderegistry.cpp:83-137 | A query leaves each cache entry alone or replaces an expired one by what Redis holds now; no hit extends an expiry. |
| NodeRegistry.NodeRegistry.CleanupSelf | src/server/noderegistry.cpp:178-191 | Redis ends as the cleaned-up store, both caches empty, in whatever order the users are unbound. |
| RegistryRuns.TimelyKept | src/server/noderegistry.cpp:253-294 | No cache entry ever expires later than now plus the lifetime. |
| RegistryRuns.BoundedStaleness | src/server/noderegistry.cpp:83-137 | For any property Redis has stopped having and any run of any number of processes: entries that still have it expire by that moment plus lifetime plus stall. |
| RegistryRuns.NoStaleHit | src/server/noderegistry.cpp:233-282 | After more than lifetime plus stall no lookup hits such a value, a node's lookup of its own record excepted. |
| RegistryRuns.BoundIsTight | src/server/noderegistry.cpp:122-137 | For every lifetime and stall, a run in which a record that Redis no longer has is still hit when exactly both have passed. |
| RegistryRuns.RestartIsNoticed | src/server/noderegistry.cpp:83-154 | Once Redis has had no record of the old instance for more than lifetime plus stall, every other node's `queryUserNode` and `resolveUserNode` reject a session of the old instance. |
| LookupSteps.QueryNodeRun | src/server/noderegistry.cpp:122-137 | `queryNode` changes the caches by a run of the steps that the staleness bound covers. |
| LookupSteps.QueryUserRun | src/server/noderegistry.cpp:83-120 | So does `queryUserNode`, with its unbind as a change of Redis. |
| LookupSteps.ResolveRun | src/server/noderegistry.cpp:139-154 | So does `resolveUserNode`, both on its fast path and on its slow one. |
| LookupSteps.BindRun | src/server/noderegistry.cpp:66-75 | So does a bind that Redis takes, for an instance id without a bar. |
| ChatServer.CutIsPieces | src/server/chatserver.cpp:73-105 | Dispatched are exactly the non-empty terminated pieces, kept is exactly the last piece, which has no NUL. |
| ChatServer.NonEmptyExactly | src/server/chatserver.cpp:84-102 | Only empty pieces are dropped, and the order is kept. |
| ChatServer.PiecesOfJoin | src/server/chatserver.cpp:73-105 | Splitting inverts joining with NUL, for NUL-free pieces. |
| ChatServer.JoinOfPieces | src/server/chatserver.cpp:73-105 | Joining the pieces gives the stream back, and no piece has a NUL. |
| ChatServer.ReadsSplitOnNul | src/server/chatserver.cpp:56-107 | For every stream and chunking: the non-empty terminated pieces in order, and the suffix after the last NUL as tail. |
| ChatServer.ClientConnection.OnMessage | src/server/chatserver.cpp:56-107 | One read callback dispatches and keeps exactly what cutting the kept and new bytes gives. |
| ClientStream.FindJsonEnd | src/client/main.cpp:289-320 | The loop finds the first brace that closes depth one outside strings, or reports none. |
| ClientStream.RunValue | src/client/main.cpp:289-320 | Scanning any compact JSON value inside an object leaves the scanner as it was. |
| ClientStream.FindsTrueEnd | src/client/main.cpp:289-320 | For every compact JSON object and every following text, the end found is the end of the object. |
| ClientStream.StrayBrace | src/client/main.cpp:289-320 | Two texts that start with a closing brace too many: behind it an object has no end, or ends at an inner brace. |
| ClientStream.SkipsOnlyGap | src/client/main.cpp:344-358 | What is skipped before an object are only NULs, spaces, line ends and tabs. |
| ClientStream.ScanEndStable | src/client/main.cpp:289-320 | An end once found is not changed by more text. |
| ClientStream.ReadsIndependent | src/client/main.cpp:322-396 | For every text and chunking, the extracted texts and the kept tail depend on the concatenation only. |
| ClientStream.ObjectsArriveWhole | src/client/main.cpp:322-396 | Objects written one after the other, with any NULs, spaces, line ends and tabs before, between and behind them, and read in any pieces come out one by one, complete and in order, with nothing kept. |
| ClientStream.Reader.OnReceive | src/client/main.cpp:322-396 | One receive extracts and keeps exactly what the specification does on the kept and new text. |
| JsonTree.IndexRoundTrip | thirdparty/json.hpp:4777-4785 | The canonical decimal form of an index is read back as that index. |
| JsonTree.IndexExactly | thirdparty/json.hpp:4777-4785 | A token addresses an element if and only if it is the canonical numeral of its index. |
| JsonTree.AtConcatenated | thirdparty/json.hpp:4878-4932 | Navigating, and assigning at, a concatenated pointer is doing so along its parts in turn. |
| JsonPatch.Document.PatchInplace | thirdparty/json.hpp:4699-4966 | The document and error after the loop are those of applying the operations in order, each of which `PatchMeaning` describes; an error keeps what was done before it. |
| PatchMeaning.AddSucceeds | thirdparty/json.hpp:4736-4801 | An add succeeds if and only if its parent is there and is null, an object, or an array with room at that index or "-". |
| PatchMeaning.AddLands | thirdparty/json.hpp:4736-4801 | The added value is then found at the path, or as the new last element for "-". |
| PatchMeaning.AddKeepsRest | thirdparty/json.hpp:4736-4801 | Other members keep their values, elements from the index on move up by one, and places elsewhere are untouched. |
| PatchMeaning.RemoveSucceeds | thirdparty/json.hpp:4804-4831 | A remove succeeds if and only if the member is there, or the parent is neither object nor array. |
| PatchMeaning.RemoveExactly | thirdparty/json.hpp:4804-4831 | The member is then gone, elements behind it move down by one, and everything else is untouched. |
| PatchMeaning.ReplaceExactly | thirdparty/json.hpp:4895-4900 | A replace succeeds if and only if there is a value at its path, which is then the new one; places elsewhere are untouched. |
| PatchMeaning.CopyExactly | thirdparty/json.hpp:4919-4932 | A copy succeeds if and only if its source is there and its path can be added to; it is the add of the value found, which is then found at the path. |
| PatchMeaning.MoveExactly | thirdparty/json.hpp:4902-4917 | A move succeeds if and only if its source is there, is not the root, and the path can be added to once it is removed; it is that remove and that add, and the value is then found at the path. |
| PatchMeaning.TestExactly | thirdparty/json.hpp:4934-4955 | A test succeeds if and only if the value is found at the path, and changes nothing. |
| PatchMeaning.LookupError | thirdparty/json.hpp:4878-4932 | A value that is not found is a parse error if and only if some array on the way is addressed by a malformed token, and otherwise out of range. |
| PatchMeaning.AddError | thirdparty/json.hpp:4736-4801 | Which error a failed add reports; the document is untouched. |
| PatchMeaning.RemoveError | thirdparty/json.hpp:4804-4831 | Which error a failed remove reports; the document is untouched. |
| PatchMeaning.TestError | thirdparty/json.hpp:4934-4955 | A failed test is reported as such unless the pointer is malformed, whose parse error escapes. |
| JsonPatch.RemoveUndoesAdd | thirdparty/json.hpp:4736-4834 | At any place of a document, a remove undoes an add if and only if the add inserted into an array at an index or gave an object a new key. |
| JsonPatch.FailureKeepsDocument | thirdparty/json.hpp:4881-4957 | A failed operation leaves the document as it was if and only if it is not a move of an existing value other than the root. |
| JsonPatch.MoveLosesValue | thirdparty/json.hpp:4902-4917 | A document and a move that fails because the target has no parent, after which the moved value is gone. |
| JsonPatch.ApplyAppend | thirdparty/json.hpp:4841-4966 | Applying a + b is applying a and, unless it failed, b to its result. |
| JsonPatch.LiftAll | thirdparty/json.hpp:4878-4893 | A patch of a child, with the child's token put in front of every path, changes exactly that child. |
| JsonPatch.PatchesInDocument | thirdparty/json.hpp:4980-5110 | Wherever the source value sits in a document, the patch computed under that path replaces exactly it. |
| JsonPatch.RemovalsTruncate | thirdparty/json.hpp:5017-5031 | Removing indices from the highest down truncates the array. |
| JsonDiff.Diff | thirdparty/json.hpp:4980-5110 | For all trees and paths: the patch turns source into target; at the root, applying it gives exactly the target; it is empty if and only if the two are equal; and each operation is needed: replaced are only differing values that are not both arrays or both objects, removed only members the target lacks, added only members or elements the source lacks. |
| JsonDiff.DiffCommon | thirdparty/json.hpp:5006-5015 | The first array pass turns the common indices into the target's. |
| JsonDiff.InsertRemovals | thirdparty/json.hpp:5017-5031 | Removals put in front of each other at the saved position drop the surplus elements. |
| JsonDiff.AppendAdditions | thirdparty/json.hpp:5033-5043 | The appends add the surplus elements of the target in order. |
| JsonDiff.DiffSourceKeys | thirdparty/json.hpp:5050-5070 | The first object pass, in any key order, brings every source key to its target value or removes it. |
| JsonDiff.DiffObjects | thirdparty/json.hpp:5048-5088 | Both object passes together turn source into target. |
| MergePatch.MergeInto | thirdparty/json.hpp:5122-5146 | The in-place loop, in any key order, computes the MergePatch function of section 2 of RFC 7396. |
| MergeMeaning.MergedIsRight | thirdparty/json.hpp:5122-5146 | Along every path on which the patch has objects: a name the patch lacks keeps the target's value if the target has objects there too and is absent otherwise, a null is absent, any other non-object is exactly what the patch says. |
| MergeMeaning.MergedExactly | thirdparty/json.hpp:5122-5146 | Those conditions hold of the merge and of no other value. |
| MergePatch.MergeIdempotent | thirdparty/json.hpp:5122-5146 | Applying a merge patch twice equals applying it once, for all targets and patches. |
| MergePatch.MergeReproduces | thirdparty/json.hpp:5122-5146 | Over a non-object, merging yields the patch itself if and only if neither it nor an object reached from it through objects alone has a null member. |
| JsonDestroy.NodesAtAny | thirdparty/json.hpp:569-609 | The nodes below an object do not depend on which member is taken first. |
| JsonDestroy.PushChildren | thirdparty/json.hpp:571-609 | Moving the children of an item adds exactly the nodes below it to the stack and leaves the container with as many nulls. |
| JsonDestroy.FlattenTop | thirdparty/json.hpp:586-612 | One turn of the loop pops the last item, moves its children to the stack and clears it. |
| JsonDestroy.Destroy | thirdparty/json.hpp:554-613 | Terminates; the items popped are exactly the nodes below the root, each as often as it occurs; clear() finds only nulls in them and leaves their destructor no children; the root is left with nulls only. |

## Left out

- ChannelTable.RightEndpoint: says nothing about a channel that another thread stops after it was returned; its `enqueueOrSend` then refuses, as `ChannelTheorems.ClosedForever` says.
- ClusterRouter.ClusterRouter.constructor: how settings are read from the environment and turned into integers, and the assignment of channels to I/O loops by hash, are not modelled.
- ChannelOrder.DeliveredInOrder: takes every live send to be made in turn, which the code does not guarantee; `OrderExactly` and `Overtaking` say when it is and that it need not be.
- ClusterProgress.EverythingSettles: a receiver may or may not get the rest of a connection that is no longer up; what it does not get counts as lost.
- ChannelTheorems.NoStrandedBacklog: a `connect` issued while the client is already dialling is taken as one attempt.
- ClusterServer.ClusterConnection.OnMessage: a record is handed over as bytes; that `json::parse` may reject it, which only logs, is not modelled.
- ClientStream.FindsTrueEnd: scalars are any text without quotes and braces, escapes any backslash pair; `int` overflow of the depth is not modelled.
- ConnectionTable.BucketExactly: does not cover the minimum int, whose negation is undefined in the source.
- ClusterRouter.ShardExactly: does not cover the minimum int either.
- ChatNode.ChatNode.OneChat: the router's answer is a parameter; `Cluster` has it as the channel's own decision, `ClusterRouter` as that of the channel found.
- ClusterRouter.ClusterRouter.SendOneChat: the message is not encoded there; `prewarmNode`'s memory of the instances it has warmed is not modelled, so any number of prewarms may come at any moment.
- Cluster.ExactlyOnePlace: an obligation on the wire and one in the decoder's buffer are counted as one place, since the receiver's position separates handled from unhandled messages; what lookups answer is free, so every outcome is covered.
- JsonDiff.Diff: `Num` stands for signed and unsigned integers, which the library compares as equal; floats, binary values and discarded values are not modelled.
- JsonPatch.Document.PatchInplace: operations are given decoded, so a patch document's own shape errors and pointer escaping are not modelled; paths are token lists. The source of `json_pointer` is not part of this model; which tokens it rejects with a parse error follows the library's documentation of errors 106 and 109, and an index too large for its integer type counts as out of range. Adding to a primitive parent is `AssertionFails`; a build without assertions ignores the operation instead.
- MergePatch.MergeInto: trees are values, so aliasing of a target and its own part is not modelled; `merge_patch` never creates such an alias.
- JsonDestroy.Destroy: allocation failure and the allocator are not modelled, nor the null pointers that a failed constructor leaves.
- RedisStore.Redis.RegisterNode: a command without an answer may in truth have been executed; client address, client port and heartbeat time of a record are not modelled.
- SessionRuns.CleanupLeavesNoSession: the node in cleanup binds nobody meanwhile, its own commands are answered, and no bind writes a session without indexing it.
- RegistryRuns.BoundedStaleness: a node's own record, which it writes to its cache without reading Redis, is excluded.
- Node listing, the subscription to Redis channels, and the sleep of the heartbeat thread.
- Agreement between the local connection table and Redis sessions, which the code does not keep: `unbindUserNode` deletes a session without comparing its owner.
- Login, logout, registration, friends and groups, offline message retrieval and the SQL tables.
- Muduo, hiredis and MySQL, sockets, threads, event loops, metrics, logging, trace ids and environment parsing.
- JSON lexing and serialisation, JSON diagnostics, binary formats and the rest of the library.
