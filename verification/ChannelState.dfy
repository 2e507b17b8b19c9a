/**
 The state of ClusterRouter::ShardChannel and what the sections under its mutex do
 to it. Whether the stored connection is still connected is known to the network
 library only, so every section is given the connection that is up at that moment.
 */
module ChannelState {
  import opened Wrappers

  datatype Endpoint = Endpoint(ip: string, port: nat)

  datatype Channel<T> = Channel(limit: nat, connection: Option<nat>, pending: seq<T>,
                                connecting: bool, overloaded: bool, closing: bool)

  function NewChannel<T>(limit: nat): Channel<T> {
    Channel(limit, None, [], false, false, false)
  }

  predicate Connected<T>(c: Channel<T>, live: Option<nat>) {
    c.connection.Some? && c.connection == live
  }

  datatype FollowUp = Nothing | ScheduleConnect | ScheduleDrain
  datatype Verdict = Refused | SendNow(conn: nat) | Queued(next: FollowUp)

  function Enqueue<T>(c: Channel<T>, live: Option<nat>, message: T): (Channel<T>, Verdict) {
    if c.closing then (c, Refused)
    else if Connected(c, live) && !c.overloaded && c.pending == [] then (c, SendNow(c.connection.value))
    else if |c.pending| >= c.limit then (c, Refused)
    else
      var c' := c.(pending := c.pending + [message]);
      if !Connected(c, live) && !c.connecting then (c'.(connecting := true), Queued(ScheduleConnect))
      else if Connected(c, live) && !c.overloaded then (c', Queued(ScheduleDrain))
      else (c', Queued(Nothing))
  }

  // Whether the drain loop goes round once more.
  predicate MayPop<T>(c: Channel<T>, live: Option<nat>) {
    !c.closing && !c.overloaded && Connected(c, live) && c.pending != []
  }

  function Pop<T>(c: Channel<T>): Channel<T>
    requires c.pending != []
  {
    c.(pending := c.pending[1..])
  }

  predicate WantsPrewarm<T>(c: Channel<T>, live: Option<nat>) {
    !c.closing && !Connected(c, live) && !c.connecting
  }

  predicate WantsConnect<T>(c: Channel<T>, live: Option<nat>) {
    !c.closing && !Connected(c, live)
  }

  function NotConnecting<T>(c: Channel<T>): Channel<T> { c.(connecting := false) }

  function Established<T>(c: Channel<T>, conn: nat): Channel<T> {
    c.(connection := Some(conn), connecting := false, overloaded := false)
  }

  function Disconnected<T>(c: Channel<T>): Channel<T> {
    c.(connection := None, overloaded := false, connecting := !c.closing)
  }

  function Stopped<T>(c: Channel<T>): Channel<T> {
    c.(closing := true, connecting := false, pending := [], connection := None)
  }
}
