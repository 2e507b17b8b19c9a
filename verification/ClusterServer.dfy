/** The receiving end of an inter-node connection: ClusterServer::onMessage on its context string. */
module ClusterServer {
  import opened Bytes
  import opened WireProtocol

  class ClusterConnection {
    var pending: seq<byte>
    var handled: seq<Message> // in the order given to the chat service

    constructor ()
      ensures pending == [] && handled == []
    {
      pending, handled := [], [];
    }

    method OnMessage(chunk: seq<byte>) returns (faulted: bool)
      modifies this
      ensures old(handled) <= handled
      ensures Decode(old(pending) + chunk) == Decoded(handled[|old(handled)|..], pending, faulted)
    {
      pending := pending + chunk;
      faulted := false;
      ghost var start, before := pending, handled;
      ghost var out: seq<Message> := [];
      while pending != []
        invariant handled == before + out
        invariant !faulted
        invariant Decode(start) == Prefixed(out, Decode(pending))
        decreases |pending|
      {
        var front := Front1(pending);
        match front {
          case Incomplete =>
            break;
          case Faulty =>
            pending, faulted := [], true;
            break;
          case Skip(used) =>
            pending := pending[used..];
          case Item(m, used) =>
            handled := handled + [m];
            pending := pending[used..];
            PrefixedPrepend(out, m, Decode(pending));
            out := out + [m];
        }
      }
      assert handled[|before|..] == out;
    }
  }

  function Prefixed(out: seq<Message>, d: Decoded): Decoded {
    d.(out := out + d.out)
  }

  lemma PrefixedPrepend(out: seq<Message>, m: Message, d: Decoded)
    ensures Prefixed(out, Prepend(m, d)) == Prefixed(out + [m], d)
  {
  }
}
