/**
 Malformed frames. The decoder clears its buffer when it meets one, so what else
 was in the buffer is lost; this module says exactly for which byte strings the
 outcome is nevertheless the same for every way of cutting them into chunks.
 */
module FrameFaults {
  import opened Bytes
  import opened Wrappers
  import opened WireProtocol

  lemma BadMagicClears(buf: seq<byte>)
    requires |buf| >= |MAGIC| && buf[0] == MAGIC[0] && buf[..|MAGIC|] != MAGIC
    ensures Decode(buf) == Decoded([], [], true)
  {
  }

  // A frame that announces fewer bytes than its own prefix is malformed.
  lemma ShortBodyClears(buf: seq<byte>)
    requires |buf| >= FRAME_PREFIX && buf[..|MAGIC|] == MAGIC && ReadUint32(buf[4..8]) < BODY_PREFIX_BYTES
    ensures Decode(buf) == Decoded([], [], true)
  {
    assert buf[0] == buf[..|MAGIC|][0];
  }

  // What follows the first malformed frame, counted from the byte that reveals it.
  function AfterFault(buf: seq<byte>): (r: Option<seq<byte>>)
    ensures r.Some? ==> |r.value| < |buf|
    decreases |buf|
  {
    if buf == [] then None
    else match Front1(buf)
      case Incomplete => None
      case Faulty => Some(buf[FaultBytes(buf)..])
      case Skip(used) => AfterFault(buf[used..])
      case Item(_, used) => AfterFault(buf[used..])
  }

  // A bad magic shows in its last byte, a short body when the whole prefix is there.
  function FaultBytes(buf: seq<byte>): nat
    requires buf != [] && Front1(buf).Faulty?
    ensures 0 < FaultBytes(buf) <= |buf|
  {
    if buf[..|MAGIC|] != MAGIC then |MAGIC| else FRAME_PREFIX
  }

  // ----- the position of the fault -----

  // It is what is left behind the shortest prefix that the decoder faults on.
  lemma {:induction false} FaultPosition(buf: seq<byte>)
    ensures Decode(buf).faulted <==> AfterFault(buf).Some?
    ensures AfterFault(buf).Some? ==> buf[|buf| - |AfterFault(buf).value|..] == AfterFault(buf).value
    decreases |buf|
  {
    if buf != [] {
      var f := Front1(buf);
      if f.Skip? || f.Item? {
        FaultPosition(buf[f.used..]);
      }
    }
  }

  // Where the front is still open, neither its item nor its fault has ended.
  lemma ShortPrefix(buf: seq<byte>, q: nat)
    requires q <= |buf| && AfterFault(buf).Some?
    requires q == 0 || Front1(buf[..q]).Incomplete?
    ensures q < |buf| - |AfterFault(buf).value|
  {
  }

  // What is kept is the end of the buffer ...
  lemma {:induction false} RestIsSuffix(buf: seq<byte>)
    ensures var rest := Decode(buf).rest; |rest| <= |buf| && rest == buf[|buf| - |rest|..]
    ensures Decode(buf).faulted ==> Decode(buf).rest == []
    decreases |buf|
  {
    if buf != [] {
      var f := Front1(buf);
      if f.Skip? || f.Item? {
        RestIsSuffix(buf[f.used..]);
      }
    }
  }

  // ... and waits for more bytes.
  lemma {:induction false} RestIsOpen(buf: seq<byte>)
    ensures Decode(buf).rest == [] || Front1(Decode(buf).rest).Incomplete?
    decreases |buf|
  {
    if buf != [] {
      var f := Front1(buf);
      if f.Skip? || f.Item? {
        RestIsOpen(buf[f.used..]);
      }
    }
  }

  lemma {:induction false} AfterFaultSplit(a: seq<byte>, b: seq<byte>)
    ensures AfterFault(a + b) == if AfterFault(a).Some? then Some(AfterFault(a).value + b)
                                 else AfterFault(Decode(a).rest + b)
    decreases |a|
  {
    if a == [] {
      assert a + b == b && [] + b == b;
    } else if !Front1(a).Incomplete? {
      var f := Front1(a);
      FrontStable(a, b);
      if f.Skip? || f.Item? {
        assert (a + b)[f.used..] == a[f.used..] + b;
        AfterFaultSplit(a[f.used..], b);
      } else {
        assert (a + b)[..|MAGIC|] == a[..|MAGIC|];
        var k := FaultBytes(a);
        assert (a + b)[k..] == a[k..] + b;
      }
    }
  }

  // The fault shows in exactly the prefixes that reach that far.
  lemma FaultedPrefix(buf: seq<byte>, q: nat)
    requires q <= |buf| && AfterFault(buf).Some?
    ensures Decode(buf[..q]).faulted <==> q >= |buf| - |AfterFault(buf).value|
  {
    var a, b := buf[..q], buf[q..];
    assert a + b == buf;
    AfterFaultSplit(a, b);
    FaultPosition(a);
    if AfterFault(a).None? {
      var rest := Decode(a).rest;
      RestIsOpen(a);
      assert (rest + b)[..|rest|] == rest;
      ShortPrefix(rest + b, |rest|);
    }
  }

  // ----- harmless bytes -----

  // Only NULs and first magic bytes, each of the latter with as many bytes as a magic has.
  predicate Harmless(t: seq<byte>) {
    forall i :: 0 <= i < |t| ==> t[i] == NUL || (t[i] == MAGIC[0] && i + |MAGIC| <= |t|)
  }

  // Nothing comes out of such bytes and nothing is kept of them.
  lemma {:induction false} HarmlessIsSilent(t: seq<byte>)
    requires Harmless(t)
    ensures Decode(t).out == [] && Decode(t).rest == []
    decreases |t|
  {
    if t != [] {
      if t[0] == NUL {
        HarmlessIsSilent(t[1..]);
      } else {
        assert t[..|MAGIC|][1] == t[1] != MAGIC[1];
      }
    }
  }

  // ... whereas a byte that is not harmless, when decoding starts at it, is seen.
  lemma HarmfulIsSeen(u: seq<byte>)
    requires u != [] && u[0] != NUL && (u[0] == MAGIC[0] ==> |u| < |MAGIC|)
    ensures Decode(u).out != [] || Decode(u).rest != []
  {
  }

  lemma HarmlessSuffix(t: seq<byte>, k: nat)
    requires k <= |t| && Harmless(t)
    ensures Harmless(t[k..])
  {
  }

  lemma HarmlessStep(buf: seq<byte>, tail: seq<byte>)
    requires Harmless(buf + tail)
    ensures Decode(buf).out == [] && Harmless(Decode(buf).rest + tail)
    ensures tail == [] ==> Decode(buf).rest == []
  {
    HarmlessIsSilent(buf + tail);
    DecodeSplit(buf, tail);
    RestAndMore(buf, tail);
    HarmlessSuffix(buf + tail, |buf| - |Decode(buf).rest|);
    if tail == [] {
      assert buf + tail == buf;
    }
  }

  lemma RestAndMore(buf: seq<byte>, more: seq<byte>)
    ensures var rest := Decode(buf).rest;
            |rest| <= |buf| && rest + more == (buf + more)[|buf| - |rest|..]
  {
    RestIsSuffix(buf);
    var rest := Decode(buf).rest;
    assert (buf + more)[|buf| - |rest|..] == buf[|buf| - |rest|..] + more;
  }

  lemma {:induction false} HarmlessFeed(kept: seq<byte>, chunks: seq<seq<byte>>)
    requires chunks != [] && Harmless(kept + Flatten(chunks))
    ensures Feed(kept, chunks).out == [] && Feed(kept, chunks).rest == []
    decreases |chunks|
  {
    var buf, tail := kept + chunks[0], Flatten(chunks[1..]);
    assert kept + Flatten(chunks) == buf + tail;
    HarmlessStep(buf, tail);
    if |chunks| > 1 {
      HarmlessFeed(Decode(buf).rest, chunks[1..]);
    }
  }

  // ----- one chunk of a stream with a malformed frame -----

  lemma FaultStep(buf: seq<byte>, tail: seq<byte>)
    requires var t := AfterFault(buf + tail); t.Some? && Harmless(t.value)
    ensures var d := Decode(buf);
            if d.faulted then Decode(buf + tail) == d && d.rest == [] && Harmless(tail)
            else Decode(buf + tail) == Then(d, Decode(d.rest + tail)) && tail != []
                 && AfterFault(d.rest + tail) == AfterFault(buf + tail)
  {
    DecodeSplit(buf, tail);
    AfterFaultSplit(buf, tail);
    FaultPosition(buf);
    RestIsSuffix(buf);
    if Decode(buf).faulted {
      var t := AfterFault(buf).value;
      HarmlessSuffix(t + tail, |t|);
      assert (t + tail)[|t|..] == tail;
    } else {
      assert tail == [] ==> buf + tail == buf;
    }
  }

  lemma {:induction false} HarmlessCuts(kept: seq<byte>, chunks: seq<seq<byte>>)
    requires chunks != []
    requires var t := AfterFault(kept + Flatten(chunks)); t.Some? && Harmless(t.value)
    ensures Feed(kept, chunks) == Decode(kept + Flatten(chunks))
    decreases |chunks|
  {
    var buf, tail := kept + chunks[0], Flatten(chunks[1..]);
    var d := Decode(buf);
    assert kept + Flatten(chunks) == buf + tail;
    FaultStep(buf, tail);
    if !d.faulted {
      HarmlessCuts(d.rest, chunks[1..]);
    } else if |chunks| > 1 {
      assert [] + tail == tail;
      HarmlessFeed([], chunks[1..]);
    }
  }

  lemma FeedTwo(a: seq<byte>, b: seq<byte>)
    ensures Flatten([a, b]) == a + b
    ensures Feed([], [a, b]) == Then(Decode(a), Feed(Decode(a).rest, [b]))
  {
    assert [a, b][1..] == [b] && [b][1..] == [] && [] + a == a && b + [] == b;
    assert Flatten([b]) == b + Flatten([b][1..]);
  }

  // A cut behind the fault makes the decoder start afresh there.
  lemma CutBehindFault(head: seq<byte>, u: seq<byte>)
    requires Decode(head).faulted
    ensures Flatten([head, u]) == head + u && Decode(head + u) == Decode(head)
    ensures Feed([], [head, u]) == Then(Decode(head), Decode(u))
  {
    DecodeSplit(head, u);
    RestIsSuffix(head);
    FeedTwo(head, u);
    FeedOne(u);
  }

  lemma {:induction false} HarmfulCut(b: seq<byte>) returns (chunks: seq<seq<byte>>)
    requires AfterFault(b).Some? && !Harmless(AfterFault(b).value)
    ensures Flatten(chunks) == b && Feed([], chunks) != Decode(b)
  {
    var t := AfterFault(b).value;
    var p := |b| - |t|;
    FaultPosition(b);
    var i :| 0 <= i < |t| && !(t[i] == NUL || (t[i] == MAGIC[0] && i + |MAGIC| <= |t|));
    var head, u := b[..p + i], b[p + i..];
    assert u[0] == t[i] && |u| == |t| - i && b == head + u;
    FaultedPrefix(b, p + i);
    CutBehindFault(head, u);
    HarmfulIsSeen(u);
    RestIsSuffix(head);
    chunks := [head, u];
  }

  // ----- the exact condition -----

  ghost predicate CutsNeverMatter(b: seq<byte>) {
    forall chunks: seq<seq<byte>> :: Flatten(chunks) == b ==> Feed([], chunks) == Decode(b)
  }

  // The outcome is the same for all cuts exactly when no frame is malformed or only
  // harmless bytes follow the first malformed one.
  lemma CutsNeverMatterExactly(b: seq<byte>)
    ensures CutsNeverMatter(b) <==> AfterFault(b).None? || Harmless(AfterFault(b).value)
  {
    if AfterFault(b).Some? && !Harmless(AfterFault(b).value) {
      var chunks := HarmfulCut(b);
    } else {
      forall chunks: seq<seq<byte>> | Flatten(chunks) == b ensures Feed([], chunks) == Decode(b) {
        SameForThisCut(b, chunks);
      }
    }
  }

  lemma SameForThisCut(b: seq<byte>, chunks: seq<seq<byte>>)
    requires AfterFault(b).None? || Harmless(AfterFault(b).value)
    requires Flatten(chunks) == b
    ensures Feed([], chunks) == Decode(b)
  {
    FaultPosition(b);
    if AfterFault(b).None? {
      ChunkIndependent(chunks);
    } else {
      assert [] + Flatten(chunks) == b;
      HarmlessCuts([], chunks);
    }
  }

  // A well-formed message right behind a bad magic is lost or not, depending on the cut.
  lemma FaultDependsOnCuts(bad: seq<byte>, m: Message)
    requires |bad| >= |MAGIC| && bad[0] == MAGIC[0] && bad[..|MAGIC|] != MAGIC && Sendable(m)
    ensures Feed([], [bad, Encode(m)]) == Decoded([m], [], true)
    ensures Feed([], [bad + Encode(m)]) == Decoded([], [], true)
  {
    BadMagicClears(bad);
    CutBehindFault(bad, Encode(m));
    FeedOne(bad + Encode(m));
    EncodedFront(m, []);
    assert Encode(m) + [] == Encode(m) && Encode(m)[|Encode(m)|..] == [];
  }
}
