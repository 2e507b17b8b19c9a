/**
 The inter-node byte protocol. One connection carries ONC1 frames (magic, body
 length, recipient, payload) interleaved with NUL-terminated JSON records; the
 router encodes them and the cluster server decodes them from arbitrary chunks.
 */
module WireProtocol {
  import opened Bytes

  const MAGIC: seq<byte> := [79, 78, 67, 49] // "ONC1"
  const HEADER_BYTES := 8
  const BODY_PREFIX_BYTES := 4
  const FRAME_PREFIX := |MAGIC| + HEADER_BYTES
  const TWO32 := 0x1_0000_0000

  type uint32 = x: int | 0 <= x < TWO32
  type int32 = x: int | -0x8000_0000 <= x < 0x8000_0000

  // static_cast between the signed and the unsigned 32-bit type.
  function ToUnsigned(x: int32): uint32 { if x < 0 then x + TWO32 else x }
  function ToSigned(x: uint32): int32 { if x < 0x8000_0000 then x else x - TWO32 }

  // The four bytes that appendUint32 pushes, most significant first.
  function BigEndian(x: uint32): (r: seq<byte>)
    ensures |r| == 4
  {
    [x / 0x100_0000, x / 0x1_0000 % 256, x / 0x100 % 256, x % 256]
  }

  function ReadUint32(b: seq<byte>): uint32
    requires |b| == 4
  {
    b[0] as int * 0x100_0000 + b[1] as int * 0x1_0000 + b[2] as int * 0x100 + b[3] as int
  }

  lemma Uint32RoundTrip(x: uint32)
    ensures ReadUint32(BigEndian(x)) == x
  {
    assert x / 0x1_0000 == x / 0x100_0000 * 256 + x / 0x1_0000 % 256;
    assert x / 0x100 == x / 0x1_0000 * 256 + x / 0x100 % 256;
  }

  datatype Message =
    | OneChat(toUser: int32, payload: seq<byte>)
    | Record(text: seq<byte>)

  // ----- the router's side -----

  // What comes before the payload.
  function Prefix(len: uint32, user: uint32): (r: seq<byte>)
    ensures |r| == FRAME_PREFIX
  {
    MAGIC + BigEndian(len) + BigEndian(user)
  }

  // The length field is computed in size_t and then cut to 32 bits.
  function Encode(m: Message): seq<byte> {
    match m
    case OneChat(toUser, payload) =>
      Prefix((BODY_PREFIX_BYTES + |payload|) % TWO32, ToUnsigned(toUser)) + payload
    case Record(text) => text + [NUL]
  }

  function EncodeAll(ms: seq<Message>): seq<byte> {
    if ms == [] then [] else Encode(ms[0]) + EncodeAll(ms[1..])
  }

  method AppendUint32(out: seq<byte>, value: uint32) returns (r: seq<byte>)
    ensures r == out + BigEndian(value)
  {
    r := out + [value / 0x100_0000];
    r := r + [value / 0x1_0000 % 256];
    r := r + [value / 0x100 % 256];
    r := r + [value % 256];
  }

  // The frame that sendOneChat hands to the channel.
  method BuildOneChatFrame(toUser: int32, payload: seq<byte>) returns (frame: seq<byte>)
    ensures frame == Encode(OneChat(toUser, payload))
  {
    frame := MAGIC;
    frame := AppendUint32(frame, (BODY_PREFIX_BYTES + |payload|) % TWO32);
    frame := AppendUint32(frame, ToUnsigned(toUser));
    frame := frame + payload;
  }

  // What the encoders promise: a length that fits the field, and JSON text, which
  // is not empty, does not start like a frame and contains no NUL.
  predicate Sendable(m: Message) {
    match m
    case OneChat(_, payload) => BODY_PREFIX_BYTES + |payload| < TWO32
    case Record(text) => text != [] && text[0] != MAGIC[0] && NoNul(text)
  }

  predicate AllSendable(ms: seq<Message>) {
    forall m :: m in ms ==> Sendable(m)
  }

  // ----- the server's side -----

  datatype Front =
    | Incomplete                        // wait for more bytes
    | Faulty                            // bad magic or short body: the buffer is cleared
    | Skip(used: nat)                   // empty record
    | Item(message: Message, used: nat)

  // One turn of the receive loop on a non-empty buffer.
  function Front1(buf: seq<byte>): (f: Front)
    requires buf != []
    ensures f.Skip? || f.Item? ==> 0 < f.used <= |buf|
  {
    if buf[0] == MAGIC[0] then
      if |buf| < |MAGIC| then Incomplete
      else if buf[..|MAGIC|] != MAGIC then Faulty
      else if |buf| < FRAME_PREFIX then Incomplete
      else
        var bodyLen := ReadUint32(buf[4..8]);
        if bodyLen < BODY_PREFIX_BYTES then Faulty
        else
          var frameLen := FRAME_PREFIX + bodyLen - BODY_PREFIX_BYTES;
          if |buf| < frameLen then Incomplete
          else Item(OneChat(ToSigned(ReadUint32(buf[8..12])), buf[FRAME_PREFIX..frameLen]), frameLen)
    else
      var end := FindNul(buf);
      if end == |buf| then Incomplete
      else if end == 0 then Skip(1)
      else Item(Record(buf[..end]), end + 1)
  }

  // Messages handed on, bytes kept for the next chunk, and whether the buffer was
  // ever cleared because of a malformed frame.
  datatype Decoded = Decoded(out: seq<Message>, rest: seq<byte>, faulted: bool)

  function Decode(buf: seq<byte>): Decoded
    decreases |buf|
  {
    if buf == [] then Decoded([], [], false)
    else match Front1(buf)
      case Incomplete => Decoded([], buf, false)
      case Faulty => Decoded([], [], true)
      case Skip(used) => Decode(buf[used..])
      case Item(m, used) =>
        Prepend(m, Decode(buf[used..]))
  }

  function Prepend(m: Message, d: Decoded): Decoded {
    d.(out := [m] + d.out)
  }

  function Then(d: Decoded, later: Decoded): Decoded {
    Decoded(d.out + later.out, later.rest, d.faulted || later.faulted)
  }

  // The chunks of a connection, one receive callback each.
  function Feed(kept: seq<byte>, chunks: seq<seq<byte>>): Decoded
    decreases |chunks|
  {
    if chunks == [] then Decoded([], kept, false)
    else
      var d := Decode(kept + chunks[0]);
      Then(d, Feed(d.rest, chunks[1..]))
  }

  // ----- more bytes never change what was already decided -----

  lemma FrontStable(a: seq<byte>, b: seq<byte>)
    requires a != [] && !Front1(a).Incomplete?
    ensures Front1(a + b) == Front1(a)
  {
    if a[0] == MAGIC[0] {
      assert (a + b)[..4] == a[..4];
      if |a| >= FRAME_PREFIX {
        assert (a + b)[4..8] == a[4..8] && (a + b)[8..12] == a[8..12];
        var f := Front1(a);
        if f.Item? {
          assert (a + b)[FRAME_PREFIX..f.used] == a[FRAME_PREFIX..f.used];
        }
      }
    } else {
      var end := FindNul(a);
      assert (a + b)[..end] == a[..end];
      FindNulIs(a + b, end);
    }
  }

  // A decoder that stopped after d and is then given more bytes.
  function Resume(d: Decoded, more: seq<byte>): Decoded {
    if d.faulted then d else Then(d, Decode(d.rest + more))
  }

  lemma ResumePrepend(m: Message, d: Decoded, more: seq<byte>)
    ensures Resume(Prepend(m, d), more) == Prepend(m, Resume(d, more))
  {
  }

  // What Decode does once the front is known.
  function Consume(buf: seq<byte>, f: Front): Decoded
    requires f.Skip? || f.Item? ==> 0 < f.used <= |buf|
  {
    match f
    case Incomplete => Decoded([], buf, false)
    case Faulty => Decoded([], [], true)
    case Skip(used) => Decode(buf[used..])
    case Item(m, used) => Prepend(m, Decode(buf[used..]))
  }

  lemma {:induction false} DecodeSplit(a: seq<byte>, b: seq<byte>)
    ensures Decode(a + b) == Resume(Decode(a), b)
    decreases |a|, 1
  {
    if a == [] {
      assert a + b == b;
    } else if !Front1(a).Incomplete? {
      FrontStable(a, b);
      DecodeSplitFront(a, b, Front1(a));
    }
  }

  lemma {:induction false} DecodeSplitFront(a: seq<byte>, b: seq<byte>, f: Front)
    requires !f.Incomplete?
    requires f.Skip? || f.Item? ==> 0 < f.used <= |a|
    ensures Consume(a + b, f) == Resume(Consume(a, f), b)
    decreases |a|, 0
  {
    if f.Skip? || f.Item? {
      assert (a + b)[f.used..] == a[f.used..] + b;
      DecodeSplit(a[f.used..], b);
      if f.Item? {
        ResumePrepend(f.message, Decode(a[f.used..]), b);
      }
    }
  }

  // Decoding everything at once against receiving it in chunks: the messages of
  // the former come out first, a malformed frame is noticed by both, and without
  // one the two agree completely.
  predicate Agrees(whole: Decoded, fed: Decoded) {
    && whole.out <= fed.out
    && whole.faulted == fed.faulted
    && (!whole.faulted ==> fed == whole)
  }

  lemma ThenAgrees(d: Decoded, whole: Decoded, fed: Decoded)
    requires !d.faulted && Agrees(whole, fed)
    ensures Agrees(Then(d, whole), Then(d, fed))
  {
  }

  lemma {:induction false} ChunksAgree(kept: seq<byte>, chunks: seq<seq<byte>>)
    requires chunks != []
    ensures Agrees(Decode(kept + Flatten(chunks)), Feed(kept, chunks))
    decreases |chunks|
  {
    var buf, tail := kept + chunks[0], Flatten(chunks[1..]);
    assert kept + Flatten(chunks) == buf + tail;
    var d := Decode(buf);
    if |chunks| == 1 {
      assert buf + tail == buf;
      assert Feed(d.rest, chunks[1..]) == Decoded([], d.rest, false);
    } else {
      DecodeSplit(buf, tail);
      if !d.faulted {
        ChunksAgree(d.rest, chunks[1..]);
        ThenAgrees(d, Decode(d.rest + tail), Feed(d.rest, chunks[1..]));
      }
    }
  }

  // For any bytes and any cuts.
  lemma ChunkIndependent(chunks: seq<seq<byte>>)
    ensures Agrees(Decode(Flatten(chunks)), Feed([], chunks))
  {
    if chunks != [] {
      ChunksAgree([], chunks);
      assert [] + Flatten(chunks) == Flatten(chunks);
    }
  }

  lemma FeedOne(chunk: seq<byte>)
    ensures Feed([], [chunk]) == Decode(chunk)
  {
    assert [] + chunk == chunk && [chunk][1..] == [];
  }

  // ----- round trip -----

  // Where the fields of a frame are.
  lemma FrameLayout(len: uint32, user: uint32, rest: seq<byte>, buf: seq<byte>)
    requires buf == Prefix(len, user) + rest
    ensures |buf| == FRAME_PREFIX + |rest|
    ensures buf[..4] == MAGIC && buf[4..8] == BigEndian(len) && buf[8..12] == BigEndian(user)
    ensures buf[FRAME_PREFIX..] == rest
    ensures ReadUint32(buf[4..8]) == len && ReadUint32(buf[8..12]) == user
  {
    Uint32RoundTrip(len);
    Uint32RoundTrip(user);
  }

  lemma EncodedBytes(toUser: int32, payload: seq<byte>, tail: seq<byte>)
    requires BODY_PREFIX_BYTES + |payload| < TWO32
    ensures var m := OneChat(toUser, payload);
            && Encode(m) + tail == Prefix(BODY_PREFIX_BYTES + |payload|, ToUnsigned(toUser)) + (payload + tail)
            && |Encode(m)| == FRAME_PREFIX + |payload|
  {
    var prefix := EncodeIs(toUser, payload);
    Regrouped(prefix, payload, tail);
  }

  lemma EncodeIs(toUser: int32, payload: seq<byte>) returns (prefix: seq<byte>)
    requires BODY_PREFIX_BYTES + |payload| < TWO32
    ensures prefix == Prefix(BODY_PREFIX_BYTES + |payload|, ToUnsigned(toUser))
    ensures Encode(OneChat(toUser, payload)) == prefix + payload
  {
    prefix := Prefix(BODY_PREFIX_BYTES + |payload|, ToUnsigned(toUser));
    assert (BODY_PREFIX_BYTES + |payload|) % TWO32 == BODY_PREFIX_BYTES + |payload|;
  }

  lemma SameFront(a: seq<byte>, b: seq<byte>, f: Front)
    requires a == b && a != [] && Front1(b) == f
    ensures Front1(a) == f
  {
  }

  lemma EncodedFrame(toUser: int32, payload: seq<byte>, tail: seq<byte>)
    requires BODY_PREFIX_BYTES + |payload| < TWO32
    ensures var m := OneChat(toUser, payload); Front1(Encode(m) + tail) == Item(m, |Encode(m)|)
  {
    var m, len, user := OneChat(toUser, payload), BODY_PREFIX_BYTES + |payload|, ToUnsigned(toUser);
    EncodedBytes(toUser, payload, tail);
    FrameRead(len, user, payload, tail);
    SameFront(Encode(m) + tail, Prefix(len, user) + (payload + tail), Item(m, |Encode(m)|));
  }

  lemma FrameRead(len: uint32, user: uint32, payload: seq<byte>, tail: seq<byte>)
    requires len == BODY_PREFIX_BYTES + |payload|
    ensures var buf := Prefix(len, user) + (payload + tail);
            Front1(buf) == Item(OneChat(ToSigned(user), payload), FRAME_PREFIX + |payload|)
  {
    var buf := Prefix(len, user) + (payload + tail);
    FrameLayout(len, user, payload + tail, buf);
    FrameFront(buf, len, user);
    Payload(buf, payload, tail);
  }

  lemma Payload(buf: seq<byte>, payload: seq<byte>, tail: seq<byte>)
    requires |buf| >= FRAME_PREFIX && buf[FRAME_PREFIX..] == payload + tail
    ensures buf[FRAME_PREFIX..FRAME_PREFIX + |payload|] == payload
  {
    assert buf[FRAME_PREFIX..][..|payload|] == payload;
  }

  lemma Regrouped(prefix: seq<byte>, payload: seq<byte>, tail: seq<byte>)
    ensures prefix + payload + tail == prefix + (payload + tail)
  {
  }

  lemma FrameFront(buf: seq<byte>, len: uint32, user: uint32)
    requires BODY_PREFIX_BYTES <= len && |buf| >= |MAGIC| + BODY_PREFIX_BYTES + len && buf[..|MAGIC|] == MAGIC
    requires ReadUint32(buf[4..8]) == len && ReadUint32(buf[8..12]) == user
    ensures var end := FRAME_PREFIX + len - BODY_PREFIX_BYTES;
            Front1(buf) == Item(OneChat(ToSigned(user), buf[FRAME_PREFIX..end]), end)
  {
  }

  lemma EncodedFront(m: Message, tail: seq<byte>)
    requires Sendable(m)
    ensures Front1(Encode(m) + tail) == Item(m, |Encode(m)|)
  {
    match m {
      case OneChat(toUser, payload) =>
        EncodedFrame(toUser, payload, tail);
      case Record(text) =>
        var buf := Encode(m) + tail;
        assert buf[..|text|] == text;
        FindNulIs(buf, |text|);
    }
  }

  lemma {:induction false} DecodeEncoded(ms: seq<Message>)
    requires AllSendable(ms)
    ensures Decode(EncodeAll(ms)) == Decoded(ms, [], false)
  {
    if ms != [] {
      var tail := EncodeAll(ms[1..]);
      EncodedFront(ms[0], tail);
      assert (Encode(ms[0]) + tail)[|Encode(ms[0])|..] == tail;
      DecodeEncoded(ms[1..]);
    }
  }

  // Any sequence of sendable messages, cut anywhere, arrives as itself, once and in order.
  lemma {:induction false} MixedRoundTrip(ms: seq<Message>, chunks: seq<seq<byte>>)
    requires AllSendable(ms)
    requires Flatten(chunks) == EncodeAll(ms)
    ensures Feed([], chunks) == Decoded(ms, [], false)
  {
    DecodeEncoded(ms);
    ChunkIndependent(chunks);
  }

  // With only part of the bytes received, what came out is a prefix of what was sent.
  lemma {:induction false} PartialDelivery(ms: seq<Message>, chunks: seq<seq<byte>>)
    requires AllSendable(ms)
    requires Flatten(chunks) <= EncodeAll(ms)
    ensures Feed([], chunks).out <= ms && !Feed([], chunks).faulted
  {
    var got := Flatten(chunks);
    var missing := EncodeAll(ms)[|got|..];
    assert got + missing == EncodeAll(ms);
    DecodeEncoded(ms);
    DecodeSplit(got, missing);
    ChunkIndependent(chunks);
  }

  lemma {:induction false} UniquelyDecodable(a: seq<Message>, b: seq<Message>)
    requires AllSendable(a + b)
    requires EncodeAll(a) == EncodeAll(b)
    ensures a == b
  {
    assert forall m :: m in a || m in b ==> m in a + b;
    DecodeEncoded(a);
    DecodeEncoded(b);
  }

  // JSON text of an object, which contains no NUL, is always sendable.
  lemma JsonObjectSendable(text: seq<byte>)
    requires text != [] && text[0] == '{' as int && NoNul(text)
    ensures Sendable(Record(text))
  {
  }

  // The frame for user -2 with payload "A" on the wire: ONC1, five bytes of body, the
  // user in two's complement, all most significant byte first.
  lemma FrameOnTheWire()
    ensures Encode(OneChat(-2, ['A' as int]))
         == ['O' as int, 'N' as int, 'C' as int, '1' as int, 0, 0, 0, 5, 255, 255, 255, 254, 'A' as int]
  {
  }

  // ----- exactly which messages survive -----

  function Size(m: Message): nat {
    match m
    case OneChat(_, payload) => |payload|
    case Record(text) => |text|
  }

  // A record that comes out is shorter than the buffer, a frame's payload by a whole prefix.
  lemma {:induction false} DecodedSizes(buf: seq<byte>)
    ensures forall m :: m in Decode(buf).out ==>
                          Size(m) + (if m.OneChat? then FRAME_PREFIX else 1) <= |buf|
    decreases |buf|
  {
    if buf != [] {
      var f := Front1(buf);
      if f.Skip? || f.Item? {
        DecodedSizes(buf[f.used..]);
      }
    }
  }

  lemma UnsendableFrame(toUser: int32, payload: seq<byte>)
    requires BODY_PREFIX_BYTES + |payload| >= TWO32
    ensures var f := Front1(Encode(OneChat(toUser, payload)));
            f.Faulty? || (f.Item? && Size(f.message) < |payload|)
  {
  }

  lemma UnsendableRecord(text: seq<byte>)
    requires !Sendable(Record(text))
    ensures Record(text) !in Decode(Encode(Record(text))).out
  {
    var buf := Encode(Record(text));
    var f := Front1(buf);
    if f.Skip? || f.Item? {
      DecodedSizes(buf[f.used..]);
    }
    assert f.Item? && f.message.Record? ==> f.message.text == buf[..|f.message.text|];
    assert text == buf[..|text|];
  }

  // The encoding of a message decodes to that message exactly when it is sendable:
  // longer payloads lose their length, and other records are cut, dropped or mistaken for frames.
  lemma {:induction false} RoundTripExactly(m: Message)
    ensures Decode(Encode(m)) == Decoded([m], [], false) <==> Sendable(m)
  {
    if Sendable(m) {
      EncodedFront(m, []);
      assert Encode(m) + [] == Encode(m) && Encode(m)[|Encode(m)|..] == [];
    } else {
      match m {
        case OneChat(toUser, payload) =>
          UnsendableFrame(toUser, payload);
          var d := Decode(Encode(m));
          assert d.out == [] || Size(d.out[0]) < |payload|;
        case Record(text) =>
          UnsendableRecord(text);
          assert Record(text) in [m];
      }
    }
  }
}
