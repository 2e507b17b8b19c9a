/** ChatServer::onMessage: NUL-terminated client records with a tail carried between reads. */
module ChatServer {
  import opened Bytes
  import opened Splitting

  // The pieces between NULs; the last one has no terminator yet.
  function Pieces(s: seq<byte>): (r: seq<seq<byte>>)
    ensures r != []
    decreases |s|
  {
    var end := FindNul(s);
    if end == |s| then [s] else [s[..end]] + Pieces(s[end + 1..])
  }

  function Join(pieces: seq<seq<byte>>): seq<byte>
    requires pieces != []
  {
    if |pieces| == 1 then pieces[0] else pieces[0] + [NUL] + Join(pieces[1..])
  }

  // Pieces is the only NUL-free splitting of a stream.
  lemma {:induction false} PiecesOfJoin(pieces: seq<seq<byte>>)
    requires pieces != [] && forall i :: 0 <= i < |pieces| ==> NoNul(pieces[i])
    ensures Pieces(Join(pieces)) == pieces
  {
    var s := Join(pieces);
    if |pieces| == 1 {
      assert FindNul(s) == |s|;
    } else {
      var first := pieces[0];
      FindNulIs(s, |first|);
      assert s[..|first|] == first && s[|first| + 1..] == Join(pieces[1..]);
      PiecesOfJoin(pieces[1..]);
    }
  }

  lemma {:induction false} JoinOfPieces(s: seq<byte>)
    ensures Join(Pieces(s)) == s
    ensures forall i :: 0 <= i < |Pieces(s)| ==> NoNul(Pieces(s)[i])
    decreases |s|
  {
    var end := FindNul(s);
    if end < |s| {
      JoinOfPieces(s[end + 1..]);
      assert Pieces(s)[1..] == Pieces(s[end + 1..]);
      assert s == s[..end] + [NUL] + s[end + 1..];
    }
  }

  function NonEmpty(pieces: seq<seq<byte>>): seq<seq<byte>> {
    if pieces == [] then []
    else (if pieces[0] == [] then [] else [pieces[0]]) + NonEmpty(pieces[1..])
  }

  // Filtering drops the empty pieces and nothing else, and keeps the order.
  lemma {:induction false} NonEmptyExactly(a: seq<seq<byte>>, b: seq<seq<byte>>, piece: seq<byte>)
    ensures NonEmpty([piece]) == if piece == [] then [] else [piece]
    ensures NonEmpty(a + b) == NonEmpty(a) + NonEmpty(b)
  {
    assert [piece][1..] == [];
    if a == [] {
      assert a + b == b;
    } else {
      assert (a + b)[1..] == a[1..] + b;
      NonEmptyExactly(a[1..], b, piece);
    }
  }

  // The record that ends at the first NUL, if it is not empty, then the rest.
  function CutRecord(record: seq<byte>, later: Cut<byte>): Cut<byte> {
    if record == [] then later else Prepend(record, later)
  }

  // The records dispatched from a stream, and what is kept of it.
  function CutNul(s: seq<byte>): Cut<byte>
    decreases |s|
  {
    var end := FindNul(s);
    if end == |s| then Cut([], s) else CutRecord(s[..end], CutNul(s[end + 1..]))
  }

  // Exactly the non-empty terminated pieces are dispatched, and exactly the last piece is kept.
  lemma {:induction false} CutIsPieces(s: seq<byte>)
    ensures var p := Pieces(s); CutNul(s) == Cut(NonEmpty(p[..|p| - 1]), p[|p| - 1])
    ensures NoNul(CutNul(s).rest)
    decreases |s|
  {
    var end := FindNul(s);
    if end < |s| {
      CutIsPieces(s[end + 1..]);
      var p, q := Pieces(s), Pieces(s[end + 1..]);
      assert p[..|p| - 1][1..] == q[..|q| - 1];
    }
  }

  lemma CutFirst(record: seq<byte>, more: seq<byte>)
    requires NoNul(record)
    ensures CutNul(record + [NUL] + more) == CutRecord(record, CutNul(more))
  {
    var s := record + [NUL] + more;
    FindNulIs(s, |record|);
    assert s[..|record|] == record && s[|record| + 1..] == more;
  }

  lemma RecordThen(record: seq<byte>, c: Cut<byte>, later: Cut<byte>)
    ensures Then(CutRecord(record, c), later) == CutRecord(record, Then(c, later))
    ensures CutRecord(record, c).rest == c.rest
  {
  }

  lemma Regrouped(record: seq<byte>, more: seq<byte>, b: seq<byte>)
    ensures record + [NUL] + more + b == record + [NUL] + (more + b)
  {
  }

  // The equations of one record, put together.
  lemma AcrossOne(record: seq<byte>, whole: Cut<byte>, first: Cut<byte>, wholeMore: Cut<byte>, c: Cut<byte>,
                  later: Cut<byte>)
    requires first == CutRecord(record, c) && whole == CutRecord(record, wholeMore) && wholeMore == Then(c, later)
    ensures whole == Then(first, later) && first.rest == c.rest
  {
    RecordThen(record, c, later);
  }

  lemma {:induction false} CutAcrossChunks(a: seq<byte>, b: seq<byte>)
    ensures CutNul(a + b) == Then(CutNul(a), CutNul(CutNul(a).rest + b))
    decreases |a|
  {
    var end := FindNul(a);
    if end < |a| {
      var record, more := a[..end], a[end + 1..];
      assert a == record + [NUL] + more;
      CutAcrossChunks(more, b);
      CutFirst(record, more);
      CutFirst(record, more + b);
      Regrouped(record, more, b);
      AcrossOne(record, CutNul(a + b), CutNul(a), CutNul(more + b), CutNul(more), CutNul(CutNul(more).rest + b));
    } else {
      ThenNothing(CutNul(a + b));
    }
  }

  // Every read callback of a connection in turn.
  function Feed(kept: seq<byte>, chunks: seq<seq<byte>>): Cut<byte>
    decreases |chunks|
  {
    if chunks == [] then Cut([], kept)
    else
      var c := CutNul(kept + chunks[0]);
      Then(c, Feed(c.rest, chunks[1..]))
  }

  lemma {:induction false} FeedIsCut(kept: seq<byte>, chunks: seq<seq<byte>>)
    requires NoNul(kept)
    ensures Feed(kept, chunks) == CutNul(kept + Flatten(chunks))
    decreases |chunks|
  {
    if chunks == [] {
      assert kept + [] == kept && FindNul(kept) == |kept|;
    } else {
      var s, rest := kept + chunks[0], Flatten(chunks[1..]);
      assert kept + Flatten(chunks) == s + rest;
      CutAcrossChunks(s, rest);
      CutIsPieces(s);
      FeedIsCut(CutNul(s).rest, chunks[1..]);
    }
  }

  // Dispatch and tail depend on the bytes only, not on how they were cut.
  lemma ReadsSplitOnNul(chunks: seq<seq<byte>>)
    ensures var p := Pieces(Flatten(chunks));
            Feed([], chunks) == Cut(NonEmpty(p[..|p| - 1]), p[|p| - 1])
  {
    FeedIsCut([], chunks);
    assert [] + Flatten(chunks) == Flatten(chunks);
    CutIsPieces(Flatten(chunks));
  }

  // What the splitting loop amounts to once it has dispatched items and moved to start.
  ghost function Outcome(items: seq<seq<byte>>, buf: seq<byte>, start: nat): Cut<byte>
    requires start <= |buf|
  {
    Then(Cut(items, []), CutNul(buf[start..]))
  }

  lemma OneTurn(items: seq<seq<byte>>, buf: seq<byte>, start: nat, end: nat)
    requires start <= end < |buf| && FindNul(buf[start..]) == end - start
    ensures var found := if end > start then [buf[start..end]] else [];
            Outcome(items + found, buf, end + 1) == Outcome(items, buf, start)
    ensures end == start ==> Outcome(items, buf, end + 1) == Outcome(items, buf, start)
  {
    assert buf[start..][..end - start] == buf[start..end];
    assert buf[start..][end - start + 1..] == buf[end + 1..];
    if end > start {
      ThenPush(items, buf[start..end], CutNul(buf[end + 1..]));
    } else {
      assert items + [] == items;
    }
  }

  lemma LastTurn(items: seq<seq<byte>>, buf: seq<byte>, start: nat)
    requires start <= |buf| && FindNul(buf[start..]) == |buf| - start
    ensures Outcome(items, buf, start) == Cut(items, buf[start..])
  {
  }

  class ClientConnection {
    var pending: seq<byte>
    var dispatched: seq<seq<byte>> // record bytes given to the JSON parser, in order

    constructor ()
      ensures pending == [] && dispatched == []
    {
      pending, dispatched := [], [];
    }

    method OnMessage(chunk: seq<byte>)
      modifies this
      ensures Cut(dispatched, pending) == Then(Cut(old(dispatched), []), CutNul(old(pending) + chunk))
    {
      pending := pending + chunk;
      var start := 0;
      ghost var before := dispatched;
      assert pending[0..] == pending;
      while start + FindNul(pending[start..]) < |pending|
        invariant 0 <= start <= |pending|
        invariant pending == old(pending) + chunk
        invariant Outcome(dispatched, pending, start) == Outcome(before, pending, 0)
        decreases |pending| - start
      {
        var end := start + FindNul(pending[start..]);
        OneTurn(dispatched, pending, start, end);
        if end > start {
          dispatched := dispatched + [pending[start..end]];
        }
        start := end + 1;
      }
      LastTurn(dispatched, pending, start);
      if start > 0 {
        pending := pending[start..];
      }
    }
  }
}
