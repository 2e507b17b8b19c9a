/**
 What each operation of a patch does, told by looking at the document before and
 after it: when it succeeds, what is found at its path, and that the rest is as it was.
 */
module PatchMeaning {
  import opened Wrappers
  import opened Numerals
  import opened JsonTree
  import opened JsonPatch

  function ParentPath(p: Pointer): Pointer
    requires p != []
  {
    p[..|p| - 1]
  }

  function Last(p: Pointer): string
    requires p != []
  {
    p[|p| - 1]
  }

  // Assigning at a place changes nothing at places that are neither above nor below it.
  lemma {:induction false} PutElsewhere(doc: Json, p: Pointer, v: Json, q: Pointer)
    requires At(doc, p).Some? && !(p <= q) && !(q <= p)
    ensures At(PutAt(doc, p, v), q) == At(doc, q)
  {
    if p[0] == q[0] {
      assert p[1..] <= q[1..] ==> p <= q;
      assert q[1..] <= p[1..] ==> q <= p;
      PutElsewhere(Child(doc, p[0]).value, p[1..], v, q[1..]);
    } else {
      OtherToken(doc, p[0], PutAt(Child(doc, p[0]).value, p[1..], v), q[0]);
    }
  }

  lemma OtherToken(j: Json, token: string, v: Json, other: string)
    requires Child(j, token).Some? && other != token
    ensures Child(SetChild(j, token, v), other) == Child(j, other)
  {
    if j.Arr? {
      IndexExactly(token, ParseIndex(token).value);
      if ParseIndex(other).Some? {
        IndexExactly(other, ParseIndex(other).value);
      }
    }
  }

  // ----- add -----

  // The parent is there and is an object, null, or an array in which the token is "-"
  // or the number of an element or of the place behind the last one.
  predicate CanAdd(doc: Json, p: Pointer) {
    p == [] ||
    (match At(doc, ParentPath(p))
     case None => false
     case Some(Null) => true
     case Some(Obj(_)) => true
     case Some(Arr(es)) => Last(p) == "-" || Numbers(Last(p), |es| + 1)
     case _ => false)
  }

  // The token is the number of one of n places.
  predicate Numbers(token: string, n: nat) {
    exists i :: 0 <= i < n && token == Decimal(i)
  }

  lemma NumbersExactly(token: string, n: nat)
    ensures Numbers(token, n) <==> ParseIndex(token).Some? && ParseIndex(token).value < n
  {
    if ParseIndex(token).Some? {
      IndexExactly(token, ParseIndex(token).value);
    }
    forall i: nat | token == Decimal(i) ensures ParseIndex(token) == Some(i) {
      IndexExactly(token, i);
    }
  }

  lemma AddSucceeds(doc: Json, p: Pointer, v: Json)
    ensures ApplyOp(doc, PatchOp(p, Add(v))).error.None? <==> CanAdd(doc, p)
  {
    if p != [] && At(doc, ParentPath(p)).Some? && At(doc, ParentPath(p)).value.Arr? {
      NumbersExactly(Last(p), |At(doc, ParentPath(p)).value.elems| + 1);
    }
  }

  // Where an added value is found: at the path, with the length of the array for "-".
  function Landing(doc: Json, p: Pointer): Pointer
    requires CanAdd(doc, p)
  {
    if p != [] && At(doc, ParentPath(p)).value.Arr? && Last(p) == "-"
    then ParentPath(p) + [Decimal(|At(doc, ParentPath(p)).value.elems|)] else p
  }

  lemma AddLands(doc: Json, p: Pointer, v: Json)
    requires CanAdd(doc, p)
    ensures At(ApplyOp(doc, PatchOp(p, Add(v))).doc, Landing(doc, p)) == Some(v)
  {
    AddSucceeds(doc, p, v);
    if p != [] {
      var q, token := ParentPath(p), Last(p);
      var parent := At(doc, q).value;
      var after := AddMember(parent, token, v).doc;
      var at := if parent.Arr? && token == "-" then Decimal(|parent.elems|) else token;
      if parent.Arr? {
        IndexRoundTrip(|parent.elems|);
      }
      assert Child(after, at) == Some(v);
      PutThenAt(doc, q, after);
      Below(PutAt(doc, q, after), q, at);
      assert Landing(doc, p) == q + [at];
    }
  }

  lemma Below(doc: Json, q: Pointer, token: string)
    requires At(doc, q).Some?
    ensures At(doc, q + [token]) == Child(At(doc, q).value, token)
  {
    AtConcatenated(doc, q, [token]);
    assert [token][1..] == [];
  }

  // The other members of the parent: kept, in an array those from the place on one
  // place further on.
  ghost predicate AddedBeside(before: Json, after: Json, token: string) {
    match before
    case Null => after.Obj? && forall k :: k in after.members ==> k == token
    case Obj(m) =>
      after.Obj? && forall k :: k != token ==> Child(after, k) == Child(before, k)
    case Arr(es) =>
      after.Arr? && |after.elems| == |es| + 1 &&
      var i := if token == "-" then |es| else if ParseIndex(token).Some? then ParseIndex(token).value else 0;
      i <= |es| && after.elems[..i] == es[..i] && after.elems[i + 1..] == es[i..]
    case _ => false
  }

  lemma AddKeepsRest(doc: Json, p: Pointer, v: Json, r: Pointer)
    requires p != [] && CanAdd(doc, p)
    ensures var t := ApplyOp(doc, PatchOp(p, Add(v))).doc;
            && At(t, ParentPath(p)).Some?
            && AddedBeside(At(doc, ParentPath(p)).value, At(t, ParentPath(p)).value, Last(p))
            && (!(ParentPath(p) <= r) && !(r <= ParentPath(p)) ==> At(t, r) == At(doc, r))
  {
    AddSucceeds(doc, p, v);
    var q, parent := ParentPath(p), At(doc, ParentPath(p)).value;
    var after := AddMember(parent, Last(p), v).doc;
    PutThenAt(doc, q, after);
    if !(q <= r) && !(r <= q) {
      PutElsewhere(doc, q, after, r);
    }
  }

  // ----- remove -----

  // The member is there, or the parent is neither object nor array.
  predicate CanRemove(doc: Json, p: Pointer) {
    p != [] &&
    (match At(doc, ParentPath(p))
     case None => false
     case Some(Obj(m)) => Last(p) in m
     case Some(Arr(es)) => Numbers(Last(p), |es|)
     case _ => true)
  }

  ghost predicate RemovedFrom(before: Json, after: Json, token: string) {
    match before
    case Obj(m) =>
      after.Obj? && token !in after.members && forall k :: k != token ==> Child(after, k) == Child(before, k)
    case Arr(es) =>
      after.Arr? && |after.elems| == |es| - 1 &&
      var i := if ParseIndex(token).Some? then ParseIndex(token).value else 0;
      i < |es| && after.elems[..i] == es[..i] && after.elems[i..] == es[i + 1..]
    case _ => after == before
  }

  lemma RemoveSucceeds(doc: Json, p: Pointer)
    ensures ApplyOp(doc, PatchOp(p, Remove)).error.None? <==> CanRemove(doc, p)
  {
    if p != [] && At(doc, ParentPath(p)).Some? && At(doc, ParentPath(p)).value.Arr? {
      NumbersExactly(Last(p), |At(doc, ParentPath(p)).value.elems|);
    }
  }

  lemma RemoveExactly(doc: Json, p: Pointer, r: Pointer)
    requires CanRemove(doc, p)
    ensures var t := ApplyOp(doc, PatchOp(p, Remove)).doc;
            && At(t, ParentPath(p)).Some?
            && RemovedFrom(At(doc, ParentPath(p)).value, At(t, ParentPath(p)).value, Last(p))
            && (!(ParentPath(p) <= r) && !(r <= ParentPath(p)) ==> At(t, r) == At(doc, r))
  {
    RemoveSucceeds(doc, p);
    var q, parent := ParentPath(p), At(doc, ParentPath(p)).value;
    var after := RemoveMember(parent, Last(p)).doc;
    PutThenAt(doc, q, after);
    if !(q <= r) && !(r <= q) {
      PutElsewhere(doc, q, after, r);
    }
  }

  // ----- replace, copy, move, test -----

  lemma ReplaceExactly(doc: Json, p: Pointer, v: Json, r: Pointer)
    ensures var o := ApplyOp(doc, PatchOp(p, Replace(v)));
            && (o.error.None? <==> At(doc, p).Some?)
            && (o.error.None? ==> At(o.doc, p) == Some(v))
            && (o.error.None? && !(p <= r) && !(r <= p) ==> At(o.doc, r) == At(doc, r))
  {
    if At(doc, p).Some? {
      PutThenAt(doc, p, v);
      if !(p <= r) && !(r <= p) {
        PutElsewhere(doc, p, v, r);
      }
    }
  }

  // A copy adds the value found at its source, which must be there.
  lemma CopyExactly(doc: Json, from: Pointer, p: Pointer)
    ensures var o := ApplyOp(doc, PatchOp(p, Copy(from)));
            && (o.error.None? <==> At(doc, from).Some? && CanAdd(doc, p))
            && (o.error.None? ==> o == ApplyOp(doc, PatchOp(p, Add(At(doc, from).value)))
                                  && At(o.doc, Landing(doc, p)) == At(doc, from))
  {
    if At(doc, from).Some? {
      AddSucceeds(doc, p, At(doc, from).value);
      if CanAdd(doc, p) {
        AddLands(doc, p, At(doc, from).value);
      }
    }
  }

  // A move is a remove of its source followed by an add of the value that was there.
  lemma MoveExactly(doc: Json, from: Pointer, p: Pointer)
    ensures var o := ApplyOp(doc, PatchOp(p, Move(from)));
            var removed := ApplyOp(doc, PatchOp(from, Remove)).doc;
            && (o.error.None? <==> from != [] && At(doc, from).Some? && CanAdd(removed, p))
            && (o.error.None? ==>
                  && o == ApplyAll(doc, [PatchOp(from, Remove), PatchOp(p, Add(At(doc, from).value))])
                  && At(o.doc, Landing(removed, p)) == At(doc, from))
  {
    if from != [] && At(doc, from).Some? {
      var v := At(doc, from).value;
      var ops := [PatchOp(from, Remove), PatchOp(p, Add(v))];
      RemovalSucceeds(doc, from);
      var removed := ApplyOp(doc, ops[0]).doc;
      AddSucceeds(removed, p, v);
      if CanAdd(removed, p) {
        AddLands(removed, p, v);
        assert ops[1..] == [ops[1]] && [ops[1]][1..] == [];
        assert ApplyAll(removed, [ops[1]]) == ApplyOp(removed, ops[1]);
      }
    }
  }

  lemma TestExactly(doc: Json, p: Pointer, v: Json)
    ensures var o := ApplyOp(doc, PatchOp(p, Test(v)));
            o.doc == doc && (o.error.None? <==> At(doc, p) == Some(v))
  {
  }

  // ----- which error -----

  // Longer than one character and not starting like a number.
  predicate Malformed(token: string) {
    |token| > 1 && !('1' <= token[0] <= '9')
  }

  // Some array on the way is addressed by a malformed token.
  predicate MalformedOnTheWay(doc: Json, p: Pointer) {
    exists k :: 0 <= k < |p| && AtArray(doc, p[..k]) && Malformed(p[k])
  }

  predicate AtArray(doc: Json, p: Pointer) {
    At(doc, p).Some? && At(doc, p).value.Arr?
  }

  lemma MalformedIsNoIndex(token: string)
    requires Malformed(token)
    ensures ParseIndex(token).None?
  {
    assert token[0] in token;
  }

  // A value is not found with a parse error exactly when that is so, and otherwise
  // because it is not there.
  lemma {:induction false} LookupError(doc: Json, p: Pointer)
    requires At(doc, p).None?
    ensures AtError(doc, p) == if MalformedOnTheWay(doc, p) then BadIndex else Unresolved
  {
    assert p[..0] == [];
    match Child(doc, p[0])
    case Some(c) =>
      LookupError(c, p[1..]);
      forall k | 0 <= k < |p| - 1 ensures At(doc, p[..k + 1]) == At(c, p[1..][..k]) && p[1..][k] == p[k + 1] {
        assert p[..k + 1][1..] == p[1..][..k];
      }
      assert MalformedOnTheWay(c, p[1..]) ==> MalformedOnTheWay(doc, p) by {
        if MalformedOnTheWay(c, p[1..]) {
          var k :| 0 <= k < |p| - 1 && AtArray(c, p[1..][..k]) && Malformed(p[1..][k]);
          assert AtArray(doc, p[..k + 1]) && Malformed(p[k + 1]);
        }
      }
      if MalformedOnTheWay(doc, p) {
        var k :| 0 <= k < |p| && AtArray(doc, p[..k]) && Malformed(p[k]);
        if k == 0 {
          MalformedIsNoIndex(p[0]);
        } else {
          assert AtArray(c, p[1..][..k - 1]) && Malformed(p[1..][k - 1]);
        }
      }
    case None =>
      if doc.Arr? && Malformed(p[0]) {
        MalformedIsNoIndex(p[0]);
        assert AtArray(doc, p[..0]);
      }
      forall k | 0 < k < |p| ensures !AtArray(doc, p[..k]) {
        assert p[..k][0] == p[0];
      }
  }

  // The error of a failed add or remove, once its parent is there.
  function MemberError(parent: Json, token: string): Error {
    match parent
    case Obj(_) => KeyNotFound
    case Arr(_) =>
      if ParseIndex(token).Some? then IndexRange
      else if Malformed(token) then BadIndex else Unresolved
    case _ => AssertionFails
  }

  lemma AddError(doc: Json, p: Pointer, v: Json)
    requires !CanAdd(doc, p)
    ensures var parent := At(doc, ParentPath(p));
            ApplyOp(doc, PatchOp(p, Add(v)))
            == Outcome(doc, Some(if parent.None? then
                                   if MalformedOnTheWay(doc, ParentPath(p)) then BadIndex else Unresolved
                                 else MemberError(parent.value, Last(p))))
  {
    AddSucceeds(doc, p, v);
    var q := ParentPath(p);
    if At(doc, q).None? {
      LookupError(doc, q);
    }
  }

  lemma RemoveError(doc: Json, p: Pointer)
    requires !CanRemove(doc, p)
    ensures ApplyOp(doc, PatchOp(p, Remove))
         == Outcome(doc, Some(if p == [] then RootHasNoParent
                              else if At(doc, ParentPath(p)).None? then
                                if MalformedOnTheWay(doc, ParentPath(p)) then BadIndex else Unresolved
                              else MemberError(At(doc, ParentPath(p)).value, Last(p))))
  {
    RemoveSucceeds(doc, p);
    if p != [] {
      var q := ParentPath(p);
      if At(doc, q).None? {
        LookupError(doc, q);
      }
    }
  }

  // A test of a value that is not there fails as a test, unless the pointer is malformed.
  lemma TestError(doc: Json, p: Pointer, v: Json)
    requires At(doc, p) != Some(v)
    ensures ApplyOp(doc, PatchOp(p, Test(v))).error
         == Some(if At(doc, p).None? && MalformedOnTheWay(doc, p) then BadIndex else TestFailed)
  {
    if At(doc, p).None? {
      LookupError(doc, p);
    }
  }
}
