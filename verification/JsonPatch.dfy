/**
 RFC 6902 patches: the six operations, patch_inplace as a loop over a document that
 it updates, and how patches for the parts of a value make up one for the whole.
 */
module JsonPatch {
  import opened Wrappers
  import opened JsonTree
  import opened Numerals

  datatype Action =
    | Add(value: Json)
    | Remove
    | Replace(value: Json)
    | Move(from: Pointer)
    | Copy(from: Pointer)
    | Test(value: Json)

  datatype PatchOp = PatchOp(path: Pointer, action: Action)

  // BadIndex is a parse error; the next three are out_of_range. AssertionFails is
  // no exception but JSON_ASSERT(false), which ends a process built with assertions.
  datatype Error = BadIndex | Unresolved | IndexRange | KeyNotFound | AssertionFails | RootHasNoParent | TestFailed

  // An exception leaves the document as the completed steps made it.
  datatype Outcome = Outcome(doc: Json, error: Option<Error>)

  function Done(doc: Json): Outcome { Outcome(doc, None) }

  // ----- one operation -----

  // A token that is no array index: with a leading zero, or longer than one
  // character and not starting like a number, it is a parse error.
  function IndexError(token: string): Error {
    if |token| > 1 && !('1' <= token[0] <= '9') then BadIndex else Unresolved
  }

  // Why at() fails.
  function AtError(j: Json, p: Pointer): Error
    requires At(j, p).None?
  {
    match Child(j, p[0])
    case Some(c) => AtError(c, p[1..])
    case None => if j.Arr? && ParseIndex(p[0]).None? then IndexError(p[0]) else Unresolved
  }

  function AddMember(parent: Json, token: string, v: Json): Outcome {
    match parent
    case Null => Done(Obj(map[token := v]))
    case Obj(m) => Done(Obj(m[token := v]))
    case Arr(es) =>
      if token == "-" then Done(Arr(es + [v]))
      else (match ParseIndex(token)
            case None => Outcome(parent, Some(IndexError(token)))
            case Some(i) =>
              if i > |es| then Outcome(parent, Some(IndexRange))
              else Done(Arr(es[..i] + [v] + es[i..])))
    case _ => Outcome(parent, Some(AssertionFails))
  }

  // A primitive parent is silently left alone.
  function RemoveMember(parent: Json, token: string): Outcome {
    match parent
    case Obj(m) =>
      if token in m then Done(Obj(m - {token})) else Outcome(parent, Some(KeyNotFound))
    case Arr(es) =>
      (match ParseIndex(token)
       case None => Outcome(parent, Some(IndexError(token)))
       case Some(i) =>
         if i >= |es| then Outcome(parent, Some(IndexRange))
         else Done(Arr(es[..i] + es[i + 1..])))
    case _ => Done(parent)
  }

  // Runs a step on the parent of the addressed member and stores the new parent.
  function OnParent(doc: Json, p: Pointer, step: (Json, string) -> Outcome): Outcome
    requires p != []
  {
    var parentPath, last := p[..|p| - 1], p[|p| - 1];
    match At(doc, parentPath)
    case None => Outcome(doc, Some(AtError(doc, parentPath)))
    case Some(parent) =>
      var o := step(parent, last);
      if o.error.Some? then Outcome(doc, o.error) else Done(PutAt(doc, parentPath, o.doc))
  }

  function OperationAdd(doc: Json, p: Pointer, v: Json): Outcome {
    if p == [] then Done(v)
    else OnParent(doc, p, (parent, token) => AddMember(parent, token, v))
  }

  function OperationRemove(doc: Json, p: Pointer): Outcome {
    if p == [] then Outcome(doc, Some(RootHasNoParent))
    else OnParent(doc, p, (parent, token) => RemoveMember(parent, token))
  }

  function ApplyOp(doc: Json, op: PatchOp): Outcome {
    var p := op.path;
    match op.action
    case Add(v) => OperationAdd(doc, p, v)
    case Remove => OperationRemove(doc, p)
    case Replace(v) =>
      if At(doc, p).None? then Outcome(doc, Some(AtError(doc, p))) else Done(PutAt(doc, p, v))
    case Move(f) =>
      (match At(doc, f)
       case None => Outcome(doc, Some(AtError(doc, f)))
       case Some(v) =>
         var removed := OperationRemove(doc, f);
         if removed.error.Some? then removed else OperationAdd(removed.doc, p, v))
    case Copy(f) =>
      (match At(doc, f)
       case None => Outcome(doc, Some(AtError(doc, f)))
       case Some(v) => OperationAdd(doc, p, v))
    case Test(v) => // only out_of_range is caught
      if At(doc, p) == Some(v) then Done(doc)
      else if At(doc, p).None? && AtError(doc, p).BadIndex? then Outcome(doc, Some(BadIndex))
      else Outcome(doc, Some(TestFailed))
  }

  // ----- what one operation undoes, and what a failed one leaves -----

  lemma {:induction false} PutThenAt(doc: Json, p: Pointer, v: Json)
    requires At(doc, p).Some?
    ensures At(PutAt(doc, p, v), p) == Some(v)
    ensures PutAt(doc, p, At(doc, p).value) == doc
  {
    if p != [] {
      PutThenAt(Child(doc, p[0]).value, p[1..], v);
    }
  }

  lemma {:induction false} PutTwice(doc: Json, p: Pointer, v: Json, w: Json)
    requires At(doc, p).Some? && At(PutAt(doc, p, v), p).Some?
    ensures PutAt(PutAt(doc, p, v), p, w) == PutAt(doc, p, w)
  {
    if p != [] {
      var c := Child(doc, p[0]).value;
      PutThenAt(c, p[1..], v);
      PutTwice(c, p[1..], v, w);
      SetChildTwice(doc, p[0], PutAt(c, p[1..], v), PutAt(c, p[1..], w));
    }
  }

  // Removing a member just added gives the parent back exactly when adding it neither
  // replaced a member, nor turned null into an object, nor was an append.
  lemma RemoveUndoesAddMember(parent: Json, token: string, v: Json)
    requires AddMember(parent, token, v).error.None?
    ensures RemoveMember(AddMember(parent, token, v).doc, token) == Done(parent)
       <==> (parent.Arr? && token != "-") || (parent.Obj? && token !in parent.members)
  {
  }

  // The same at any place of a document.
  lemma RemoveUndoesAdd(doc: Json, p: Pointer, v: Json)
    requires p != [] && ApplyOp(doc, PatchOp(p, Add(v))).error.None?
    ensures var parent, token := At(doc, p[..|p| - 1]).value, p[|p| - 1];
            ApplyAll(doc, [PatchOp(p, Add(v)), PatchOp(p, Remove)]) == Done(doc)
            <==> (parent.Arr? && token != "-") || (parent.Obj? && token !in parent.members)
  {
    var q, token := p[..|p| - 1], p[|p| - 1];
    var parent := At(doc, q).value;
    var after := AddMember(parent, token, v).doc;
    var added, removed := PutAt(doc, q, after), RemoveMember(after, token);
    RemoveUndoesAddMember(parent, token, v);
    PutThenAt(doc, q, after);
    PutTwice(doc, q, after, removed.doc);
    PutThenAt(doc, q, removed.doc);
    var ops := [PatchOp(p, Add(v)), PatchOp(p, Remove)];
    assert ops[1..] == [ops[1]] && ops[1..][1..] == [];
    assert ApplyAll(added, ops[1..]) == ApplyOp(added, ops[1]);
  }

  // A failed operation leaves the document as it was, except a move whose source
  // exists: its value has been removed and is gone.
  lemma FailureKeepsDocument(doc: Json, op: PatchOp)
    requires ApplyOp(doc, op).error.Some?
    ensures ApplyOp(doc, op).doc == doc
       <==> !(op.action.Move? && op.action.from != [] && At(doc, op.action.from).Some?)
  {
    if op.action.Move? && op.action.from != [] && At(doc, op.action.from).Some? {
      RemovalSucceeds(doc, op.action.from);
    }
  }

  // Such a move: the target's parent does not exist, and the source is gone all the same.
  lemma MoveLosesValue(v: Json)
    ensures var op := PatchOp(["b", "c"], Move(["a"]));
            ApplyOp(Obj(map["a" := v]), op) == Outcome(Obj(map[]), Some(Unresolved))
  {
    var doc, from, to := Obj(map["a" := v]), ["a"], ["b", "c"];
    assert from[1..] == [] && from[..0] == [] && to[..1] == ["b"];
    assert map["a" := v] - {"a"} == map[];
    assert At(doc, from) == Some(v) && OperationRemove(doc, from) == Done(Obj(map[]));
    assert At(Obj(map[]), to[..1]) == None && AtError(Obj(map[]), to[..1]) == Unresolved;
    assert OperationAdd(Obj(map[]), to, v) == Outcome(Obj(map[]), Some(Unresolved));
  }

  lemma RemovalSucceeds(doc: Json, p: Pointer)
    requires p != [] && At(doc, p).Some?
    ensures OperationRemove(doc, p).error.None? && OperationRemove(doc, p).doc != doc
  {
    var q, token := p[..|p| - 1], p[|p| - 1];
    AtLast(doc, p);
    var parent := At(doc, q).value;
    var after := RemoveMember(parent, token).doc;
    assert after != parent;
    PutThenAt(doc, q, after);
  }

  // at() of a pointer is at() of its parent and one step more.
  lemma {:induction false} AtLast(doc: Json, p: Pointer)
    requires p != [] && At(doc, p).Some?
    ensures var q := p[..|p| - 1];
            At(doc, q).Some? && Child(At(doc, q).value, p[|p| - 1]) == At(doc, p)
    decreases |p|
  {
    if |p| > 1 {
      AtLast(Child(doc, p[0]).value, p[1..]);
      assert p[1..][..|p| - 2] == p[..|p| - 1][1..];
    } else {
      assert p[1..] == [] && p[..0] == [];
    }
  }

  // ----- a whole patch -----

  function ApplyAll(doc: Json, ops: seq<PatchOp>): Outcome
    decreases |ops|
  {
    if ops == [] then Done(doc)
    else
      var o := ApplyOp(doc, ops[0]);
      if o.error.Some? then o else ApplyAll(o.doc, ops[1..])
  }

  lemma {:induction false} ApplyAppend(doc: Json, a: seq<PatchOp>, b: seq<PatchOp>)
    ensures ApplyAll(doc, a).error.Some? ==> ApplyAll(doc, a + b) == ApplyAll(doc, a)
    ensures ApplyAll(doc, a).error.None? ==> ApplyAll(doc, a + b) == ApplyAll(ApplyAll(doc, a).doc, b)
    decreases |a|
  {
    if a == [] {
      assert a + b == b;
    } else {
      assert (a + b)[1..] == a[1..] + b;
      var o := ApplyOp(doc, a[0]);
      if o.error.None? {
        ApplyAppend(o.doc, a[1..], b);
      }
    }
  }

  class Document {
    var root: Json

    constructor (j: Json)
      ensures root == j
    {
      root := j;
    }

    // Operations are applied in order; the first exception stops the loop and
    // leaves the effects of the operations before it.
    method PatchInplace(ops: seq<PatchOp>) returns (error: Option<Error>)
      modifies this
      ensures Outcome(root, error) == ApplyAll(old(root), ops)
    {
      var i := 0;
      error := None;
      while i < |ops|
        invariant 0 <= i <= |ops|
        invariant error.None?
        invariant ApplyAll(old(root), ops) == ApplyAll(root, ops[i..])
      {
        var o := ApplyOp(root, ops[i]);
        root := o.doc;
        if o.error.Some? {
          error := o.error;
          return;
        }
        i := i + 1;
      }
    }
  }

  // ----- operations addressed below a member -----

  // Members of diff's output: additions and removals always name a member.
  predicate Local(op: PatchOp) {
    op.action.Replace? || ((op.action.Add? || op.action.Remove?) && |op.path| > 0)
  }

  function Under(prefix: Pointer, ops: seq<PatchOp>): (r: seq<PatchOp>)
    requires forall op :: op in ops ==> Local(op)
    ensures |r| == |ops|
    ensures forall op :: op in r ==> Local(op)
  {
    if ops == [] then []
    else
      var op := PatchOp(prefix + ops[0].path, ops[0].action);
      assert Local(ops[0]) && Local(op);
      [op] + Under(prefix, ops[1..])
  }

  lemma {:induction false} LiftOp(doc: Json, token: string, op: PatchOp)
    requires Local(op) && Child(doc, token).Some?
    requires ApplyOp(Child(doc, token).value, op).error.None?
    ensures ApplyOp(doc, PatchOp([token] + op.path, op.action))
         == Done(SetChild(doc, token, ApplyOp(Child(doc, token).value, op).doc))
  {
    var q := [token] + op.path;
    if op.action.Replace? {
      AtUnder(doc, token, op.path);
    } else {
      var parentPath := op.path[..|op.path| - 1];
      assert q[..|q| - 1] == [token] + parentPath;
      AtUnder(doc, token, parentPath);
    }
  }

  lemma {:induction false} SetChildTwice(doc: Json, token: string, v: Json, w: Json)
    requires Child(doc, token).Some?
    ensures SetChild(SetChild(doc, token, v), token, w) == SetChild(doc, token, w)
    ensures SetChild(doc, token, Child(doc, token).value) == doc
  {
  }

  // A patch for a member, readdressed below that member, patches it in place.
  lemma {:induction false} LiftAll(doc: Json, token: string, ops: seq<PatchOp>)
    requires Child(doc, token).Some?
    requires forall op :: op in ops ==> Local(op)
    requires ApplyAll(Child(doc, token).value, ops).error.None?
    ensures ApplyAll(doc, Under([token], ops))
         == Done(SetChild(doc, token, ApplyAll(Child(doc, token).value, ops).doc))
    decreases |ops|
  {
    var c := Child(doc, token).value;
    if ops == [] {
      SetChildTwice(doc, token, c, c);
    } else {
      LiftOp(doc, token, ops[0]);
      var c' := ApplyOp(c, ops[0]).doc;
      var doc' := SetChild(doc, token, c');
      assert Under([token], ops)[0] == PatchOp([token] + ops[0].path, ops[0].action);
      assert Under([token], ops)[1..] == Under([token], ops[1..]);
      LiftAll(doc', token, ops[1..]);
      SetChildTwice(doc, token, c', ApplyAll(c', ops[1..]).doc);
    }
  }

  lemma {:induction false} UnderUnder(p: Pointer, q: Pointer, ops: seq<PatchOp>)
    requires forall op :: op in ops ==> Local(op)
    ensures Under(p, Under(q, ops)) == Under(p + q, ops)
  {
    if ops != [] {
      assert p + (q + ops[0].path) == (p + q) + ops[0].path;
      UnderUnder(p, q, ops[1..]);
    }
  }

  lemma {:induction false} UnderNothing(ops: seq<PatchOp>)
    requires forall op :: op in ops ==> Local(op)
    ensures Under([], ops) == ops
  {
    if ops != [] {
      assert [] + ops[0].path == ops[0].path;
      UnderNothing(ops[1..]);
    }
  }

  // ops is a patch from source to target whose paths all start with path.
  ghost predicate Patches(ops: seq<PatchOp>, path: Pointer, source: Json, target: Json) {
    exists rel: seq<PatchOp> :: PatchesAs(ops, path, rel, source, target)
  }

  ghost predicate PatchesAs(ops: seq<PatchOp>, path: Pointer, rel: seq<PatchOp>, source: Json, target: Json) {
    && (forall op :: op in rel ==> Local(op))
    && ops == Under(path, rel)
    && ApplyAll(source, rel) == Done(target)
  }

  // Wherever source sits in a document, the patch replaces exactly that value.
  lemma {:induction false} PatchesInDocument(doc: Json, ops: seq<PatchOp>, path: Pointer, source: Json, target: Json)
    requires Patches(ops, path, source, target)
    requires At(doc, path) == Some(source)
    ensures ApplyAll(doc, ops) == Done(PutAt(doc, path, target))
    decreases |path|
  {
    var rel: seq<PatchOp> :| PatchesAs(ops, path, rel, source, target);
    if path == [] {
      UnderNothing(rel);
    } else {
      var token, rest := path[0], path[1..];
      var inner := Under(rest, rel);
      assert Patches(inner, rest, source, target) by {
        assert PatchesAs(inner, rest, rel, source, target);
      }
      PatchesInDocument(Child(doc, token).value, inner, rest, source, target);
      LiftAll(doc, token, inner);
      assert ops == Under([token], inner) by {
        UnderUnder([token], rest, rel);
        assert [token] + rest == path;
      }
    }
  }

  // ----- the steps of diff, on patches relative to the value compared -----

  lemma {:induction false} UnderAppend(p: Pointer, a: seq<PatchOp>, b: seq<PatchOp>)
    requires forall op :: op in a ==> Local(op)
    requires forall op :: op in b ==> Local(op)
    ensures Under(p, a + b) == Under(p, a) + Under(p, b)
  {
    if a == [] {
      assert a + b == b;
    } else {
      assert (a + b)[1..] == a[1..] + b;
      UnderAppend(p, a[1..], b);
    }
  }

  // Appending operations that act directly on the value compared.
  lemma {:induction false} AppendRelative(path: Pointer, result: seq<PatchOp>, source: Json, doc: Json,
                                          ops: seq<PatchOp>, doc': Json)
    requires Patches(result, path, source, doc)
    requires forall op :: op in ops ==> Local(op)
    requires ApplyAll(doc, ops) == Done(doc')
    ensures Patches(result + Under(path, ops), path, source, doc')
  {
    var rel: seq<PatchOp> :| PatchesAs(result, path, rel, source, doc);
    ApplyAppend(source, rel, ops);
    UnderAppend(path, rel, ops);
    assert PatchesAs(result + Under(path, ops), path, rel + ops, source, doc');
  }

  // Appending a member's patch to a patch that has produced doc so far.
  lemma {:induction false} AppendMember(path: Pointer, result: seq<PatchOp>, source: Json, doc: Json, token: string,
                                        temp: seq<PatchOp>, v: Json)
    requires Patches(result, path, source, doc)
    requires Child(doc, token).Some?
    requires Patches(temp, path + [token], Child(doc, token).value, v)
    ensures Patches(result + temp, path, source, SetChild(doc, token, v))
  {
    var sub: seq<PatchOp> :| PatchesAs(temp, path + [token], sub, Child(doc, token).value, v);
    LiftAll(doc, token, sub);
    UnderUnder(path, [token], sub);
    AppendRelative(path, result, source, doc, Under([token], sub), SetChild(doc, token, v));
  }

  lemma {:induction false} AppendOne(path: Pointer, result: seq<PatchOp>, source: Json, doc: Json,
                                     token: string, a: Action, doc': Json)
    requires Patches(result, path, source, doc)
    requires a.Add? || a.Remove?
    requires ApplyOp(doc, PatchOp([token], a)) == Done(doc')
    ensures Patches(result + [PatchOp(path + [token], a)], path, source, doc')
  {
    var ops := [PatchOp([token], a)];
    assert ops[1..] == [];
    AppendRelative(path, result, source, doc, ops, doc');
    assert Under(path, ops) == [PatchOp(path + [token], a)];
  }

  lemma {:induction false} StepElement(path: Pointer, result: seq<PatchOp>, source: Json, es: seq<Json>, i: nat,
                                       temp: seq<PatchOp>, v: Json)
    requires i < |es|
    requires Patches(result, path, source, Arr(es))
    requires Patches(temp, path + [Decimal(i)], es[i], v)
    ensures Patches(result + temp, path, source, Arr(es[i := v]))
  {
    IndexRoundTrip(i);
    AppendMember(path, result, source, Arr(es), Decimal(i), temp, v);
  }

  lemma {:induction false} StepPushBack(path: Pointer, result: seq<PatchOp>, source: Json, es: seq<Json>, v: Json)
    requires Patches(result, path, source, Arr(es))
    ensures Patches(result + [PatchOp(path + ["-"], Add(v))], path, source, Arr(es + [v]))
  {
    assert ["-"][..0] == [];
    AppendOne(path, result, source, Arr(es), "-", Add(v), Arr(es + [v]));
  }

  // After the elements in front of i, those behind it are still the source's.
  lemma StepCommon(path: Pointer, result: seq<PatchOp>, source: Json, s: seq<Json>, t: seq<Json>, i: nat,
                   temp: seq<PatchOp>)
    requires i < |s| && i < |t|
    requires Patches(result, path, source, Arr(t[..i] + s[i..]))
    requires Patches(temp, path + [Decimal(i)], s[i], t[i])
    ensures Patches(result + temp, path, source, Arr(t[..i + 1] + s[i + 1..]))
  {
    var doc := t[..i] + s[i..];
    StepElement(path, result, source, doc, i, temp, t[i]);
    assert doc[i := t[i]] == t[..i + 1] + s[i + 1..];
  }

  lemma StepAppend(path: Pointer, result: seq<PatchOp>, source: Json, t: seq<Json>, i: nat)
    requires i < |t|
    requires Patches(result, path, source, Arr(t[..i]))
    ensures Patches(result + [PatchOp(path + ["-"], Add(t[i]))], path, source, Arr(t[..i + 1]))
  {
    StepPushBack(path, result, source, t[..i], t[i]);
    assert t[..i] + [t[i]] == t[..i + 1];
  }

  lemma {:induction false} StepRemoveKey(path: Pointer, result: seq<PatchOp>, source: Json, m: map<string, Json>,
                                         k: string)
    requires k in m
    requires Patches(result, path, source, Obj(m))
    ensures Patches(result + [PatchOp(path + [k], Remove)], path, source, Obj(m - {k}))
  {
    assert [k][..0] == [];
    AppendOne(path, result, source, Obj(m), k, Remove, Obj(m - {k}));
  }

  lemma {:induction false} StepAddKey(path: Pointer, result: seq<PatchOp>, source: Json, m: map<string, Json>,
                                      k: string, v: Json)
    requires Patches(result, path, source, Obj(m))
    ensures Patches(result + [PatchOp(path + [k], Add(v))], path, source, Obj(m[k := v]))
  {
    assert [k][..0] == [];
    AppendOne(path, result, source, Obj(m), k, Add(v), Obj(m[k := v]));
  }

  lemma {:induction false} StepMember(path: Pointer, result: seq<PatchOp>, source: Json, m: map<string, Json>,
                                      k: string, temp: seq<PatchOp>, v: Json)
    requires k in m
    requires Patches(result, path, source, Obj(m))
    requires Patches(temp, path + [k], m[k], v)
    ensures Patches(result + temp, path, source, Obj(m[k := v]))
  {
    AppendMember(path, result, source, Obj(m), k, temp, v);
  }

  lemma EmptyPatch(path: Pointer, j: Json)
    ensures Patches([], path, j, j)
  {
    assert PatchesAs([], path, [], j, j);
  }

  lemma EmptyPatchIsIdentity(path: Pointer, source: Json, target: Json)
    requires Patches([], path, source, target)
    ensures source == target
  {
  }

  lemma ReplacePatch(path: Pointer, source: Json, target: Json)
    ensures Patches([PatchOp(path, Replace(target))], path, source, target)
  {
    var rel := [PatchOp([], Replace(target))];
    assert rel[1..] == [] && path + [] == path;
    assert PatchesAs([PatchOp(path, Replace(target))], path, rel, source, target);
  }

  // Indices high - 1 down to low, the order in which diff leaves its removals.
  function Removals(low: nat, high: nat): (r: seq<PatchOp>)
    ensures forall op :: op in r ==> Local(op)
    ensures |r| == if low < high then high - low else 0
  {
    if high <= low then [] else [PatchOp([Decimal(high - 1)], Remove)] + Removals(low, high - 1)
  }

  lemma {:induction false} RemovalsTruncate(es: seq<Json>, low: nat)
    requires low <= |es|
    ensures ApplyAll(Arr(es), Removals(low, |es|)) == Done(Arr(es[..low]))
    decreases |es|
  {
    if low == |es| {
      assert es[..low] == es;
    } else {
      var n := |es| - 1;
      IndexRoundTrip(n);
      var op := PatchOp([Decimal(n)], Remove);
      assert op.path[..0] == [];
      assert es[..n] + es[n + 1..] == es[..n];
      assert ApplyOp(Arr(es), op) == Done(Arr(es[..n]));
      assert Removals(low, |es|)[1..] == Removals(low, n);
      RemovalsTruncate(es[..n], low);
      assert es[..n][..low] == es[..low];
    }
  }

  lemma UnderRemovals(path: Pointer, low: nat, high: nat)
    requires low <= high
    ensures Under(path, Removals(low, high + 1))
         == [PatchOp(path + [Decimal(high)], Remove)] + Under(path, Removals(low, high))
  {
  }

  // Source with the keys outside todo already brought to their target value or removed.
  ghost function HalfWay(s: map<string, Json>, t: map<string, Json>, todo: set<string>): map<string, Json> {
    map k | k in s && (k in todo || k in t) :: if k in todo then s[k] else t[k]
  }

  // Target without the new keys that are still to be added.
  ghost function NotYetAdded(s: map<string, Json>, t: map<string, Json>, todo: set<string>): map<string, Json> {
    map k | k in t && (k in s || k !in todo) :: t[k]
  }

  lemma SurplusRemoved(path: Pointer, first: seq<PatchOp>, source: Json, t: seq<Json>, common: nat)
    requires source.Arr? && common <= |source.elems| && common <= |t|
    requires Patches(first, path, source, Arr(t[..common] + source.elems[common..]))
    ensures Patches(first + Under(path, Removals(common, |source.elems|)), path, source, Arr(t[..common]))
  {
    var doc := t[..common] + source.elems[common..];
    RemovalsTruncate(doc, common);
    assert doc[..common] == t[..common];
    AppendRelative(path, first, source, Arr(doc), Removals(common, |source.elems|), Arr(t[..common]));
  }
}
