/**
 diff: a patch that turns source into target, made of operations each of which is
 needed where it stands.
 */
module JsonDiff {
  import opened Wrappers
  import opened Numerals
  import opened JsonTree
  import opened JsonPatch

  // ----- operations that are needed -----

  // Both values have a container of the same type above the place.
  predicate SameParents(source: Json, target: Json, p: Pointer) {
    p != [] &&
    var (s, t) := (At(source, p[..|p| - 1]), At(target, p[..|p| - 1]));
    s.Some? && t.Some? && ((s.value.Arr? && t.value.Arr?) || (s.value.Obj? && t.value.Obj?))
  }

  // A value is replaced by the target's where both have one, they differ, and not both
  // are arrays or both objects. A member is removed where only the source has one,
  // added where only the target has one, and elements are appended that lie behind
  // those of the source.
  predicate Needed(source: Json, target: Json, p: Pointer, action: Action) {
    match action
    case Replace(v) =>
      && At(target, p) == Some(v) && At(source, p).Some? && At(source, p).value != v
      && !(At(source, p).value.Arr? && v.Arr?) && !(At(source, p).value.Obj? && v.Obj?)
    case Remove => SameParents(source, target, p) && At(source, p).Some? && At(target, p).None?
    case Add(v) =>
      SameParents(source, target, p) &&
      var (s, t) := (At(source, p[..|p| - 1]).value, At(target, p[..|p| - 1]).value);
      if s.Obj? then At(source, p).None? && At(target, p) == Some(v)
      else p[|p| - 1] == "-" && |s.elems| < |t.elems| && v in t.elems[|s.elems|..]
    case _ => false
  }

  predicate NeededUnder(op: PatchOp, path: Pointer, source: Json, target: Json) {
    path <= op.path && Needed(source, target, op.path[|path|..], op.action)
  }

  predicate AllNeeded(ops: seq<PatchOp>, path: Pointer, source: Json, target: Json) {
    forall op :: op in ops ==> NeededUnder(op, path, source, target)
  }

  // What is needed in a member is needed in the whole.
  lemma NeededInWhole(source: Json, target: Json, token: string, q: Pointer, action: Action)
    requires Child(source, token).Some? && Child(target, token).Some?
    requires Needed(Child(source, token).value, Child(target, token).value, q, action)
    ensures Needed(source, target, [token] + q, action)
  {
    AtUnder(source, token, q);
    AtUnder(target, token, q);
    if q != [] {
      assert ([token] + q)[..|q|] == [token] + q[..|q| - 1];
      AtUnder(source, token, q[..|q| - 1]);
      AtUnder(target, token, q[..|q| - 1]);
    }
  }

  lemma NeededChild(result: seq<PatchOp>, temp: seq<PatchOp>, path: Pointer, token: string, source: Json, target: Json)
    requires AllNeeded(result, path, source, target)
    requires Child(source, token).Some? && Child(target, token).Some?
    requires AllNeeded(temp, path + [token], Child(source, token).value, Child(target, token).value)
    ensures AllNeeded(result + temp, path, source, target)
  {
    forall op | op in temp ensures NeededUnder(op, path, source, target) {
      var q := op.path[|path| + 1..];
      assert op.path == path + [token] + q && op.path[|path|..] == [token] + q;
      NeededInWhole(source, target, token, q, op.action);
    }
  }

  // One more operation on a member.
  lemma NeededOne(result: seq<PatchOp>, path: Pointer, token: string, action: Action, source: Json, target: Json)
    requires AllNeeded(result, path, source, target) && Needed(source, target, [token], action)
    ensures AllNeeded(result + [PatchOp(path + [token], action)], path, source, target)
  {
    assert (path + [token])[|path|..] == [token];
  }

  lemma NeededMember(source: Json, target: Json, k: string)
    requires source.Obj? && target.Obj?
    ensures k in source.members && k !in target.members ==> Needed(source, target, [k], Remove)
    ensures k !in source.members && k in target.members ==> Needed(source, target, [k], Add(target.members[k]))
  {
    assert [k][..0] == [] && [k][1..] == [];
  }

  lemma NeededElement(source: Json, target: Json, i: nat)
    requires source.Arr? && target.Arr?
    ensures |target.elems| <= i < |source.elems| ==> Needed(source, target, [Decimal(i)], Remove)
    ensures |source.elems| <= i < |target.elems| ==> Needed(source, target, ["-"], Add(target.elems[i]))
  {
    IndexRoundTrip(i);
    assert [Decimal(i)][..0] == [] && [Decimal(i)][1..] == [] && ["-"][..0] == [];
    if |source.elems| <= i < |target.elems| {
      assert target.elems[|source.elems|..][i - |source.elems|] == target.elems[i];
    }
  }

  lemma {:induction false} NeededRemovals(path: Pointer, source: Json, target: Json, low: nat, high: nat)
    requires source.Arr? && target.Arr? && |target.elems| <= low && high <= |source.elems|
    ensures AllNeeded(Under(path, Removals(low, high)), path, source, target)
    decreases high
  {
    if low < high {
      NeededElement(source, target, high - 1);
      NeededRemovals(path, source, target, low, high - 1);
      UnderRemovals(path, low, high - 1);
      assert (path + [Decimal(high - 1)])[|path|..] == [Decimal(high - 1)];
    }
  }

  // ----- diff -----

  method Diff(source: Json, target: Json, path: Pointer) returns (result: seq<PatchOp>)
    ensures Patches(result, path, source, target)
    ensures path == [] ==> ApplyAll(source, result) == Done(target)
    ensures result == [] <==> source == target
    ensures AllNeeded(result, path, source, target)
    decreases source, 2
  {
    result := [];
    EmptyPatch(path, source);
    if source == target {
    } else if !SameType(source, target) || !(source.Arr? || source.Obj?) {
      result := [PatchOp(path, Replace(target))];
      ReplacePatch(path, source, target);
      assert path[|path|..] == [];
    } else if source.Arr? {
      result := DiffArrays(source, target, path);
    } else {
      result := DiffObjects(source, target, path);
    }
    if path == [] {
      PatchesInDocument(source, result, path, source, target);
    }
    if result == [] {
      EmptyPatchIsIdentity(path, source, target);
    }
  }

  method DiffArrays(source: Json, target: Json, path: Pointer) returns (result: seq<PatchOp>)
    requires source.Arr? && target.Arr?
    ensures Patches(result, path, source, target) && AllNeeded(result, path, source, target)
    decreases source, 1
  {
    var i;
    i, result := DiffCommon(source, target, path);
    if i < |source.elems| {
      NeededRemovals(path, source, target, i, |source.elems|);
    }
    result := InsertRemovals(source, target.elems, i, path, result);
    assert target.elems[..|target.elems|] == target.elems;
    i := if i < |source.elems| then |source.elems| else i;
    result := AppendAdditions(source, target, i, path, result);
  }

  // First pass: the indices both arrays have.
  method DiffCommon(source: Json, target: Json, path: Pointer) returns (i: nat, result: seq<PatchOp>)
    requires source.Arr? && target.Arr?
    ensures i <= |source.elems| && i <= |target.elems| && (i == |source.elems| || i == |target.elems|)
    ensures Patches(result, path, source, Arr(target.elems[..i] + source.elems[i..]))
    ensures AllNeeded(result, path, source, target)
    decreases source, 0
  {
    var s, t := source.elems, target.elems;
    result := [];
    EmptyPatch(path, source);
    i := 0;
    assert t[..0] + s[0..] == s;
    while i < |s| && i < |t|
      invariant i <= |s| && i <= |t|
      invariant Patches(result, path, source, Arr(t[..i] + s[i..]))
      invariant AllNeeded(result, path, source, target)
    {
      IndexRoundTrip(i);
      var temp := Diff(s[i], t[i], path + [Decimal(i)]);
      StepCommon(path, result, source, s, t, i, temp);
      NeededChild(result, temp, path, Decimal(i), source, target);
      result, i := result + temp, i + 1;
    }
  }

  // Second pass over a longer source: each removal goes in front of the previous ones.
  method InsertRemovals(source: Json, ghost t: seq<Json>, common: nat, path: Pointer, first: seq<PatchOp>)
    returns (result: seq<PatchOp>)
    requires source.Arr? && common <= |source.elems| && common <= |t|
    requires Patches(first, path, source, Arr(t[..common] + source.elems[common..]))
    ensures Patches(result, path, source, Arr(t[..common]))
    ensures result == first + Under(path, Removals(common, |source.elems|))
  {
    result := RemoveSurplus(common, |source.elems|, path, first);
    SurplusRemoved(path, first, source, t, common);
  }

  method RemoveSurplus(common: nat, size: nat, path: Pointer, first: seq<PatchOp>) returns (result: seq<PatchOp>)
    requires common <= size
    ensures result == first + Under(path, Removals(common, size))
  {
    var i, endIndex := common, |first|;
    result := first;
    assert Under(path, Removals(common, common)) == [];
    while i < size
      invariant common <= i <= size
      invariant result == first + Under(path, Removals(common, i))
    {
      UnderRemovals(path, common, i);
      result := result[..endIndex] + [PatchOp(path + [Decimal(i)], Remove)] + result[endIndex..];
      i := i + 1;
    }
  }

  // Second pass over a longer target: every extra element is appended.
  method AppendAdditions(ghost source: Json, target: Json, start: nat, path: Pointer, first: seq<PatchOp>)
    returns (result: seq<PatchOp>)
    requires source.Arr? && target.Arr? && |source.elems| <= start
    requires Patches(first, path, source, Arr(if start <= |target.elems| then target.elems[..start] else target.elems))
    requires AllNeeded(first, path, source, target)
    ensures Patches(result, path, source, target) && AllNeeded(result, path, source, target)
  {
    var i, t := start, target.elems;
    result := first;
    while i < |t|
      invariant start <= i
      invariant i <= |t| || i == start
      invariant Patches(result, path, source, Arr(if i <= |t| then t[..i] else t))
      invariant AllNeeded(result, path, source, target)
    {
      StepAppend(path, result, source, t, i);
      NeededElement(source, target, i);
      NeededOne(result, path, "-", Add(t[i]), source, target);
      result, i := result + [PatchOp(path + ["-"], Add(t[i]))], i + 1;
    }
    assert t[..|t|] == t;
  }

  // The library visits keys in the order of its object type; any order will do.
  method DiffObjects(source: Json, target: Json, path: Pointer) returns (result: seq<PatchOp>)
    requires source.Obj? && target.Obj?
    ensures Patches(result, path, source, target) && AllNeeded(result, path, source, target)
    decreases source, 1
  {
    var s, t := source.members, target.members;
    result := DiffSourceKeys(source, target, path);
    assert HalfWay(s, t, {}) == NotYetAdded(s, t, t.Keys);
    var todo := t.Keys;
    while todo != {}
      invariant todo <= t.Keys
      invariant Patches(result, path, source, Obj(NotYetAdded(s, t, todo)))
      invariant AllNeeded(result, path, source, target)
    {
      var k :| k in todo;
      ghost var m := NotYetAdded(s, t, todo);
      if k !in s {
        StepAddKey(path, result, source, m, k, t[k]);
        NeededMember(source, target, k);
        NeededOne(result, path, k, Add(t[k]), source, target);
        result := result + [PatchOp(path + [k], Add(t[k]))];
        assert m[k := t[k]] == NotYetAdded(s, t, todo - {k});
      } else {
        assert m == NotYetAdded(s, t, todo - {k});
      }
      todo := todo - {k};
    }
    assert NotYetAdded(s, t, {}) == t;
  }

  // First pass over objects: the keys of the source.
  method DiffSourceKeys(source: Json, target: Json, path: Pointer) returns (result: seq<PatchOp>)
    requires source.Obj? && target.Obj?
    ensures Patches(result, path, source, Obj(HalfWay(source.members, target.members, {})))
    ensures AllNeeded(result, path, source, target)
    decreases source, 0
  {
    var s, t := source.members, target.members;
    result := [];
    EmptyPatch(path, source);
    var todo := s.Keys;
    assert HalfWay(s, t, todo) == s;
    while todo != {}
      invariant todo <= s.Keys
      invariant Patches(result, path, source, Obj(HalfWay(s, t, todo)))
      invariant AllNeeded(result, path, source, target)
    {
      var k :| k in todo;
      ghost var m := HalfWay(s, t, todo);
      if k in t {
        var temp := Diff(s[k], t[k], path + [k]);
        StepMember(path, result, source, m, k, temp, t[k]);
        NeededChild(result, temp, path, k, source, target);
        result := result + temp;
        assert m[k := t[k]] == HalfWay(s, t, todo - {k});
      } else {
        StepRemoveKey(path, result, source, m, k);
        NeededMember(source, target, k);
        NeededOne(result, path, k, Remove, source, target);
        result := result + [PatchOp(path + [k], Remove)];
        assert m - {k} == HalfWay(s, t, todo - {k});
      }
      todo := todo - {k};
    }
  }
}
