/** What a merge does to each place of the target, and that nothing else does the same. */
module MergeMeaning {
  import opened Wrappers
  import opened JsonTree
  import opened MergePatch

  // Every proper prefix of the path leads to an object.
  predicate Guided(j: Json, path: Pointer) {
    path == [] || (j.Obj? && (|path| == 1 || (path[0] in j.members && Guided(j.members[path[0]], path[1..]))))
  }

  // What must be found at a path along which the patch has objects: the target's own
  // value where the patch names nothing, nothing where it says null, an object where
  // it has one, and otherwise exactly what it says.
  predicate RightAt(r: Json, target: Json, patch: Json, path: Pointer) {
    match At(patch, path)
    case None => At(r, path) == if Guided(target, path) then At(target, path) else None
    case Some(Null) => At(r, path) == None
    case Some(Obj(_)) => At(r, path).Some? && At(r, path).value.Obj?
    case Some(x) => At(r, path) == Some(x)
  }

  ghost predicate MergesTo(target: Json, patch: Json, r: Json) {
    if patch.Obj? then r.Obj? && forall path :: path != [] && Guided(patch, path) ==> RightAt(r, target, patch, path)
    else r == patch
  }

  lemma {:induction false} MergedIsRight(target: Json, patch: Json, path: Pointer)
    requires path != [] && Guided(patch, path)
    ensures RightAt(Merged(target, patch), target, patch, path)
    decreases |path|
  {
    var k, rest := path[0], path[1..];
    if rest == [] {
      assert forall j :: At(j, path) == Child(j, k);
    } else {
      MergedIsRight(MemberOrNull(target, k), patch.members[k], rest);
      assert Merged(target, patch).members[k] == Merged(MemberOrNull(target, k), patch.members[k]);
    }
  }

  // The places below one member of the result.
  lemma BelowMember(target: Json, patch: Json, r: Json, k: string)
    requires MergesTo(target, patch, r) && patch.Obj? && k in patch.members && patch.members[k].Obj?
    ensures k in r.members && MergesTo(MemberOrNull(target, k), patch.members[k], r.members[k])
  {
    OneToken(target, patch, r, k);
    forall rest | rest != [] && Guided(patch.members[k], rest)
      ensures RightAt(r.members[k], MemberOrNull(target, k), patch.members[k], rest)
    {
      var path := [k] + rest;
      assert path[0] == k && path[1..] == rest;
      assert RightAt(r, target, patch, path);
    }
  }

  lemma OneToken(target: Json, patch: Json, r: Json, k: string)
    requires MergesTo(target, patch, r) && patch.Obj?
    ensures RightAt(r, target, patch, [k])
    ensures forall j: Json :: At(j, [k]) == Child(j, k)
  {
    assert Guided(patch, [k]) && [k][1..] == [];
  }

  lemma PlainMember(target: Json, patch: Json, r: Json, k: string)
    requires MergesTo(target, patch, r) && patch.Obj? && !(k in patch.members && patch.members[k].Obj?)
    ensures Child(r, k) == Child(Merged(target, patch), k)
  {
    OneToken(target, patch, r, k);
    assert At(r, [k]) == Child(r, k) && At(target, [k]) == Child(target, k) && At(patch, [k]) == Child(patch, k);
    if k in patch.members {
      var x := patch.members[k];
      if !x.Null? {
        assert Merged(MemberOrNull(target, k), x) == x;
      }
    }
  }

  // The conditions hold of the merge and of nothing else.
  lemma {:induction false} MergedExactly(target: Json, patch: Json, r: Json)
    ensures MergesTo(target, patch, r) <==> r == Merged(target, patch)
    decreases patch
  {
    forall path | patch.Obj? && path != [] && Guided(patch, path)
      ensures RightAt(Merged(target, patch), target, patch, path)
    {
      MergedIsRight(target, patch, path);
    }
    if MergesTo(target, patch, r) && patch.Obj? {
      var merged := Merged(target, patch);
      forall k ensures k in r.members <==> k in merged.members
               ensures k in r.members && k in merged.members ==> r.members[k] == merged.members[k]
      {
        if k in patch.members && patch.members[k].Obj? {
          BelowMember(target, patch, r, k);
          MergedExactly(MemberOrNull(target, k), patch.members[k], r.members[k]);
        } else {
          PlainMember(target, patch, r, k);
        }
      }
      assert r.members == merged.members;
    }
  }
}
