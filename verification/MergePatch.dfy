/** merge_patch against the recursive definition of section 2 of RFC 7396. */
module MergePatch {
  import opened JsonTree

  // A missing member and a null member of the target are merged into alike.
  function MemberOrNull(j: Json, k: string): Json {
    if j.Obj? && k in j.members then j.members[k] else Null
  }

  function MembersOf(j: Json): map<string, Json> {
    if j.Obj? then j.members else map[]
  }

  // The pseudocode of section 2, as one comprehension over the resulting names.
  function Merged(target: Json, patch: Json): Json
    decreases patch
  {
    if !patch.Obj? then patch
    else
      var kept := MembersOf(target);
      Obj(map k | k in kept.Keys + patch.members.Keys && !(k in patch.members && patch.members[k].Null?) ::
            if k in patch.members then Merged(MemberOrNull(target, k), patch.members[k]) else kept[k])
  }

  // Members outside todo have been merged; the others are still the target's.
  ghost function PartlyMerged(target: Json, patch: Json, todo: set<string>): map<string, Json>
    requires patch.Obj?
  {
    var kept, p := MembersOf(target), patch.members;
    map k | k in kept.Keys + p.Keys && (if k in p && k !in todo then !p[k].Null? else k in kept) ::
      if k in p && k !in todo then Merged(MemberOrNull(target, k), p[k]) else kept[k]
  }

  lemma MergeStep(target: Json, patch: Json, todo: set<string>, k: string)
    requires patch.Obj? && todo <= patch.members.Keys && k in todo
    ensures var before := PartlyMerged(target, patch, todo);
            && MemberOrNull(Obj(before), k) == MemberOrNull(target, k)
            && PartlyMerged(target, patch, todo - {k})
               == if patch.members[k].Null? then before - {k}
                  else before[k := Merged(MemberOrNull(target, k), patch.members[k])]
  {
  }

  lemma MergeBounds(target: Json, patch: Json)
    requires patch.Obj?
    ensures PartlyMerged(target, patch, patch.members.Keys) == MembersOf(target)
    ensures Merged(target, patch) == Obj(PartlyMerged(target, patch, {}))
  {
  }

  // Members are visited in any order; each is erased, or created when missing and merged.
  method MergeInto(target: Json, patch: Json) returns (result: Json)
    ensures result == Merged(target, patch)
    decreases patch
  {
    if !patch.Obj? {
      return patch;
    }
    var p := patch.members;
    var members := if target.Obj? then target.members else map[];
    var todo := p.Keys;
    MergeBounds(target, patch);
    while todo != {}
      invariant todo <= p.Keys
      invariant members == PartlyMerged(target, patch, todo)
    {
      var k :| k in todo;
      MergeStep(target, patch, todo, k);
      todo := todo - {k};
      if p[k].Null? {
        members := members - {k};
      } else {
        var child := if k in members then members[k] else Null;
        child := MergeInto(child, p[k]);
        members := members[k := child];
      }
    }
    result := Obj(members);
  }

  // Applying a merge patch a second time changes nothing.
  lemma {:induction false} MergeIdempotent(target: Json, patch: Json)
    ensures Merged(Merged(target, patch), patch) == Merged(target, patch)
    decreases patch
  {
    if patch.Obj? {
      forall k | k in patch.members {
        MergeIdempotent(MemberOrNull(target, k), patch.members[k]);
      }
      assert Merged(Merged(target, patch), patch).members == Merged(target, patch).members;
    }
  }

  // Neither the value nor an object reached from it through objects alone has a null
  // member; objects inside arrays may have some.
  predicate NullFree(j: Json) {
    j.Obj? ==> forall k :: k in j.members ==> !j.members[k].Null? && NullFree(j.members[k])
  }

  // A value is its own merge patch over a non-object exactly when it is null-free in
  // that sense.
  lemma {:induction false} MergeReproduces(target: Json, patch: Json)
    requires !target.Obj?
    ensures Merged(target, patch) == patch <==> NullFree(patch)
    decreases patch
  {
    if patch.Obj? {
      var r := Merged(target, patch).members;
      forall k | k in patch.members ensures patch.members[k].Null? <==> k !in r {}
      forall k | k in patch.members && !patch.members[k].Null?
        ensures k in r && (r[k] == patch.members[k] <==> NullFree(patch.members[k]))
      {
        MergeReproduces(Null, patch.members[k]);
      }
      if NullFree(patch) {
        assert r == patch.members;
      } else {
        var k :| k in patch.members && (patch.members[k].Null? || !NullFree(patch.members[k]));
        assert k !in r || r[k] != patch.members[k];
      }
    }
  }
}
