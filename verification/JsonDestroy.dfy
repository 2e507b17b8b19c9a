/** json_value::destroy: releasing a tree with an explicit stack instead of recursion. */
module JsonDestroy {
  import opened JsonTree

  // The value and everything below it, one occurrence per tree position.
  ghost function Nodes(j: Json): multiset<Json>
    decreases j, 2
  {
    multiset{j} + Below(j)
  }

  ghost function Below(j: Json): multiset<Json>
    decreases j, 1
  {
    match j
    case Arr(es) => NodesOf(es)
    case Obj(m) => NodesAt(j, m.Keys)
    case _ => multiset{}
  }

  ghost function NodesOf(js: seq<Json>): multiset<Json>
    decreases js
  {
    if js == [] then multiset{} else Nodes(js[|js| - 1]) + NodesOf(js[..|js| - 1])
  }

  ghost function NodesAt(j: Json, keys: set<string>): multiset<Json>
    requires j.Obj? && keys <= j.members.Keys
    decreases j, 0, keys
  {
    if keys == {} then multiset{}
    else
      var k :| k in keys;
      Nodes(j.members[k]) + NodesAt(j, keys - {k})
  }

  // The member visited first does not matter.
  lemma {:induction false} NodesAtAny(j: Json, keys: set<string>, k: string)
    requires j.Obj? && keys <= j.members.Keys && k in keys
    ensures NodesAt(j, keys) == Nodes(j.members[k]) + NodesAt(j, keys - {k})
    decreases keys
  {
    var c :| c in keys && NodesAt(j, keys) == Nodes(j.members[c]) + NodesAt(j, keys - {c});
    if c != k {
      NodesAtAny(j, keys - {c}, k);
      NodesAtAny(j, keys - {k}, c);
      assert keys - {c} - {k} == keys - {k} - {c};
    }
  }

  lemma NodesOfPush(a: seq<Json>, x: Json)
    ensures NodesOf(a + [x]) == NodesOf(a) + Nodes(x)
  {
  }

  lemma {:induction false} NodesOfAppend(a: seq<Json>, b: seq<Json>)
    ensures NodesOf(a + b) == NodesOf(a) + NodesOf(b)
  {
    if b == [] {
      assert a + b == a;
    } else {
      var front, x := b[..|b| - 1], b[|b| - 1];
      assert b == front + [x] && a + b == (a + front) + [x];
      NodesOfAppend(a, front);
      NodesOfPush(a + front, x);
      NodesOfPush(front, x);
    }
  }

  predicate Childless(j: Json) {
    (j.Arr? ==> j.elems == []) && (j.Obj? ==> j.members == map[])
  }

  // The same container with every child moved out: a moved-from child is null.
  predicate Hollow(left: Json, j: Json) {
    match j
    case Arr(es) => left.Arr? && |left.elems| == |es| && forall i :: 0 <= i < |es| ==> left.elems[i].Null?
    case Obj(m) => left.Obj? && left.members.Keys == m.Keys && forall k :: k in m ==> left.members[k].Null?
    case _ => left == j
  }

  // Moves the children of a container behind the stack.
  method PushChildren(stack: seq<Json>, j: Json) returns (r: seq<Json>, left: Json)
    ensures NodesOf(r) == NodesOf(stack) + Below(j)
    ensures Hollow(left, j)
  {
    if j.Arr? {
      var nulls;
      r, nulls := MoveElements(stack, j.elems);
      left := Arr(nulls);
      NodesOfAppend(stack, j.elems);
    } else if j.Obj? {
      r, left := PushMembers(stack, j);
    } else {
      r, left := stack, j;
      assert Below(j) == multiset{};
    }
  }

  method MoveElements(stack: seq<Json>, es: seq<Json>) returns (r: seq<Json>, left: seq<Json>)
    ensures r == stack + es
    ensures |left| == |es| && forall k :: 0 <= k < |es| ==> left[k].Null?
  {
    r, left := stack, es;
    var i := 0;
    while i < |es|
      invariant 0 <= i <= |es| && r == stack + es[..i] && |left| == |es|
      invariant forall k :: 0 <= k < |es| ==> left[k] == if k < i then Null else es[k]
    {
      r, left, i := r + [left[i]], left[i := Null], i + 1;
    }
  }

  // The library visits the members in key order; any order will do.
  method PushMembers(stack: seq<Json>, j: Json) returns (r: seq<Json>, left: Json)
    requires j.Obj?
    ensures NodesOf(r) == NodesOf(stack) + Below(j)
    ensures Hollow(left, j)
  {
    r, left := stack, j;
    var todo := j.members.Keys;
    while todo != {}
      invariant todo <= j.members.Keys
      invariant NodesOf(r) + NodesAt(j, todo) == NodesOf(stack) + Below(j)
      invariant left == Obj(MovedOut(j.members, todo))
    {
      var k :| k in todo;
      MoveMember(r, j, todo, k);
      MovedOneMore(j.members, todo, k);
      r, left := r + [left.members[k]], Obj(left.members[k := Null]);
      todo := todo - {k};
    }
  }

  // The members outside todo have been moved out.
  ghost function MovedOut(m: map<string, Json>, todo: set<string>): map<string, Json> {
    map k | k in m :: if k in todo then m[k] else Null
  }

  lemma MovedOneMore(m: map<string, Json>, todo: set<string>, k: string)
    requires k in m && k in todo
    ensures MovedOut(m, todo)[k := Null] == MovedOut(m, todo - {k})
  {
  }

  lemma MoveMember(r: seq<Json>, j: Json, todo: set<string>, k: string)
    requires j.Obj? && todo <= j.members.Keys && k in todo
    ensures NodesOf(r + [j.members[k]]) + NodesAt(j, todo - {k}) == NodesOf(r) + NodesAt(j, todo)
  {
    NodesAtAny(j, todo, k);
    NodesOfPush(r, j.members[k]);
    Regroup(NodesOf(r), Nodes(j.members[k]), NodesAt(j, todo - {k}));
  }

  lemma Regroup(a: multiset<Json>, b: multiset<Json>, c: multiset<Json>)
    ensures (a + b) + c == a + (b + c)
  {
  }

  // One turn of the loop: the top of the stack is popped, its children are moved
  // to the stack, and what is left of it is cleared.
  method FlattenTop(stack: seq<Json>) returns (current: Json, r: seq<Json>, hollow: Json, item: Json)
    requires stack != []
    ensures current == stack[|stack| - 1] && NodesOf(stack) == multiset{current} + NodesOf(r)
    ensures Hollow(hollow, current) && Childless(item) && SameType(item, current)
  {
    current := stack[|stack| - 1];
    r, hollow := PushChildren(stack[..|stack| - 1], current);
    item := hollow;
    if item.Arr? {
      item := Arr([]);
    } else if item.Obj? {
      item := Obj(map[]);
    }
  }

  // clear() found nothing but nulls in what was visited, and left no children to its destructor.
  predicate Emptied(cleared: seq<Json>, freed: seq<Json>, visited: seq<Json>) {
    && |cleared| == |freed| == |visited|
    && forall i :: 0 <= i < |visited| ==>
         Hollow(cleared[i], visited[i]) && Childless(freed[i]) && SameType(freed[i], visited[i])
  }

  lemma EmptiedNext(cleared: seq<Json>, freed: seq<Json>, visited: seq<Json>, hollow: Json, item: Json, current: Json)
    requires Emptied(cleared, freed, visited) && Hollow(hollow, current) && Childless(item) && SameType(item, current)
    ensures Emptied(cleared + [hollow], freed + [item], visited + [current])
  {
  }

  // visited lists the items popped from the stack, cleared and freed what each of
  // them was when its container was cleared and when its destructor ran; left is
  // what remains of the root.
  method Destroy(j: Json) returns (visited: seq<Json>, cleared: seq<Json>, freed: seq<Json>, left: Json)
    ensures multiset(visited) == Below(j)
    ensures Emptied(cleared, freed, visited) && Hollow(left, j)
  {
    var stack;
    visited, cleared, freed := [], [], [];
    stack, left := PushChildren([], j);
    while stack != []
      invariant multiset(visited) + NodesOf(stack) == Below(j)
      invariant Emptied(cleared, freed, visited)
      decreases |NodesOf(stack)|
    {
      var current, hollow, item;
      ghost var before := NodesOf(stack);
      current, stack, hollow, item := FlattenTop(stack);
      CountVisited(visited, current, NodesOf(stack), before);
      EmptiedNext(cleared, freed, visited, hollow, item, current);
      visited, cleared, freed := visited + [current], cleared + [hollow], freed + [item];
    }
  }

  lemma CountVisited(visited: seq<Json>, top: Json, after: multiset<Json>, before: multiset<Json>)
    requires before == multiset{top} + after
    ensures multiset(visited + [top]) + after == multiset(visited) + before && |after| < |before|
  {
  }
}
