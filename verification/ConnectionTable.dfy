/** The local connection table of ChatService: sixty-four bucket maps that act as one map. */
module ConnectionTable {
  import opened Wrappers

  const BUCKETS := 64

  // Negating the minimum int is undefined in the source; user ids stay above it.
  type UserId = x: int | -0x8000_0000 < x < 0x8000_0000

  function PickBucket(id: UserId): (b: nat)
    ensures b < BUCKETS
  {
    (if id >= 0 then id else -id) % BUCKETS
  }

  // Buckets go round with the absolute value of the id, and each is used.
  lemma BucketExactly(id: UserId)
    ensures 0 <= id < BUCKETS ==> PickBucket(id) == id
    ensures PickBucket(-id) == PickBucket(id)
    ensures 0 <= id && id + BUCKETS < 0x8000_0000 ==> PickBucket(id + BUCKETS) == PickBucket(id)
  {
  }

  // Every key lives in its own bucket.
  predicate Sharded<C>(buckets: seq<map<UserId, C>>) {
    |buckets| == BUCKETS &&
    forall b, id :: 0 <= b < BUCKETS && id in buckets[b] ==> PickBucket(id) == b
  }

  function Union<C>(buckets: seq<map<UserId, C>>): map<UserId, C> {
    if buckets == [] then map[] else Union(buckets[..|buckets| - 1]) + buckets[|buckets| - 1]
  }

  lemma {:induction false} InUnion<C>(buckets: seq<map<UserId, C>>, id: UserId)
    requires forall b :: 0 <= b < |buckets| && id in buckets[b] ==> PickBucket(id) == b
    ensures id in Union(buckets) <==> PickBucket(id) < |buckets| && id in buckets[PickBucket(id)]
    ensures id in Union(buckets) ==> Union(buckets)[id] == buckets[PickBucket(id)][id]
  {
    if buckets != [] {
      var n := |buckets| - 1;
      InUnion(buckets[..n], id);
    }
  }

  lemma UnionIs<C>(buckets: seq<map<UserId, C>>, t: map<UserId, C>)
    requires Sharded(buckets)
    requires forall id: UserId :: id in t <==> id in buckets[PickBucket(id)]
    requires forall id: UserId :: id in t ==> t[id] == buckets[PickBucket(id)][id]
    ensures Union(buckets) == t
  {
    forall id: UserId ensures id in Union(buckets) <==> id in t
                      ensures id in t ==> Union(buckets)[id] == t[id]
    {
      InUnion(buckets, id);
    }
  }

  // One bucket replaced by one that differs at a single key of its own.
  lemma UnionUpdate<C>(buckets: seq<map<UserId, C>>, id: UserId, bucket: map<UserId, C>)
    requires Sharded(buckets)
    requires forall k :: k != id ==> (k in bucket <==> k in buckets[PickBucket(id)])
    requires forall k :: k != id && k in bucket ==> bucket[k] == buckets[PickBucket(id)][k]
    ensures var after := buckets[PickBucket(id) := bucket];
            && Sharded(after)
            && Union(after) == if id in bucket then Union(buckets)[id := bucket[id]] else Union(buckets) - {id}
  {
    var after := buckets[PickBucket(id) := bucket];
    var t: map<UserId, C> := if id in bucket then Union(buckets)[id := bucket[id]] else Union(buckets) - {id};
    forall k: UserId ensures k in t <==> k in after[PickBucket(k)]
                     ensures k in t ==> t[k] == after[PickBucket(k)][k]
    {
      InUnion(buckets, k);
    }
    UnionIs(after, t);
  }

  class LocalConnections<C(==)> {
    var buckets: seq<map<UserId, C>>

    ghost predicate Valid()
      reads this
    {
      Sharded(buckets)
    }

    ghost function Table(): map<UserId, C>
      reads this
    {
      Union(buckets)
    }

    constructor ()
      ensures Valid() && Table() == map[]
    {
      buckets := seq(BUCKETS, _ => map[]);
      new;
      UnionIs(buckets, map[]);
    }

    method Add(id: UserId, conn: C)
      requires Valid()
      modifies this
      ensures Valid() && Table() == old(Table())[id := conn]
    {
      var b := PickBucket(id);
      var bucket: map<UserId, C> := buckets[b][id := conn];
      UnionUpdate(buckets, id, bucket);
      buckets := buckets[b := bucket];
    }

    method Remove(id: UserId)
      requires Valid()
      modifies this
      ensures Valid() && Table() == old(Table()) - {id}
    {
      var b := PickBucket(id);
      var bucket: map<UserId, C> := buckets[b] - {id};
      UnionUpdate(buckets, id, bucket);
      buckets := buckets[b := bucket];
    }

    method Get(id: UserId) returns (conn: Option<C>)
      requires Valid()
      ensures conn == if id in Table() then Some(Table()[id]) else None
    {
      InUnion(buckets, id);
      var bucket := buckets[PickBucket(id)];
      conn := if id in bucket then Some(bucket[id]) else None;
    }

    // Which entry of the connection is found first is up to the hash table.
    method RemoveByConn(conn: C) returns (id: int)
      requires Valid()
      modifies this
      ensures Valid()
      ensures conn !in old(Table()).Values ==> id == -1 && Table() == old(Table())
      ensures conn in old(Table()).Values ==>
                id in old(Table()) && old(Table())[id] == conn && Table() == old(Table()) - {id}
      ensures !(-1 in old(Table()) && old(Table())[-1] == conn) ==> (id == -1 <==> conn !in old(Table()).Values)
    {
      var i := 0;
      while i < |buckets|
        invariant 0 <= i <= |buckets|
        invariant buckets == old(buckets)
        invariant forall b, u :: 0 <= b < i && u in buckets[b] ==> buckets[b][u] != conn
      {
        var todo := buckets[i].Keys;
        while todo != {}
          invariant todo <= buckets[i].Keys
          invariant buckets == old(buckets)
          invariant forall u :: u in buckets[i] && u !in todo ==> buckets[i][u] != conn
        {
          var u :| u in todo;
          if buckets[i][u] == conn {
            InUnion(buckets, u);
            Remove(u);
            return u;
          }
          todo := todo - {u};
        }
        i := i + 1;
      }
      forall u | u in Table() ensures Table()[u] != conn {
        InUnion(buckets, u);
      }
      id := -1;
    }
  }
}
