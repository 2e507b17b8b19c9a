/** Byte strings, and the concatenation of a list of them. */
module Bytes {
  type byte = x: int | 0 <= x < 256

  const NUL: byte := 0

  function Flatten<T>(parts: seq<seq<T>>): seq<T> {
    if parts == [] then [] else parts[0] + Flatten(parts[1..])
  }

  lemma {:induction false} FlattenAppend<T>(a: seq<seq<T>>, b: seq<seq<T>>)
    ensures Flatten(a + b) == Flatten(a) + Flatten(b)
  {
    if a == [] {
      assert a + b == b;
    } else {
      assert (a + b)[1..] == a[1..] + b;
      FlattenAppend(a[1..], b);
    }
  }

  lemma FlattenLast<T>(parts: seq<seq<T>>)
    requires parts != []
    ensures Flatten(parts) == Flatten(parts[..|parts| - 1]) + parts[|parts| - 1]
  {
    var front, last := parts[..|parts| - 1], parts[|parts| - 1];
    assert parts == front + [last];
    FlattenAppend(front, [last]);
    assert [last][1..] == [] && last + [] == last;
  }

  // Appending to the last part appends to the whole.
  lemma {:induction false} FlattenGrowLast<T>(parts: seq<seq<T>>, x: T)
    requires parts != []
    ensures Flatten(parts[|parts| - 1 := parts[|parts| - 1] + [x]]) == Flatten(parts) + [x]
  {
    var n := |parts| - 1;
    var front, last := parts[..n], parts[n];
    assert parts == front + [last];
    assert parts[n := last + [x]] == front + [last + [x]];
    FlattenAppend(front, [last]);
    FlattenAppend(front, [last + [x]]);
    assert [last][1..] == [] && [last + [x]][1..] == [];
  }

  // All but the i-th item.
  function Without<T>(xs: seq<T>, i: nat): seq<T>
    requires i < |xs|
  {
    xs[..i] + xs[i + 1..]
  }

  lemma WithoutCounts<T>(xs: seq<T>, i: nat)
    requires i < |xs|
    ensures multiset(Without(xs, i)) == multiset(xs) - multiset{xs[i]}
  {
    assert xs == xs[..i] + [xs[i]] + xs[i + 1..];
    assert multiset(xs) == multiset(Without(xs, i)) + multiset{xs[i]};
  }

  // Position of the first NUL, or the length when there is none.
  function FindNul(s: seq<byte>): (r: nat)
    ensures r <= |s|
    ensures r < |s| ==> s[r] == NUL
    ensures forall j :: 0 <= j < r ==> s[j] != NUL
  {
    if s == [] || s[0] == NUL then 0 else 1 + FindNul(s[1..])
  }

  lemma FindNulIs(s: seq<byte>, i: nat)
    requires i < |s| && s[i] == NUL
    requires forall j :: 0 <= j < i ==> s[j] != NUL
    ensures FindNul(s) == i
  {
  }

  predicate NoNul(s: seq<byte>) {
    forall j :: 0 <= j < |s| ==> s[j] != NUL
  }
}
