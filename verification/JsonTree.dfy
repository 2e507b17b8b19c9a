/**
 JSON values and the navigation that JSON Pointer performs on them. A pointer is
 the list of its reference tokens; a token addresses an array element when it is
 the canonical decimal form of an index.
 */
module JsonTree {
  import opened Wrappers
  import opened Numerals

  // Signed and unsigned integers compare equal in the library and are one constructor here.
  datatype Json =
    | Null
    | Bool(b: bool)
    | Num(n: int)
    | Str(s: string)
    | Arr(elems: seq<Json>)
    | Obj(members: map<string, Json>)

  type Pointer = seq<string>

  predicate SameType(a: Json, b: Json) {
    match a
    case Null => b.Null?
    case Bool(_) => b.Bool?
    case Num(_) => b.Num?
    case Str(_) => b.Str?
    case Arr(_) => b.Arr?
    case Obj(_) => b.Obj?
  }

  // ----- array indices as reference tokens -----

  // Section 4 of RFC 6901: digits without a leading zero, or the single digit zero.
  function ParseIndex(token: string): Option<nat> {
    if token == [] || (exists c :: c in token && !IsDigit(c)) then None
    else if token[0] == '0' && |token| > 1 then None
    else Some(DecimalValue(token))
  }

  lemma IndexRoundTrip(n: nat)
    ensures ParseIndex(Decimal(n)) == Some(n)
  {
    DecimalRoundTrip(n);
  }

  // A token addresses the element n exactly when it is the numeral of n.
  lemma IndexExactly(token: string, n: nat)
    ensures ParseIndex(token) == Some(n) <==> token == Decimal(n)
  {
    IndexRoundTrip(n);
    if ParseIndex(token).Some? {
      CanonicalDecimal(token);
    }
  }

  // ----- navigation -----

  function Child(j: Json, token: string): Option<Json> {
    match j
    case Obj(m) => if token in m then Some(m[token]) else None
    case Arr(es) =>
      (match ParseIndex(token)
       case Some(i) => if i < |es| then Some(es[i]) else None
       case None => None)
    case _ => None
  }

  function SetChild(j: Json, token: string, v: Json): (r: Json)
    requires Child(j, token).Some?
    ensures Child(r, token) == Some(v)
  {
    match j
    case Obj(m) => Obj(m[token := v])
    case Arr(es) => Arr(es[ParseIndex(token).value := v])
  }

  function At(j: Json, p: Pointer): Option<Json> {
    if p == [] then Some(j)
    else match Child(j, p[0])
      case None => None
      case Some(c) => At(c, p[1..])
  }

  // Assignment through the reference that at() returns.
  function PutAt(j: Json, p: Pointer, v: Json): Json
    requires At(j, p).Some?
  {
    if p == [] then v
    else SetChild(j, p[0], PutAt(Child(j, p[0]).value, p[1..], v))
  }

  lemma {:induction false} AtUnder(j: Json, token: string, q: Pointer)
    requires Child(j, token).Some?
    ensures At(j, [token] + q) == At(Child(j, token).value, q)
    ensures forall v :: At(j, [token] + q).Some? ==>
                          PutAt(j, [token] + q, v) == SetChild(j, token, PutAt(Child(j, token).value, q, v))
  {
  }

  // Navigating, and assigning at, a concatenated pointer is doing so along its parts.
  lemma {:induction false} AtConcatenated(j: Json, p: Pointer, q: Pointer)
    requires At(j, p).Some?
    ensures At(j, p + q) == At(At(j, p).value, q)
    ensures At(j, p + q).Some? ==>
              forall v :: PutAt(j, p + q, v) == PutAt(j, p, PutAt(At(j, p).value, q, v))
  {
    if p == [] {
      assert p + q == q;
    } else {
      assert (p + q)[1..] == p[1..] + q;
      AtConcatenated(Child(j, p[0]).value, p[1..], q);
    }
  }
}
