/** Canonical decimal numerals, as std::to_string writes them. */
module Numerals {
  predicate IsDigit(c: char) {
    '0' <= c <= '9'
  }

  function Decimal(n: nat): (r: string)
    ensures r != [] && forall c :: c in r ==> IsDigit(c)
  {
    var last := ['0' + (n % 10) as char];
    if n < 10 then last else Decimal(n / 10) + last
  }

  function DigitValue(c: char): nat {
    if IsDigit(c) then c as int - '0' as int else 0
  }

  function DecimalValue(s: string): nat {
    if s == [] then 0
    else 10 * DecimalValue(s[..|s| - 1]) + DigitValue(s[|s| - 1])
  }

  lemma {:induction false} DecimalRoundTrip(n: nat)
    ensures DecimalValue(Decimal(n)) == n
    ensures n > 0 ==> Decimal(n)[0] != '0'
  {
    if n >= 10 {
      DecimalRoundTrip(n / 10);
      var s := Decimal(n);
      assert s[..|s| - 1] == Decimal(n / 10);
    } else {
      var s := Decimal(n);
      assert s[..0] == [];
      assert DecimalValue(s) == 10 * DecimalValue(s[..0]) + n;
    }
  }

  // Digits without a leading zero are the numeral of their value.
  lemma {:induction false} CanonicalDecimal(t: string)
    requires t != [] && (forall c :: c in t ==> IsDigit(c)) && (t[0] != '0' || |t| == 1)
    ensures Decimal(DecimalValue(t)) == t
    decreases |t|
  {
    var front, d := t[..|t| - 1], t[|t| - 1];
    assert d in t;
    assert DecimalValue(t) == 10 * DecimalValue(front) + DigitValue(d);
    if front == [] {
      assert DecimalValue(front) == 0;
      OneDigit(d);
      assert t == [d];
    } else {
      assert forall c :: c in front ==> c in t;
      assert front[0] == t[0];
      CanonicalDecimal(front);
      assert Decimal(DecimalValue(front))[0] != '0' && Decimal(0)[0] == '0';
      OneDigitMore(DecimalValue(front), d);
      assert t == front + [d];
    }
  }

  lemma OneDigit(d: char)
    requires IsDigit(d)
    ensures Decimal(DigitValue(d)) == [d]
  {
  }

  lemma OneDigitMore(n: nat, d: char)
    requires n > 0 && IsDigit(d)
    ensures Decimal(10 * n + DigitValue(d)) == Decimal(n) + [d]
  {
  }
}
