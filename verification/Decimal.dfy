/** Decimal rendering of integers, as Rust's `to_string` and Python's f-strings write them. */
module Decimal {

  function DigitChar(d: nat): (c: char)
    requires d < 10
    ensures '0' <= c <= '9' && c as int - '0' as int == d
  {
    (d + '0' as int) as char
  }

  ghost predicate AllDigits(s: string) {
    forall i :: 0 <= i < |s| ==> '0' <= s[i] <= '9'
  }

  function OfNat(n: nat): (s: string)
    ensures |s| >= 1 && AllDigits(s)
    ensures |s| > 1 ==> s[0] != '0'
  {
    if n < 10 then [DigitChar(n)] else OfNat(n / 10) + [DigitChar(n % 10)]
  }

  /** The value of a digit string, most significant digit first. */
  function ToNat(s: string): nat
    requires AllDigits(s)
  {
    if s == [] then 0
    else ToNat(s[..|s| - 1]) * 10 + (s[|s| - 1] as int - '0' as int)
  }

  lemma {:induction false} RoundTrip(n: nat)
    ensures ToNat(OfNat(n)) == n
  {
    if n >= 10 {
      RoundTrip(n / 10);
      assert OfNat(n)[..|OfNat(n)| - 1] == OfNat(n / 10);
    } else {
      assert OfNat(n)[..0] == [];
    }
  }

  /** A digit string without a leading zero is the rendering of its value. */
  lemma {:induction false} Canonical(s: string)
    requires AllDigits(s) && |s| >= 1
    requires |s| > 1 ==> s[0] != '0'
    ensures OfNat(ToNat(s)) == s
    ensures |s| > 1 ==> ToNat(s) >= 10
  {
    if |s| == 1 {
      assert s[..0] == [];
      assert ToNat(s) == s[0] as int - '0' as int;
    } else {
      var front := s[..|s| - 1];
      Canonical(front);
      if |front| == 1 {
        assert front[..0] == [];
      }
      assert ToNat(front) >= 1;
      assert ToNat(s) / 10 == ToNat(front);
      assert s == front + [s[|s| - 1]];
    }
  }

  lemma Injective(m: nat, n: nat)
    requires OfNat(m) == OfNat(n)
    ensures m == n
  {
    RoundTrip(m);
    RoundTrip(n);
  }
}
