/**
  Decimal rendering of integers, as `std::to_string(int)` produces it: an
  optional leading '-' followed by the digits of the magnitude, without
  leading zeros. `ParseInt` is its inverse and the lemmas below show that the
  two are mutually inverse, so the rendering loses no information.
 */
module Decimal {
  import opened Wrappers

  predicate IsDigit(c: char) {
    '0' <= c <= '9'
  }

  predicate AllDigits(s: string) {
    forall i :: 0 <= i < |s| ==> IsDigit(s[i])
  }

  /** Canonical decimal text of a natural number: digits only, no leading zero. */
  predicate IsNatText(s: string) {
    |s| > 0 && AllDigits(s) && (s[0] == '0' ==> |s| == 1)
  }

  function DigitValue(c: char): (d: nat)
    requires IsDigit(c)
    ensures d < 10
  {
    c as int - '0' as int
  }

  function DigitChar(d: nat): (c: char)
    requires d < 10
    ensures IsDigit(c) && DigitValue(c) == d
  {
    ('0' as int + d) as char
  }

  /** The decimal digits of `n`, most significant first. */
  function NatToText(n: nat): (s: string)
    ensures IsNatText(s)
    ensures s[0] == '0' <==> n == 0
  {
    if n < 10 then [DigitChar(n)] else NatToText(n / 10) + [DigitChar(n % 10)]
  }

  /** The value of a string of decimal digits (the empty string is 0). */
  function TextToNat(s: string): nat
    requires AllDigits(s)
  {
    if s == [] then 0 else 10 * TextToNat(s[..|s| - 1]) + DigitValue(s[|s| - 1])
  }

  lemma {:induction false} NatTextRoundTrip(n: nat)
    ensures TextToNat(NatToText(n)) == n
  {
    if n >= 10 {
      var s := NatToText(n);
      assert s[..|s| - 1] == NatToText(n / 10);
      NatTextRoundTrip(n / 10);
    }
  }

  lemma {:induction false} TextNatRoundTrip(s: string)
    requires IsNatText(s)
    ensures NatToText(TextToNat(s)) == s
    decreases |s|
  {
    var p, c := s[..|s| - 1], s[|s| - 1];
    assert s == p + [c];
    if p == [] {
      assert DigitChar(DigitValue(c)) == c;
    } else {
      assert p[0] == s[0];
      TextNatRoundTrip(p);
      var v := TextToNat(p);
      assert v != 0;
      var n := 10 * v + DigitValue(c);
      assert n / 10 == v && n % 10 == DigitValue(c);
      assert DigitChar(DigitValue(c)) == c;
    }
  }

  /** `std::to_string(i)` for an `int` argument. */
  function IntToText(i: int): (s: string)
    ensures |s| > 0
    ensures forall k :: 0 <= k < |s| ==> IsDigit(s[k]) || (k == 0 && s[k] == '-')
    ensures s[0] == '-' <==> i < 0
  {
    if i < 0 then "-" + NatToText(-i) else NatToText(i)
  }

  /** Reads back exactly the texts `IntToText` produces; anything else is `None`. */
  function ParseInt(s: string): Option<int> {
    if |s| > 1 && s[0] == '-' && IsNatText(s[1..]) && s[1] != '0' then Some(-(TextToNat(s[1..]) as int))
    else if IsNatText(s) then Some(TextToNat(s))
    else None
  }

  lemma IntTextRoundTrip(i: int)
    ensures ParseInt(IntToText(i)) == Some(i)
  {
    var s := IntToText(i);
    if i < 0 {
      assert s[1..] == NatToText(-i);
      NatTextRoundTrip(-i);
    } else {
      NatTextRoundTrip(i);
    }
  }

  lemma TextIntRoundTrip(s: string, i: int)
    requires ParseInt(s) == Some(i)
    ensures IntToText(i) == s
  {
    if |s| > 1 && s[0] == '-' && IsNatText(s[1..]) && s[1] != '0' {
      TextNatRoundTrip(s[1..]);
      assert s == "-" + s[1..];
    } else {
      TextNatRoundTrip(s);
    }
  }
}
