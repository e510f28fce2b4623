/** PHP's conversion of integers to decimal strings, and the facts that make
    the signature strings built from them unambiguous. */
module Decimal {
  function DigitChar(d: nat): (c: char)
    requires d < 10
    ensures IsDigit(c)
  {
    (('0' as int) + d) as char
  }

  predicate IsDigit(c: char) {
    '0' <= c <= '9'
  }

  /** The decimal digits of `n`, most significant first, without leading zeros. */
  function NatToString(n: nat): string
    decreases n
  {
    if n < 10 then [DigitChar(n)] else NatToString(n / 10) + [DigitChar(n % 10)]
  }

  /** `(string) $n` for a PHP integer. */
  function IntToString(n: int): string {
    if n < 0 then "-" + NatToString(-n) else NatToString(n)
  }

  /** A field of a PHP signature written `($v ?: '-')`: zero prints as a dash. */
  function FieldText(v: int): string {
    if v == 0 then "-" else IntToString(v)
  }

  /** Characters that can occur inside a rendered field. */
  predicate FieldChar(c: char) {
    IsDigit(c) || c == '-'
  }

  lemma {:induction false} NatToStringShape(n: nat)
    ensures |NatToString(n)| >= 1
    ensures n < 10 <==> |NatToString(n)| == 1
    ensures forall i :: 0 <= i < |NatToString(n)| ==> IsDigit(NatToString(n)[i])
    decreases n
  {
    if n >= 10 {
      NatToStringShape(n / 10);
    }
  }

  lemma {:induction false} NatToStringInjective(a: nat, b: nat)
    requires NatToString(a) == NatToString(b)
    ensures a == b
    decreases a
  {
    NatToStringShape(a);
    NatToStringShape(b);
    if a >= 10 && b >= 10 {
      var sa, sb := NatToString(a), NatToString(b);
      assert sa[..|sa| - 1] == NatToString(a / 10);
      assert sb[..|sb| - 1] == NatToString(b / 10);
      assert sa[|sa| - 1] == DigitChar(a % 10);
      assert sb[|sb| - 1] == DigitChar(b % 10);
      NatToStringInjective(a / 10, b / 10);
    }
  }

  lemma IntToStringShape(n: int)
    ensures |IntToString(n)| >= 1
    ensures forall i :: 0 <= i < |IntToString(n)| ==> FieldChar(IntToString(n)[i])
    ensures n >= 0 ==> IsDigit(IntToString(n)[0])
    ensures n < 0 ==> IntToString(n)[0] == '-' && |IntToString(n)| >= 2
  {
    if n < 0 {
      NatToStringShape(-n);
    } else {
      NatToStringShape(n);
    }
  }

  lemma IntToStringInjective(a: int, b: int)
    requires IntToString(a) == IntToString(b)
    ensures a == b
  {
    IntToStringShape(a);
    IntToStringShape(b);
    if a < 0 && b < 0 {
      assert IntToString(a)[1..] == NatToString(-a);
      assert IntToString(b)[1..] == NatToString(-b);
      NatToStringInjective(-a, -b);
    } else if a >= 0 && b >= 0 {
      NatToStringInjective(a, b);
    }
  }

  /** Every character of a rendered field is a digit or a dash. */
  lemma FieldTextChars(v: int)
    ensures |FieldText(v)| >= 1
    ensures forall i :: 0 <= i < |FieldText(v)| ==> FieldChar(FieldText(v)[i])
  {
    IntToStringShape(v);
  }

  /** The rendering `($v ?: '-')` of an integer field loses nothing: distinct
      integers print differently (the dash stands only for zero). */
  lemma FieldTextInjective(a: int, b: int)
    ensures FieldText(a) == FieldText(b) <==> a == b
  {
    if FieldText(a) == FieldText(b) {
      IntToStringShape(a);
      IntToStringShape(b);
      if a != 0 && b != 0 {
        IntToStringInjective(a, b);
      }
    }
  }

  /** A marker character that occurs in neither head splits two equal strings
      at the same place. */
  lemma SplitAtMarker(a: string, b: string, a': string, b': string, c: char)
    requires forall i :: 0 <= i < |a| ==> a[i] != c
    requires forall i :: 0 <= i < |a'| ==> a'[i] != c
    requires a + [c] + b == a' + [c] + b'
    ensures a == a' && b == b'
  {
    var s := a + [c] + b;
    assert forall i :: 0 <= i < |a| ==> s[i] == a[i];
    assert forall i :: 0 <= i < |a'| ==> s[i] == a'[i];
    assert s[|a|] == c && s[|a'|] == c;
    assert |a| == |a'|;
    assert a == s[..|a|];
    assert a' == s[..|a'|];
    assert b == s[|a| + 1..];
    assert b' == s[|a'| + 1..];
  }
}
