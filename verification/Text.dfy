/** Decimal printing (Go's %d) and the uniqueness of splits around a separator. */
module Text {

  function Decimal(n: nat): (s: string)
    ensures |s| > 0
    ensures forall i :: 0 <= i < |s| ==> '0' <= s[i] <= '9'
  {
    if n < 10 then [(48 + n) as char] else Decimal(n / 10) + [(48 + n % 10) as char]
  }

  /** Go's %d for a signed integer. */
  function PrintInt(n: int): string {
    if n < 0 then "-" + Decimal(-n) else Decimal(n)
  }

  /** The number a string of digits denotes. */
  function Parse(s: string): int {
    if s == "" then 0 else 10 * Parse(s[..|s| - 1]) + (s[|s| - 1] as int - 48)
  }

  lemma {:induction false} ParseInvertsDecimal(n: nat)
    ensures Parse(Decimal(n)) == n
  {
    var s := Decimal(n);
    if n < 10 {
      assert s[..0] == "";
    } else {
      ParseInvertsDecimal(n / 10);
      assert s[..|s| - 1] == Decimal(n / 10);
    }
  }

  lemma DecimalInjective(a: nat, b: nat)
    requires Decimal(a) == Decimal(b)
    ensures a == b
  {
    ParseInvertsDecimal(a);
    ParseInvertsDecimal(b);
  }

  lemma PrintIntInjective(a: int, b: int)
    requires PrintInt(a) == PrintInt(b)
    ensures a == b
  {
    assert a < 0 <==> PrintInt(a)[0] == '-';
    assert b < 0 <==> PrintInt(b)[0] == '-';
    if a < 0 {
      assert PrintInt(a)[1..] == Decimal(-a);
      assert PrintInt(b)[1..] == Decimal(-b);
      DecimalInjective(-a, -b);
    } else {
      DecimalInjective(a, b);
    }
  }

  /** Digits without a leading zero, after a minus sign for a number below zero, that read as the number. */
  lemma PrintIntIs(n: int)
    ensures n >= 0 ==> Parse(PrintInt(n)) == n && (n > 0 ==> PrintInt(n)[0] != '0') && (n == 0 ==> PrintInt(n) == "0")
    ensures n < 0 ==> PrintInt(n)[0] == '-' && Parse(PrintInt(n)[1..]) == -n && PrintInt(n)[1] != '0'
  {
    if n > 0 {
      NoLeadingZero(n);
    } else if n < 0 {
      NoLeadingZero(-n);
      assert PrintInt(n)[1..] == Decimal(-n);
    }
    ParseInvertsDecimal(if n < 0 then -n else n);
  }

  lemma {:induction false} NoLeadingZero(n: nat)
    requires n > 0
    ensures Decimal(n)[0] != '0'
  {
    if n >= 10 {
      NoLeadingZero(n / 10);
    }
  }

  lemma PrintIntHasNoBar(n: int)
    ensures '|' !in PrintInt(n)
  {
  }

  /** The first separator from the left fixes both sides when neither left side contains it. */
  lemma FirstSplitUnique(a: string, b: string, a': string, b': string, c: char)
    requires c !in a && c !in a'
    requires a + [c] + b == a' + [c] + b'
    ensures a == a' && b == b'
  {
    var s, s' := a + [c] + b, a' + [c] + b';
    assert s[|a|] == c && s'[|a'|] == c;
    assert forall i :: 0 <= i < |a| ==> s[i] == a[i];
    assert forall i :: 0 <= i < |a'| ==> s'[i] == a'[i];
    assert |a| == |a'|;
    assert a == s[..|a|] && a' == s'[..|a'|];
    assert b == s[|a| + 1..] && b' == s'[|a'| + 1..];
  }

  /** The last separator fixes both sides when neither right side contains it. */
  lemma LastSplitUnique(a: string, b: string, a': string, b': string, c: char)
    requires c !in b && c !in b'
    requires a + [c] + b == a' + [c] + b'
    ensures a == a' && b == b'
  {
    var s, s' := a + [c] + b, a' + [c] + b';
    assert s[|a|] == c && s'[|a'|] == c;
    assert forall i :: |a| < i < |s| ==> s[i] == b[i - |a| - 1];
    assert forall i :: |a'| < i < |s'| ==> s'[i] == b'[i - |a'| - 1];
    assert |a| == |a'|;
    assert a == s[..|a|] && a' == s'[..|a'|];
    assert b == s[|a| + 1..] && b' == s'[|a'| + 1..];
  }
}
