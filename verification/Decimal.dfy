/** Decimal digit strings: printing a number and reading it back. */
module Decimal {

  predicate IsDigit(c: char) {
    '0' <= c <= '9'
  }

  predicate AllDigits(s: string) {
    forall i :: 0 <= i < |s| ==> IsDigit(s[i])
  }

  /** The value of a digit; other characters never get here and count as 0. */
  function DigitValue(c: char): (d: nat)
    ensures d < 10
  {
    if IsDigit(c) then c as nat - '0' as nat else 0
  }

  function DigitChar(d: nat): (c: char)
    requires d < 10
    ensures IsDigit(c) && DigitValue(c) == d
  {
    ('0' as nat + d) as char
  }

  /** The number a digit string denotes; leading zeros count for nothing. */
  function Value(s: string): nat {
    if s == "" then 0 else Value(s[..|s| - 1]) * 10 + DigitValue(s[|s| - 1])
  }

  /** The decimal printing of a number, without leading zeros. */
  function Print(n: nat): (s: string)
    ensures s != ""
  {
    if n < 10 then [DigitChar(n)] else Print(n / 10) + [DigitChar(n % 10)]
  }

  lemma {:induction false} PrintedDigits(n: nat)
    ensures AllDigits(Print(n))
  {
    if n >= 10 { PrintedDigits(n / 10); }
  }

  lemma {:induction false} PrintedValue(n: nat)
    ensures Value(Print(n)) == n
  {
    if n < 10 {
      assert [DigitChar(n)][..0] == "";
    } else {
      PrintedValue(n / 10);
      assert Print(n)[..|Print(n)| - 1] == Print(n / 10);
    }
  }

  function Pow10(k: nat): nat {
    if k == 0 then 1 else 10 * Pow10(k - 1)
  }

  lemma {:induction false} Pow10Positive(k: nat)
    ensures Pow10(k) >= 1
  {
    if k > 0 { Pow10Positive(k - 1); }
  }

  /** Appending digits shifts the number to the left. */
  lemma {:induction false} ValueOfConcat(a: string, b: string)
    ensures Value(a + b) == Value(a) * Pow10(|b|) + Value(b)
    decreases |b|
  {
    if b == "" {
      assert a + b == a;
    } else {
      var b', d := b[..|b| - 1], DigitValue(b[|b| - 1]);
      ValueOfConcat(a, b');
      assert (a + b)[..|a + b| - 1] == a + b' && (a + b)[|a + b| - 1] == b[|b| - 1];
      TimesTen(Value(a), Pow10(|b'|));
    }
  }

  lemma TimesTen(x: nat, y: nat)
    ensures x * y * 10 == x * (10 * y)
  {
  }

  lemma {:induction false} ValueBelowPow10(s: string)
    ensures Value(s) < Pow10(|s|)
    decreases |s|
  {
    if s != "" { ValueBelowPow10(s[..|s| - 1]); }
  }

  /** One digit is its position in the alphabet of digits, and a further digit shifts the number to the left. */
  lemma DigitsDenote(s: string, d: nat)
    requires d < 10
    ensures IsDigit("0123456789"[d]) && Value(s + ["0123456789"[d]]) == 10 * Value(s) + d
    ensures Value("") == 0
  {
    var t := s + ["0123456789"[d]];
    assert t[..|t| - 1] == s && t[|t| - 1] == "0123456789"[d];
  }

  /** Without leading zeros. */
  lemma {:induction false} PrintedPlainly(n: nat)
    ensures Print(n)[0] == '0' ==> Print(n) == "0"
  {
    if n >= 10 { PrintedPlainly(n / 10); PrintedValue(n / 10); assert Value("0") == 0 by { assert "0"[..0] == ""; } }
  }
}
