/** Hexadecimal text: lower-case printing, and decoding that takes either case and an optional 0x. */
module Hex {
  import opened Common

  newtype byte = x: int | 0 <= x < 256

  predicate IsHexDigit(c: char) {
    '0' <= c <= '9' || 'a' <= c <= 'f' || 'A' <= c <= 'F'
  }

  function NibbleOf(c: char): (n: int)
    requires IsHexDigit(c)
    ensures 0 <= n < 16
  {
    if c <= '9' then (c - '0') as int
    else if c <= 'F' then (c - 'A') as int + 10
    else (c - 'a') as int + 10
  }

  function DigitOf(n: int): (c: char)
    requires 0 <= n < 16
    ensures IsHexDigit(c) && NibbleOf(c) == n
  {
    if n < 10 then '0' + n as char else 'a' + (n - 10) as char
  }

  function Encode(bytes: seq<byte>): (text: string)
    ensures |text| == 2 * |bytes|
    ensures forall i :: 0 <= i < |text| ==> IsHexDigit(text[i])
  {
    if bytes == [] then []
    else
      Encode(bytes[..|bytes| - 1]) + [DigitOf(bytes[|bytes| - 1] as int / 16), DigitOf(bytes[|bytes| - 1] as int % 16)]
  }

  predicate AllHex(text: string) {
    forall i :: 0 <= i < |text| ==> IsHexDigit(text[i])
  }

  function ByteAt(text: string, i: nat): byte
    requires AllHex(text) && 2 * i + 1 < |text|
  {
    (16 * NibbleOf(text[2 * i]) + NibbleOf(text[2 * i + 1])) as byte
  }

  function Pairs(text: string): (bytes: seq<byte>)
    requires AllHex(text) && |text| % 2 == 0
    ensures |bytes| == |text| / 2
  {
    seq(|text| / 2, i requires 0 <= i < |text| / 2 => ByteAt(text, i))
  }

  function StripPrefix(text: string): string {
    if |text| >= 2 && text[..2] == "0x" then text[2..] else text
  }

  function Decode(text: string): Option<seq<byte>> {
    var digits := StripPrefix(text);
    if AllHex(digits) && |digits| % 2 == 0 then Some(Pairs(digits)) else None
  }

  lemma {:induction false} EncodedPairs(bytes: seq<byte>, i: nat)
    requires i < |bytes|
    ensures ByteAt(Encode(bytes), i) == bytes[i]
  {
    if i < |bytes| - 1 { EncodedPairs(bytes[..|bytes| - 1], i); }
  }

  lemma DecodeInvertsEncode(bytes: seq<byte>)
    ensures Decode(Encode(bytes)) == Some(bytes)
  {
    hide Encode, ByteAt, StripPrefix;
    AllHexHasNoPrefix(Encode(bytes));
    forall i | 0 <= i < |bytes| ensures Pairs(Encode(bytes))[i] == bytes[i] { EncodedPairs(bytes, i); }
    assert Pairs(Encode(bytes)) == bytes;
  }

  lemma AllHexHasNoPrefix(text: string)
    requires AllHex(text)
    ensures StripPrefix(text) == text
  {
    if |text| >= 2 { assert text[..2][1] == text[1]; }
  }

  const LOWER := "0123456789abcdef"
  const UPPER := "0123456789ABCDEF"

  /** Digits stand for their position in the alphabet, in either case. */
  lemma DigitsStandFor(n: nat)
    requires n < 16
    ensures IsHexDigit(LOWER[n]) && NibbleOf(LOWER[n]) == n && IsHexDigit(UPPER[n]) && NibbleOf(UPPER[n]) == n
    ensures DigitOf(n) == LOWER[n]
  {
  }

  /** A byte is printed as two lower-case digits, the more significant one first. */
  lemma {:induction false} EncodedDigits(bytes: seq<byte>, i: nat)
    requires i < |bytes|
    ensures Encode(bytes)[2 * i] == LOWER[bytes[i] as int / 16]
    ensures Encode(bytes)[2 * i + 1] == LOWER[bytes[i] as int % 16]
  {
    DigitsStandFor(bytes[i] as int / 16);
    DigitsStandFor(bytes[i] as int % 16);
    hide DigitOf;
    if i < |bytes| - 1 { EncodedDigits(bytes[..|bytes| - 1], i); }
  }

  /** Decoding takes text of pairs of hex digits, with or without 0x, and nothing else. */
  lemma DecodesPairs(text: string)
    ensures Decode("0x" + text) == if AllHex(text) && |text| % 2 == 0 then Some(Pairs(text)) else None
    ensures AllHex(text) && |text| % 2 == 0 ==> Decode(text) == Some(Pairs(text))
  {
    assert ("0x" + text)[..2] == "0x" && ("0x" + text)[2..] == text;
    if AllHex(text) { AllHexHasNoPrefix(text); }
  }
}
