/**
 * Hexadecimal digits, and a colour channel written as two of them.
 *
 * Reading a two-character slice of hex digits is what `parseInt(slice, 16)`
 * does when the slice holds exactly two hex digits; writing a byte back is
 * the lower-case `RR` form the palette uses.
 */
module Hex {

  /** One colour channel: an integer in 0..255. */
  type Byte = x: int | 0 <= x < 256

  predicate IsHexDigit(c: char) {
    '0' <= c <= '9' || 'a' <= c <= 'f' || 'A' <= c <= 'F'
  }

  /** A hex digit in the canonical (lower-case) spelling. */
  predicate IsLowerHexDigit(c: char) {
    '0' <= c <= '9' || 'a' <= c <= 'f'
  }

  predicate AllHexDigits(s: string) {
    forall i :: 0 <= i < |s| ==> IsHexDigit(s[i])
  }

  predicate AllLowerHexDigits(s: string) {
    forall i :: 0 <= i < |s| ==> IsLowerHexDigit(s[i])
  }

  /** The value of one hex digit; upper and lower case letters agree. */
  function DigitValue(c: char): (v: nat)
    requires IsHexDigit(c)
    ensures v < 16
    ensures v < 10 <==> '0' <= c <= '9'
  {
    if '0' <= c <= '9' then c as int - '0' as int
    else if 'a' <= c <= 'f' then c as int - 'a' as int + 10
    else c as int - 'A' as int + 10
  }

  /** The lower-case digit for a value below 16. */
  function HexChar(d: nat): (c: char)
    requires d < 16
    ensures IsLowerHexDigit(c) && IsHexDigit(c) && DigitValue(c) == d
  {
    if d < 10 then ('0' as int + d) as char else ('a' as int + d - 10) as char
  }

  /** The same digit, spelled in lower case. */
  function LowerDigit(c: char): (d: char)
    requires IsHexDigit(c)
    ensures IsLowerHexDigit(d) && IsHexDigit(d) && DigitValue(d) == DigitValue(c)
    ensures IsLowerHexDigit(c) ==> d == c
  {
    if 'A' <= c <= 'F' then (c as int - 'A' as int + 'a' as int) as char else c
  }

  /** A string of hex digits spelled in lower case, digit by digit. */
  function Lower(s: string): (t: string)
    requires AllHexDigits(s)
    ensures |t| == |s| && AllLowerHexDigits(t)
    ensures forall i :: 0 <= i < |s| ==> t[i] == LowerDigit(s[i])
  {
    if s == [] then [] else [LowerDigit(s[0])] + Lower(s[1..])
  }

  /** The value of a two-digit slice read in base 16 (the first digit is the high one). */
  function PairValue(s: string): (b: Byte)
    requires |s| == 2 && AllHexDigits(s)
    ensures b / 16 == DigitValue(s[0]) && b % 16 == DigitValue(s[1])
  {
    16 * DigitValue(s[0]) + DigitValue(s[1])
  }

  /** A byte written as two lower-case hex digits; reading them back gives the byte. */
  function ByteHex(b: Byte): (s: string)
    ensures |s| == 2 && AllLowerHexDigits(s) && AllHexDigits(s)
    ensures PairValue(s) == b
  {
    [HexChar(b / 16), HexChar(b % 16)]
  }

  /** A hex digit is what `HexChar` writes for its value, up to case. */
  lemma HexCharOfValue(c: char)
    requires IsHexDigit(c)
    ensures HexChar(DigitValue(c)) == LowerDigit(c)
  {
  }

  /** Reading two hex digits and writing the byte back gives the same digits in lower case. */
  lemma ByteHexOfPairValue(s: string)
    requires |s| == 2 && AllHexDigits(s)
    ensures ByteHex(PairValue(s)) == Lower(s)
  {
    var hi, lo := DigitValue(s[0]), DigitValue(s[1]);
    assert PairValue(s) / 16 == hi && PairValue(s) % 16 == lo;
    HexCharOfValue(s[0]);
    HexCharOfValue(s[1]);
  }

  /** Two pairs of digits with the same value are the same up to case. */
  lemma PairValueInjective(s: string, t: string)
    requires |s| == 2 && AllHexDigits(s) && |t| == 2 && AllHexDigits(t)
    requires PairValue(s) == PairValue(t)
    ensures Lower(s) == Lower(t)
  {
    ByteHexOfPairValue(s);
    ByteHexOfPairValue(t);
  }

  /** Lower-casing works piece by piece. */
  lemma {:induction false} LowerAppend(s: string, t: string)
    requires AllHexDigits(s) && AllHexDigits(t)
    ensures AllHexDigits(s + t) && Lower(s + t) == Lower(s) + Lower(t)
  {
    assert forall i :: 0 <= i < |s + t| ==> (s + t)[i] == if i < |s| then s[i] else t[i - |s|];
  }
}
