/**
 Hexadecimal text as Go's standard library writes it: `strconv.FormatUint(n, 16)`
 (no padding, lower case) and `hex.EncodeToString` (two digits per byte). Each comes
 with its inverse, so that distinct numbers and distinct digests give distinct text.
 */
module Hex {
  import opened Base

  /** The lower-case hexadecimal digit of `d`. */
  function Digit(d: int): (c: char)
    requires 0 <= d < 16
    ensures IsHexDigit(c)
  {
    if d < 10 then (48 + d) as char else (97 + d - 10) as char
  }

  predicate IsHexDigit(c: char) {
    '0' <= c <= '9' || 'a' <= c <= 'f'
  }

  predicate IsHex(s: string) {
    forall i :: 0 <= i < |s| ==> IsHexDigit(s[i])
  }

  /** The value of a lower-case hexadecimal digit (0 for any other character). */
  function DigitValue(c: char): (v: int)
    ensures 0 <= v < 16
    ensures IsHexDigit(c) ==> Digit(v) == c
  {
    if '0' <= c <= '9' then c as int - 48
    else if 'a' <= c <= 'f' then c as int - 97 + 10
    else 0
  }

  lemma DigitRoundTrip(d: int)
    requires 0 <= d < 16
    ensures DigitValue(Digit(d)) == d
  {
  }

  /** `strconv.FormatUint(n, 16)`: base 16, no leading zeros, "0" for zero. */
  function FormatUint(n: nat): (s: string)
    ensures |s| >= 1 && IsHex(s)
    ensures s[0] == '0' <==> n == 0
    decreases n
  {
    if n < 16 then [Digit(n)] else FormatUint(n / 16) + [Digit(n % 16)]
  }

  /** Reads a string of hexadecimal digits back as a number (most significant first). */
  function ParseUint(s: string): (n: nat)
    decreases |s|
  {
    if |s| == 0 then 0 else ParseUint(s[..|s| - 1]) * 16 + DigitValue(s[|s| - 1])
  }

  lemma {:induction false} ParseFormatUint(n: nat)
    ensures ParseUint(FormatUint(n)) == n
    decreases n
  {
    var s := FormatUint(n);
    if n < 16 {
      assert s[..|s| - 1] == [];
      DigitRoundTrip(n);
    } else {
      assert s[..|s| - 1] == FormatUint(n / 16);
      assert s[|s| - 1] == Digit(n % 16);
      ParseFormatUint(n / 16);
      DigitRoundTrip(n % 16);
    }
  }

  /** Distinct numbers are written as distinct strings. */
  lemma FormatUintInjective(a: nat, b: nat)
    ensures FormatUint(a) == FormatUint(b) ==> a == b
  {
    ParseFormatUint(a);
    ParseFormatUint(b);
  }

  function Pow16(k: nat): (p: nat) {
    if k == 0 then 1 else 16 * Pow16(k - 1)
  }

  lemma {:induction false} Pow16Add(a: nat, b: nat)
    ensures Pow16(a + b) == Pow16(a) * Pow16(b)
    decreases a
  {
    if a > 0 {
      Pow16Add(a - 1, b);
    }
  }

  lemma {:induction false} FormatUintLength(n: nat, k: nat)
    requires 1 <= k && n < Pow16(k)
    ensures |FormatUint(n)| <= k
    decreases k
  {
    if n >= 16 {
      assert k >= 2;
      assert n / 16 < Pow16(k - 1);
      FormatUintLength(n / 16, k - 1);
    }
  }

  /** A 64-bit number takes one to sixteen hexadecimal digits. */
  lemma FormatUint64Length(n: uint64)
    ensures 1 <= |FormatUint(n)| <= 16
  {
    Pow16Add(4, 4);
    Pow16Add(8, 8);
    assert Pow16(16) == 0x1_0000_0000_0000_0000;
    FormatUintLength(n, 16);
  }

  /** `hex.EncodeToString`: two lower-case digits per byte, high nibble first. */
  function Encode(b: seq<byte>): (s: string)
    ensures |s| == 2 * |b| && IsHex(s)
  {
    if |b| == 0 then [] else [Digit(b[0] / 16), Digit(b[0] % 16)] + Encode(b[1..])
  }

  /** The inverse of `Encode` on well-formed input (as `hex.DecodeString`). */
  function Decode(s: string): (b: seq<byte>)
    requires |s| % 2 == 0
    ensures |b| == |s| / 2
  {
    if |s| == 0 then [] else [DigitValue(s[0]) * 16 + DigitValue(s[1])] + Decode(s[2..])
  }

  lemma {:induction false} DecodeEncode(b: seq<byte>)
    ensures Decode(Encode(b)) == b
  {
    if |b| > 0 {
      var s := Encode(b);
      assert s[0] == Digit(b[0] / 16) && s[1] == Digit(b[0] % 16);
      assert s[2..] == Encode(b[1..]);
      DigitRoundTrip(b[0] / 16);
      DigitRoundTrip(b[0] % 16);
      DecodeEncode(b[1..]);
    }
  }

  /** Distinct byte strings are encoded as distinct hexadecimal strings. */
  lemma EncodeInjective(a: seq<byte>, b: seq<byte>)
    ensures Encode(a) == Encode(b) ==> a == b
  {
    DecodeEncode(a);
    DecodeEncode(b);
  }
}
