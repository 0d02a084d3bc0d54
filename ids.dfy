/**
 * `generate_id_from_string`: a stable integer id from the SHA-1 digest of a
 * string. The digest itself is a parameter: any function from strings to
 * 40 lower-case hexadecimal digits.
 */
module Ids {

  predicate IsHexDigit(c: char) {
    '0' <= c <= '9' || 'a' <= c <= 'f'
  }

  /** What `hashlib.sha1(...).hexdigest()` returns. */
  type HexDigest = s: string | |s| == 40 && forall i :: 0 <= i < |s| ==> IsHexDigit(s[i])
    witness "0000000000000000000000000000000000000000"

  function HexDigitValue(c: char): (v: nat)
    requires IsHexDigit(c)
    ensures v < 16
  {
    if c <= '9' then c as int - '0' as int else c as int - 'a' as int + 10
  }

  function Pow16(n: nat): (p: nat)
    ensures p >= 1
  {
    if n == 0 then 1 else 16 * Pow16(n - 1)
  }

  /** `int(s, 16)` for a string of hexadecimal digits (the empty string reads as 0). */
  function HexValue(s: string): nat
    requires forall i :: 0 <= i < |s| ==> IsHexDigit(s[i])
  {
    if s == [] then 0 else 16 * HexValue(s[..|s| - 1]) + HexDigitValue(s[|s| - 1])
  }

  /** `n` hexadecimal digits hold a value below `16^n`. */
  lemma {:induction false} HexValueBound(s: string)
    requires forall i :: 0 <= i < |s| ==> IsHexDigit(s[i])
    ensures HexValue(s) < Pow16(|s|)
  {
    if s != [] {
      HexValueBound(s[..|s| - 1]);
    }
  }

  const TwoTo31: nat := 0x8000_0000

  /** The value of the digest's first eight hexadecimal digits (its first 32 bits). */
  function Prefix32(d: HexDigest): (v: nat)
    ensures v < 2 * TwoTo31
  {
    HexValueBound(d[..8]);
    assert Pow16(8) == 2 * TwoTo31;
    HexValue(d[..8])
  }

  /**
   * `int(sha1(text).hexdigest()[:8], 16) % (1 << 31)`: the first 32 bits of the
   * digest with the top bit cleared, so always a non-negative 31-bit integer.
   */
  function GenerateId(sha1: string -> HexDigest, text: string): (id: nat)
    ensures id < TwoTo31
    ensures id == Prefix32(sha1(text)) || id + TwoTo31 == Prefix32(sha1(text))
  {
    Prefix32(sha1(text)) % TwoTo31
  }
}
