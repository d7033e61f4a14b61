/**
 * Rendering of one byte as the Go literal token `0xNN,`, the way
 * `fmt.Fprintf(out, "0x%.2x,", b)` prints it: two lower-case hexadecimal
 * digits, zero-padded, between the prefix `0x` and a trailing comma.
 * The formatting library is not trusted: the nibble-to-digit table is
 * written out here, together with its inverse.
 */
module Hex {
  import opened Wrappers

  /** An 8-bit value, Go's `byte`. */
  newtype Byte = b: int | 0 <= b < 256

  /** True of the sixteen characters `0`-`9` and `a`-`f`. */
  predicate IsLowerHexDigit(c: char) {
    '0' <= c <= '9' || 'a' <= c <= 'f'
  }

  /** The value of a lower-case hexadecimal digit; None for every other character. */
  function DigitValue(c: char): (v: Option<nat>)
    ensures v.Some? <==> IsLowerHexDigit(c)
    ensures v.Some? ==> v.value < 16
  {
    if '0' <= c <= '9' then Some(c as int - '0' as int)
    else if 'a' <= c <= 'f' then Some(c as int - 'a' as int + 10)
    else None
  }

  /** The digit for a nibble: `0`-`9` for 0-9 and `a`-`f` for 10-15. */
  function HexDigit(v: nat): (c: char)
    requires v < 16
    ensures IsLowerHexDigit(c)
    ensures DigitValue(c) == Some(v)
  {
    if v < 10 then (v + '0' as int) as char else (v - 10 + 'a' as int) as char
  }

  /** A digit names exactly one nibble: the table is injective on its image. */
  lemma DigitCanonical(c: char, v: nat)
    requires DigitValue(c) == Some(v)
    ensures v < 16 && HexDigit(v) == c
  {
  }

  /** The token `0xNN,` for one byte, high nibble first. */
  function ByteToken(b: Byte): (t: string)
    ensures |t| == 5
    ensures t[0] == '0' && t[1] == 'x' && t[4] == ','
    ensures IsLowerHexDigit(t[2]) && IsLowerHexDigit(t[3])
    ensures DigitValue(t[2]).value * 16 + DigitValue(t[3]).value == b as int
  {
    "0x" + [HexDigit(b as nat / 16), HexDigit(b as nat % 16)] + ","
  }

  /** Reads back a token `0xNN,` with lower-case digits; None for anything else. */
  function ParseToken(t: string): (r: Option<Byte>)
    ensures r.Some? ==> |t| == 5 && t[0] == '0' && t[1] == 'x' && t[4] == ','
  {
    if |t| == 5 && t[0] == '0' && t[1] == 'x' && t[4] == ',' then
      match (DigitValue(t[2]), DigitValue(t[3]))
      case (Some(hi), Some(lo)) => Some((hi * 16 + lo) as Byte)
      case _ => None
    else
      None
  }

  /** Decoding a rendered token gives back the byte. */
  lemma TokenRoundTrip(b: Byte)
    ensures ParseToken(ByteToken(b)) == Some(b)
  {
  }

  /** The only text that decodes to `b` is the token rendered for `b`. */
  lemma TokenCanonical(t: string, b: Byte)
    requires ParseToken(t) == Some(b)
    ensures t == ByteToken(b)
  {
    var hi, lo := DigitValue(t[2]).value, DigitValue(t[3]).value;
    DigitCanonical(t[2], hi);
    DigitCanonical(t[3], lo);
    assert b as nat / 16 == hi && b as nat % 16 == lo;
    assert t == "0x" + [t[2], t[3]] + ",";
  }
}
