/** UTF-8, the encoding of Rust's `String`: `String::len` counts the bytes of
    this encoding, not the characters. Encoding per RFC 3629, section 3. */
module Utf8 {

  newtype byte = x: int | 0 <= x < 256

  /** The number of bytes UTF-8 spends on one Unicode scalar value. */
  function Width(c: char): (w: nat)
    ensures 1 <= w <= 4
  {
    if c as int < 0x80 then 1
    else if c as int < 0x800 then 2
    else if c as int < 0x1_0000 then 3
    else 4
  }

  function EncodeChar(c: char): (bytes: seq<byte>)
    ensures |bytes| == Width(c)
  {
    var cp := c as int;
    if cp < 0x80 then
      [cp as byte]
    else if cp < 0x800 then
      [(0xC0 + cp / 0x40) as byte, (0x80 + cp % 0x40) as byte]
    else if cp < 0x1_0000 then
      [(0xE0 + cp / 0x1000) as byte, (0x80 + (cp / 0x40) % 0x40) as byte, (0x80 + cp % 0x40) as byte]
    else
      [(0xF0 + cp / 0x4_0000) as byte, (0x80 + (cp / 0x1000) % 0x40) as byte,
       (0x80 + (cp / 0x40) % 0x40) as byte, (0x80 + cp % 0x40) as byte]
  }

  function Encode(s: string): seq<byte> {
    if |s| == 0 then [] else EncodeChar(s[0]) + Encode(s[1..])
  }

  /** Rust's `str::len`. */
  function ByteLength(s: string): nat {
    |Encode(s)|
  }

  /** The sum of the per-character widths, an independent count of the same bytes. */
  function WidthSum(s: string): nat {
    if |s| == 0 then 0 else Width(s[0]) + WidthSum(s[1..])
  }

  lemma {:induction false} ByteLengthIsWidthSum(s: string)
    ensures ByteLength(s) == WidthSum(s)
  {
    if |s| > 0 {
      ByteLengthIsWidthSum(s[1..]);
    }
  }

  /** A string takes at least one and at most four bytes per character. */
  lemma {:induction false} ByteLengthBounds(s: string)
    ensures |s| <= ByteLength(s) <= 4 * |s|
  {
    if |s| > 0 {
      ByteLengthBounds(s[1..]);
    }
  }

  predicate IsAscii(s: string) {
    forall i :: 0 <= i < |s| ==> s[i] as int < 0x80
  }

  /** For ASCII text bytes and characters coincide. */
  lemma {:induction false} AsciiByteLength(s: string)
    requires IsAscii(s)
    ensures ByteLength(s) == |s|
  {
    if |s| > 0 {
      assert IsAscii(s[1..]) by {
        forall i | 0 <= i < |s[1..]| ensures s[1..][i] as int < 0x80 {
          assert s[1..][i] == s[i + 1];
        }
      }
      AsciiByteLength(s[1..]);
    }
  }

  function Repeat(c: char, n: nat): (s: string)
    ensures |s| == n
  {
    if n == 0 then [] else [c] + Repeat(c, n - 1)
  }

  lemma {:induction false} RepeatByteLength(c: char, n: nat)
    ensures ByteLength(Repeat(c, n)) == n * Width(c)
  {
    if n > 0 {
      assert Repeat(c, n)[0] == c;
      assert Repeat(c, n)[1..] == Repeat(c, n - 1);
      RepeatByteLength(c, n - 1);
    }
  }
}
