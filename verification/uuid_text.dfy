/** A 128-bit UUID and its hyphenated text, the 8-4-4-4-12 hexadecimal layout
    of section 3 of RFC 4122. `Format` is what `Uuid`'s `Display` writes
    (lower-case); `Parse` reads that layout in either case. */
module UuidText {
  import opened Wrappers

  function Pow16(n: nat): (r: nat)
    ensures r >= 1
  {
    if n == 0 then 1 else 16 * Pow16(n - 1)
  }

  /** 16^32 = 2^128 distinct values. */
  type Uuid = x: nat | x < Pow16(32)

  predicate IsHex(c: char) {
    '0' <= c <= '9' || 'a' <= c <= 'f' || 'A' <= c <= 'F'
  }

  predicate AllHex(s: string) {
    forall i :: 0 <= i < |s| ==> IsHex(s[i])
  }

  function HexDigit(d: nat): (c: char)
    requires d < 16
    ensures IsHex(c) && !('A' <= c <= 'F')
  {
    if d < 10 then (48 + d) as char else (87 + d) as char
  }

  function HexValue(c: char): (d: nat)
    requires IsHex(c)
    ensures d < 16
  {
    if c <= '9' then c as int - 48
    else if c <= 'F' then c as int - 55
    else c as int - 87
  }

  function LowerChar(c: char): char {
    if 'A' <= c <= 'Z' then (c as int + 32) as char else c
  }

  /** ASCII lower-casing, the case folding UUID text permits. */
  function Lower(s: string): (r: string)
    ensures |r| == |s|
    ensures forall i :: 0 <= i < |s| ==> r[i] == LowerChar(s[i])
  {
    seq(|s|, i requires 0 <= i < |s| => LowerChar(s[i]))
  }

  /** The value of a run of hexadecimal digits, most significant first. */
  function FromHex(s: string): nat
    requires AllHex(s)
  {
    if |s| == 0 then 0 else FromHex(s[..|s| - 1]) * 16 + HexValue(s[|s| - 1])
  }

  /** Exactly `width` lower-case hexadecimal digits. */
  function ToHex(x: nat, width: nat): (r: string)
    requires x < Pow16(width)
    ensures |r| == width && AllHex(r)
  {
    if width == 0 then "" else ToHex(x / 16, width - 1) + [HexDigit(x % 16)]
  }

  lemma {:induction false} FromHexBound(s: string)
    requires AllHex(s)
    ensures FromHex(s) < Pow16(|s|)
  {
    if |s| > 0 {
      FromHexBound(s[..|s| - 1]);
    }
  }

  lemma {:induction false} FromToHex(x: nat, width: nat)
    requires x < Pow16(width)
    ensures FromHex(ToHex(x, width)) == x
  {
    if width > 0 {
      var r := ToHex(x, width);
      assert r[..width - 1] == ToHex(x / 16, width - 1);
      FromToHex(x / 16, width - 1);
    }
  }

  lemma {:induction false} ToFromHex(s: string)
    requires AllHex(s)
    ensures FromHex(s) < Pow16(|s|)
    ensures ToHex(FromHex(s), |s|) == Lower(s)
  {
    FromHexBound(s);
    if |s| > 0 {
      var init := s[..|s| - 1];
      var c := s[|s| - 1];
      ToFromHex(init);
      assert FromHex(s) / 16 == FromHex(init);
      assert FromHex(s) % 16 == HexValue(c);
      assert HexDigit(HexValue(c)) == LowerChar(c);
      assert Lower(s) == Lower(init) + [LowerChar(c)];
    }
  }

  /** Inserts the four hyphens into 32 digits. */
  function Hyphenate(h: string): (s: string)
    requires |h| == 32
    ensures |s| == 36
  {
    h[..8] + "-" + h[8..12] + "-" + h[12..16] + "-" + h[16..20] + "-" + h[20..]
  }

  predicate HyphensInPlace(s: string) {
    |s| == 36 && s[8] == '-' && s[13] == '-' && s[18] == '-' && s[23] == '-'
  }

  /** Removes the four hyphens. */
  function Dehyphenate(s: string): (h: string)
    requires HyphensInPlace(s)
    ensures |h| == 32
  {
    s[..8] + s[9..13] + s[14..18] + s[19..23] + s[24..]
  }

  lemma DehyphenateHyphenate(h: string)
    requires |h| == 32
    ensures HyphensInPlace(Hyphenate(h))
    ensures Dehyphenate(Hyphenate(h)) == h
  {
    var s := Hyphenate(h);
    assert s[..8] == h[..8];
    assert s[9..13] == h[8..12];
    assert s[14..18] == h[12..16];
    assert s[19..23] == h[16..20];
    assert s[24..] == h[20..];
    assert h == h[..8] + h[8..12] + h[12..16] + h[16..20] + h[20..];
  }

  lemma HyphenateDehyphenate(s: string)
    requires HyphensInPlace(s)
    ensures Hyphenate(Dehyphenate(s)) == s
  {
    var h := Dehyphenate(s);
    assert h[..8] == s[..8];
    assert h[8..12] == s[9..13];
    assert h[12..16] == s[14..18];
    assert h[16..20] == s[19..23];
    assert h[20..] == s[24..];
    assert s == s[..8] + "-" + s[9..13] + "-" + s[14..18] + "-" + s[19..23] + "-" + s[24..];
  }

  lemma LowerHyphenate(h: string)
    requires |h| == 32
    ensures Lower(Hyphenate(h)) == Hyphenate(Lower(h))
  {
    var a := Lower(Hyphenate(h));
    var b := Hyphenate(Lower(h));
    forall i | 0 <= i < 36 ensures a[i] == b[i] {
      if i < 8 {
      } else if i == 8 {
      } else if i < 13 {
        assert b[i] == Lower(h)[i - 1];
      } else if i == 13 {
      } else if i < 18 {
        assert b[i] == Lower(h)[i - 2];
      } else if i == 18 {
      } else if i < 23 {
        assert b[i] == Lower(h)[i - 3];
      } else if i == 23 {
      } else {
        assert b[i] == Lower(h)[i - 4];
      }
    }
  }

  /** `Uuid`'s `Display`: hyphenated lower-case hexadecimal. */
  function Format(u: Uuid): string {
    Hyphenate(ToHex(u, 32))
  }

  function Parse(s: string): Option<Uuid> {
    if HyphensInPlace(s) && AllHex(Dehyphenate(s)) then
      FromHexBound(Dehyphenate(s));
      Some(FromHex(Dehyphenate(s)))
    else
      None
  }

  /** Every UUID is read back from the text it is written as. */
  lemma ParseFormat(u: Uuid)
    ensures Parse(Format(u)) == Some(u)
  {
    DehyphenateHyphenate(ToHex(u, 32));
    FromToHex(u, 32);
  }

  /** Every accepted text is written back in lower case, with the same
      digits in the same places. */
  lemma FormatParse(s: string)
    requires Parse(s).Some?
    ensures Format(Parse(s).value) == Lower(s)
  {
    var h := Dehyphenate(s);
    ToFromHex(h);
    LowerHyphenate(h);
    HyphenateDehyphenate(s);
  }

  lemma FormatInjective(u: Uuid, v: Uuid)
    requires Format(u) == Format(v)
    ensures u == v
  {
    ParseFormat(u);
    ParseFormat(v);
  }
}
