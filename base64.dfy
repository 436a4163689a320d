/**
 * Base64 as the browser's `atob` reads it and as section 4 of RFC 4648
 * writes it.
 *
 * `atob` runs the "forgiving-base64 decode" of the WHATWG Infra Standard
 * (section 4.7): ASCII whitespace is dropped, one or two trailing `=` are
 * dropped when the length is a multiple of four, a length of 1 modulo 4 or a
 * character outside the alphabet is a failure (an `InvalidCharacterError`
 * exception), and the leftover bits of a final partial group are
 * discarded. Its result is a "binary string": one character per byte, whose
 * code is the byte.
 */
module Base64 {
  import opened JsCore

  type Byte = x: int | 0 <= x < 256
  type Sextet = x: int | 0 <= x < 64

  // ---------------------------------------------------------------------------
  // The alphabet of section 4 of RFC 4648

  predicate IsAlphabetChar(c: char) {
    ('A' <= c <= 'Z') || ('a' <= c <= 'z') || ('0' <= c <= '9') || c == '+' || c == '/'
  }

  function SextetOf(c: char): (v: Sextet)
    requires IsAlphabetChar(c)
  {
    if 'A' <= c <= 'Z' then c as int - 'A' as int
    else if 'a' <= c <= 'z' then c as int - 'a' as int + 26
    else if '0' <= c <= '9' then c as int - '0' as int + 52
    else if c == '+' then 62
    else 63
  }

  function CharOf(v: Sextet): (c: char)
    ensures IsAlphabetChar(c)
    ensures SextetOf(c) == v
  {
    if v < 26 then ('A' as int + v) as char
    else if v < 52 then ('a' as int + v - 26) as char
    else if v < 62 then ('0' as int + v - 52) as char
    else if v == 62 then '+'
    else '/'
  }

  // ---------------------------------------------------------------------------
  // Encoding (RFC 4648 section 4, with padding)

  /** The four sextets of the 24 bits `b0 b1 b2`, most significant first. */
  function Hi6(b0: Byte): Sextet { b0 / 4 }
  function Mid6(b0: Byte, b1: Byte): Sextet { (b0 % 4) * 16 + b1 / 16 }
  function Mid6b(b1: Byte, b2: Byte): Sextet { (b1 % 16) * 4 + b2 / 64 }
  function Lo6(b2: Byte): Sextet { b2 % 64 }

  /** The sextets of a byte string, before padding: four per full group, two or three for the tail. */
  function Sextets(bs: seq<Byte>): (vs: seq<Sextet>)
    ensures |vs| == 4 * (|bs| / 3) + (if |bs| % 3 == 0 then 0 else |bs| % 3 + 1)
    ensures |vs| % 4 != 1
  {
    if |bs| == 0 then []
    else if |bs| == 1 then [Hi6(bs[0]), Mid6(bs[0], 0)]
    else if |bs| == 2 then [Hi6(bs[0]), Mid6(bs[0], bs[1]), Mid6b(bs[1], 0)]
    else [Hi6(bs[0]), Mid6(bs[0], bs[1]), Mid6b(bs[1], bs[2]), Lo6(bs[2])] + Sextets(bs[3..])
  }

  function CharsOf(vs: seq<Sextet>): (s: string)
    ensures |s| == |vs|
    ensures forall i :: 0 <= i < |s| ==> IsAlphabetChar(s[i]) && SextetOf(s[i]) == vs[i]
  {
    if vs == [] then "" else [CharOf(vs[0])] + CharsOf(vs[1..])
  }

  /** The padding that completes the last group to four characters. */
  function Padding(n: nat): (p: string)
    ensures |p| == if n % 3 == 0 then 0 else 3 - n % 3
    ensures forall i :: 0 <= i < |p| ==> p[i] == '='
  {
    if n % 3 == 1 then "==" else if n % 3 == 2 then "=" else ""
  }

  /** Sextets and padding of `n` bytes fill `(n + 2) / 3` groups of four. */
  lemma PaddedLength(n: nat)
    ensures 4 * (n / 3) + (if n % 3 == 0 then 0 else n % 3 + 1) + (if n % 3 == 0 then 0 else 3 - n % 3)
         == 4 * ((n + 2) / 3)
  {
    var q, r := n / 3, n % 3;
    assert n == 3 * q + r;
    assert (n + 2) / 3 == if r == 0 then q else q + 1;
  }

  /** The canonical padded encoding of a byte string. */
  function Encode(bs: seq<Byte>): (s: string)
    ensures |s| % 4 == 0
    ensures |s| == 4 * ((|bs| + 2) / 3)
  {
    PaddedLength(|bs|);
    CharsOf(Sextets(bs)) + Padding(|bs|)
  }

  // ---------------------------------------------------------------------------
  // Decoding (forgiving-base64 decode)

  predicate IsAsciiWhitespace(c: char) {
    c == '\t' || c == '\n' || c == '\U{000C}' || c == '\r' || c == ' '
  }

  function StripWhitespace(s: string): (r: string)
    ensures |r| <= |s|
    ensures forall i :: 0 <= i < |r| ==> !IsAsciiWhitespace(r[i])
    ensures (forall i :: 0 <= i < |s| ==> !IsAsciiWhitespace(s[i])) ==> r == s
  {
    if s == [] then []
    else if IsAsciiWhitespace(s[0]) then StripWhitespace(s[1..])
    else [s[0]] + StripWhitespace(s[1..])
  }

  /** When the length is a multiple of four, one or two final `=` are dropped. */
  function StripPadding(s: string): (r: string)
    ensures |r| <= |s| && r == s[..|r|]
  {
    if |s| % 4 != 0 then s
    else if |s| >= 2 && s[|s| - 2] == '=' && s[|s| - 1] == '=' then s[..|s| - 2]
    else if |s| >= 1 && s[|s| - 1] == '=' then s[..|s| - 1]
    else s
  }

  /** The three bytes of the 24 bits of four sextets. */
  function First8(v0: Sextet, v1: Sextet): Byte { v0 * 4 + v1 / 16 }
  function Second8(v1: Sextet, v2: Sextet): Byte { (v1 % 16) * 16 + v2 / 4 }
  function Third8(v2: Sextet, v3: Sextet): Byte { (v2 % 4) * 64 + v3 }

  /** Bytes of a sextet string; a tail of two or three sextets yields one or two bytes. */
  function BytesOf(vs: seq<Sextet>): (bs: seq<Byte>)
    requires |vs| % 4 != 1
    ensures |bs| == 3 * (|vs| / 4) + (if |vs| % 4 == 0 then 0 else |vs| % 4 - 1)
  {
    if |vs| == 0 then []
    else if |vs| == 2 then [First8(vs[0], vs[1])]
    else if |vs| == 3 then [First8(vs[0], vs[1]), Second8(vs[1], vs[2])]
    else [First8(vs[0], vs[1]), Second8(vs[1], vs[2]), Third8(vs[2], vs[3])] + BytesOf(vs[4..])
  }

  function SextetsOf(s: string): (vs: seq<Sextet>)
    requires forall i :: 0 <= i < |s| ==> IsAlphabetChar(s[i])
    ensures |vs| == |s|
    ensures forall i :: 0 <= i < |s| ==> vs[i] == SextetOf(s[i])
  {
    if s == [] then [] else [SextetOf(s[0])] + SextetsOf(s[1..])
  }

  /** The binary string whose character codes are the given bytes. */
  function BinaryString(bs: seq<Byte>): (s: string)
    ensures |s| == |bs|
    ensures forall i :: 0 <= i < |s| ==> s[i] as int == bs[i]
  {
    if bs == [] then "" else [bs[0] as char] + BinaryString(bs[1..])
  }

  /** `atob(s)`: `None` where `atob` throws. */
  function Atob(s: string): (r: Option<string>)
    ensures r.Some? ==> forall i :: 0 <= i < |r.value| ==> r.value[i] as int < 256
  {
    var d := StripPadding(StripWhitespace(s));
    if |d| % 4 == 1 then None
    else if exists i :: 0 <= i < |d| && !IsAlphabetChar(d[i]) then None
    else Some(BinaryString(BytesOf(SextetsOf(d))))
  }

  // ---------------------------------------------------------------------------
  // Round trip

  /** One full group: the three bytes come back from their four sextets. */
  lemma GroupRoundTrip(b0: Byte, b1: Byte, b2: Byte)
    ensures First8(Hi6(b0), Mid6(b0, b1)) == b0
    ensures Second8(Mid6(b0, b1), Mid6b(b1, b2)) == b1
    ensures Third8(Mid6b(b1, b2), Lo6(b2)) == b2
  {
  }

  lemma {:induction false} BytesOfSextets(bs: seq<Byte>)
    ensures BytesOf(Sextets(bs)) == bs
    decreases |bs|
  {
    if |bs| == 0 {
    } else if |bs| == 1 {
      assert BytesOf(Sextets(bs)) == [bs[0]];
    } else if |bs| == 2 {
      GroupRoundTrip(bs[0], bs[1], 0);
      assert BytesOf(Sextets(bs)) == [bs[0], bs[1]];
    } else {
      GroupRoundTrip(bs[0], bs[1], bs[2]);
      var head := [Hi6(bs[0]), Mid6(bs[0], bs[1]), Mid6b(bs[1], bs[2]), Lo6(bs[2])];
      var tail := Sextets(bs[3..]);
      var vs := head + tail;
      assert Sextets(bs) == vs;
      assert vs[4..] == tail;
      BytesOfSextets(bs[3..]);
      assert BytesOf(vs) == [bs[0], bs[1], bs[2]] + bs[3..];
      assert bs == [bs[0], bs[1], bs[2]] + bs[3..];
    }
  }

  /** The encoder writes no whitespace, so `atob` has none to drop. */
  lemma EncodeHasNoWhitespace(bs: seq<Byte>)
    ensures StripWhitespace(Encode(bs)) == Encode(bs)
  {
    var body := CharsOf(Sextets(bs));
    var s := Encode(bs);
    forall i | 0 <= i < |s| ensures !IsAsciiWhitespace(s[i]) {
      if i < |body| { assert s[i] == body[i]; } else { assert s[i] == '='; }
    }
  }

  /** Dropping the padding of a whole number of groups leaves the characters before it. */
  lemma StripPaddingOfPadded(body: string, pad: string)
    requires (|body| + |pad|) % 4 == 0 && |pad| <= 2
    requires forall i :: 0 <= i < |body| ==> body[i] != '='
    requires forall i :: 0 <= i < |pad| ==> pad[i] == '='
    ensures StripPadding(body + pad) == body
  {
    var s := body + pad;
    if |pad| == 2 {
      assert s[..|s| - 2] == body;
    } else if |pad| == 1 {
      assert s[|s| - 2] == body[|body| - 1];
      assert s[..|s| - 1] == body;
    } else if |s| > 0 {
      assert s[|s| - 1] == body[|body| - 1];
      assert s == body;
    }
  }

  /** Dropping the padding of an encoding leaves its alphabet characters. */
  lemma StripPaddingOfEncode(bs: seq<Byte>)
    ensures StripPadding(Encode(bs)) == CharsOf(Sextets(bs))
  {
    var body := CharsOf(Sextets(bs));
    assert Encode(bs) == body + Padding(|bs|);
    StripPaddingOfPadded(body, Padding(|bs|));
  }

  /** Reading the characters of sextets gives the sextets back. */
  lemma SextetsOfChars(vs: seq<Sextet>)
    ensures SextetsOf(CharsOf(vs)) == vs
  {
  }

  /** `atob` reads back exactly the bytes that the encoder wrote. */
  lemma AtobEncode(bs: seq<Byte>)
    ensures Atob(Encode(bs)) == Some(BinaryString(bs))
  {
    EncodeHasNoWhitespace(bs);
    StripPaddingOfEncode(bs);
    SextetsOfChars(Sextets(bs));
    BytesOfSextets(bs);
  }
}
