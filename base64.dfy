/** Base64 as gmail_tools.php uses it: PHP's `base64_encode`, the URL-safe
    form of section 5 of RFC 4648 built from it with `strtr` and `rtrim`
    (line 324), and PHP's lenient `base64_decode` after the reverse `str_replace`
    (lines 250 and 273). A PHP string is a byte string: `Bytes` and `Text`
    convert between the model's strings and bytes. */
module Base64 {
  import opened Php

  type Byte = x: int | 0 <= x < 256
  type Sextet = x: int | 0 <= x < 64

  /** The alphabet of section 4 of RFC 4648: `A`-`Z`, `a`-`z`, `0`-`9`, `+`, `/`. */
  function StdChar(v: Sextet): char
  {
    if v < 26 then ('A' as int + v) as char
    else if v < 52 then ('a' as int + v - 26) as char
    else if v < 62 then ('0' as int + v - 52) as char
    else if v == 62 then '+'
    else '/'
  }

  /** The characters of a PHP string, read as bytes. */
  function Bytes(s: string): seq<Byte>
  {
    seq(|s|, i requires 0 <= i < |s| => (s[i] as int) % 256)
  }

  /** Bytes written back as a PHP string. */
  function Text(b: seq<Byte>): (s: string)
    ensures |s| == |b|
  {
    seq(|b|, i requires 0 <= i < |b| => b[i] as char)
  }

  lemma BytesOfText(b: seq<Byte>)
    ensures Bytes(Text(b)) == b
  {
  }

  // ---------------------------------------------------------------- the 6-bit groups

  /** Three bytes make four sextets; a final one or two bytes make two or
      three (section 4 of RFC 4648, before padding). */
  function EncodeSextets(b: seq<Byte>): seq<Sextet>
  {
    if |b| == 0 then []
    else if |b| == 1 then [First(b[0]), Second(b[0], 0)]
    else if |b| == 2 then [First(b[0]), Second(b[0], b[1]), Third(b[1], 0)]
    else [First(b[0]), Second(b[0], b[1]), Third(b[1], b[2]), Fourth(b[2])] + EncodeSextets(b[3..])
  }

  function First(b0: Byte): Sextet
  {
    b0 / 4
  }

  function Second(b0: Byte, b1: Byte): Sextet
  {
    (b0 % 4) * 16 + b1 / 16
  }

  function Third(b1: Byte, b2: Byte): Sextet
  {
    (b1 % 16) * 4 + b2 / 64
  }

  function Fourth(b2: Byte): Sextet
  {
    b2 % 64
  }

  function Hi(x: Sextet, y: Sextet): Byte
  {
    x * 4 + y / 16
  }

  function Mid(y: Sextet, z: Sextet): Byte
  {
    (y % 16) * 16 + z / 4
  }

  function Lo(z: Sextet, w: Sextet): Byte
  {
    (z % 4) * 64 + w
  }

  /** The decoder's switch on `i % 4`: four sextets give three bytes; a
      final two or three give one or two; a final single sextet gives none. */
  function DecodeSextets(x: seq<Sextet>): seq<Byte>
  {
    if |x| < 2 then []
    else if |x| == 2 then [Hi(x[0], x[1])]
    else if |x| == 3 then [Hi(x[0], x[1]), Mid(x[1], x[2])]
    else [Hi(x[0], x[1]), Mid(x[1], x[2]), Lo(x[2], x[3])] + DecodeSextets(x[4..])
  }

  lemma GroupRoundTrip(b0: Byte, b1: Byte, b2: Byte)
    ensures Hi(First(b0), Second(b0, b1)) == b0
    ensures Mid(Second(b0, b1), Third(b1, b2)) == b1
    ensures Lo(Third(b1, b2), Fourth(b2)) == b2
  {
  }

  /** Decoding the sextets of any bytes gives the bytes back. */
  lemma {:induction false} SextetsRoundTrip(b: seq<Byte>)
    ensures DecodeSextets(EncodeSextets(b)) == b
    decreases |b|
  {
    if |b| == 1 {
      ShortRoundTrip(b);
    } else if |b| == 2 {
      ShortRoundTrip(b);
    } else if |b| >= 3 {
      SextetsRoundTrip(b[3..]);
      GroupStep(b);
    }
  }

  lemma ShortRoundTrip(b: seq<Byte>)
    requires 1 <= |b| <= 2
    ensures DecodeSextets(EncodeSextets(b)) == b
  {
    if |b| == 1 {
      OneByteRoundTrip(b);
    } else {
      TwoBytesRoundTrip(b);
    }
  }

  lemma OneByteRoundTrip(b: seq<Byte>)
    requires |b| == 1
    ensures DecodeSextets(EncodeSextets(b)) == b
  {
    var x := EncodeSextets(b);
    assert x == [First(b[0]), Second(b[0], 0)];
    assert DecodeSextets(x) == [Hi(x[0], x[1])];
    assert Hi(First(b[0]), Second(b[0], 0)) == b[0];
  }

  lemma TwoBytesRoundTrip(b: seq<Byte>)
    requires |b| == 2
    ensures DecodeSextets(EncodeSextets(b)) == b
  {
    var x := EncodeSextets(b);
    assert x == [First(b[0]), Second(b[0], b[1]), Third(b[1], 0)];
    assert DecodeSextets(x) == [Hi(x[0], x[1]), Mid(x[1], x[2])];
    GroupRoundTrip(b[0], b[1], 0);
    assert b == [b[0], b[1]];
  }

  lemma GroupStep(b: seq<Byte>)
    requires |b| >= 3
    requires DecodeSextets(EncodeSextets(b[3..])) == b[3..]
    ensures DecodeSextets(EncodeSextets(b)) == b
  {
    var rest := EncodeSextets(b[3..]);
    EncodeFront(b);
    GroupDecodes(b[0], b[1], b[2], rest);
    SplitThree(b);
  }

  lemma SplitThree<T>(b: seq<T>)
    requires |b| >= 3
    ensures b == [b[0], b[1], b[2]] + b[3..]
  {
  }

  /** Three or more bytes start with the four sextets of the first three. */
  lemma EncodeFront(b: seq<Byte>)
    requires |b| >= 3
    ensures EncodeSextets(b) == [First(b[0]), Second(b[0], b[1]), Third(b[1], b[2]), Fourth(b[2])] + EncodeSextets(b[3..])
  {
  }

  /** The four sextets of three bytes, in front of any sextets, decode to
      those bytes in front of what the rest decodes to. */
  lemma GroupDecodes(b0: Byte, b1: Byte, b2: Byte, rest: seq<Sextet>)
    ensures DecodeSextets([First(b0), Second(b0, b1), Third(b1, b2), Fourth(b2)] + rest)
            == [b0, b1, b2] + DecodeSextets(rest)
  {
    var g := [First(b0), Second(b0, b1), Third(b1, b2), Fourth(b2)];
    DecodeGroup(g, rest);
    GroupRoundTrip(b0, b1, b2);
  }

  /** A leading group of four sextets decodes to three bytes. */
  lemma DecodeGroup(g: seq<Sextet>, rest: seq<Sextet>)
    requires |g| == 4
    ensures DecodeSextets(g + rest) == [Hi(g[0], g[1]), Mid(g[1], g[2]), Lo(g[2], g[3])] + DecodeSextets(rest)
  {
    var x := g + rest;
    assert x[4..] == rest;
    assert x[0] == g[0] && x[1] == g[1] && x[2] == g[2] && x[3] == g[3];
  }

  // ---------------------------------------------------------------- encoding (line 324)

  function StdChars(x: seq<Sextet>): (s: string)
    ensures |s| == |x|
  {
    seq(|x|, i requires 0 <= i < |x| => StdChar(x[i]))
  }

  function Padding(n: nat): (s: string)
    ensures |s| == n
    ensures forall i :: 0 <= i < n ==> s[i] == '='
  {
    if n == 0 then "" else "=" + Padding(n - 1)
  }

  /** `base64_encode`: the characters of the sextets, padded with `=` to a
      multiple of four. */
  function Encode(b: seq<Byte>): string
  {
    var x := EncodeSextets(b);
    StdChars(x) + Padding(if |b| % 3 == 0 then 0 else 3 - |b| % 3)
  }

  /** `strtr($s, '+/', '-_')` */
  function Strtr(s: string): (r: string)
    ensures |r| == |s|
  {
    seq(|s|, i requires 0 <= i < |s| => if s[i] == '+' then '-' else if s[i] == '/' then '_' else s[i])
  }

  /** `rtrim($s, '=')` */
  function RTrimPad(s: string): (r: string)
    ensures |r| <= |s|
  {
    if |s| > 0 && s[|s| - 1] == '=' then RTrimPad(s[..|s| - 1]) else s
  }

  /** Line 324: the URL-safe form, without padding. */
  function UrlEncode(b: seq<Byte>): string
  {
    RTrimPad(Strtr(Encode(b)))
  }

  /** The alphabet of section 5 of RFC 4648: `-` and `_` in place of `+` and `/`. */
  function UrlChar(v: Sextet): char
  {
    if v == 62 then '-' else if v == 63 then '_' else StdChar(v)
  }

  function UrlChars(x: seq<Sextet>): (s: string)
    ensures |s| == |x|
  {
    seq(|x|, i requires 0 <= i < |x| => UrlChar(x[i]))
  }

  lemma {:induction false} RTrimPadding(s: string, n: nat)
    requires |s| == 0 || s[|s| - 1] != '='
    ensures RTrimPad(s + Padding(n)) == s
    decreases n
  {
    if n == 0 {
      assert s + Padding(0) == s;
    } else {
      var t := s + Padding(n);
      assert Padding(n) == Padding(n - 1) + "=" by { PaddingSnoc(n); }
      assert t == (s + Padding(n - 1)) + "=";
      assert t[..|t| - 1] == s + Padding(n - 1);
      RTrimPadding(s, n - 1);
    }
  }

  lemma {:induction false} PaddingSnoc(n: nat)
    requires n > 0
    ensures Padding(n) == Padding(n - 1) + "="
    decreases n
  {
    if n > 1 {
      PaddingSnoc(n - 1);
    }
  }

  lemma {:induction false} StrtrPadding(n: nat)
    ensures Strtr(Padding(n)) == Padding(n)
    decreases n
  {
    if n > 0 {
      StrtrPadding(n - 1);
    }
  }

  /** Any byte gives at least two characters. */
  lemma UrlEncodeOfNonEmpty(b: seq<Byte>)
    requires b != []
    ensures |UrlEncode(b)| >= 2
  {
    UrlEncodeIsUrlChars(b);
    if |b| >= 3 {
      assert EncodeSextets(b)[..4] == [First(b[0]), Second(b[0], b[1]), Third(b[1], b[2]), Fourth(b[2])];
    }
  }

  /** The URL-safe text is the sextets written in the URL alphabet, with no
      padding left. */
  lemma UrlEncodeIsUrlChars(b: seq<Byte>)
    ensures UrlEncode(b) == UrlChars(EncodeSextets(b))
  {
    var x := EncodeSextets(b);
    var n: nat := if |b| % 3 == 0 then 0 else 3 - |b| % 3;
    assert Strtr(StdChars(x) + Padding(n)) == Strtr(StdChars(x)) + Strtr(Padding(n));
    StrtrPadding(n);
    assert Strtr(StdChars(x)) == UrlChars(x);
    RTrimPadding(UrlChars(x), n);
  }

  /** The encoded text never holds `+`, `/` or `=`. */
  lemma UrlEncodeIsUrlSafe(b: seq<Byte>)
    ensures forall i :: 0 <= i < |UrlEncode(b)| ==> UrlEncode(b)[i] != '+' && UrlEncode(b)[i] != '/' && UrlEncode(b)[i] != '='
  {
    UrlEncodeIsUrlChars(b);
  }

  // ---------------------------------------------------------------- decoding (lines 250, 273)

  /** `str_replace(['-', '_'], ['+', '/'], $s)` */
  function UrlToStd(s: string): (r: string)
    ensures |r| == |s|
  {
    seq(|s|, i requires 0 <= i < |s| => if s[i] == '-' then '+' else if s[i] == '_' then '/' else s[i])
  }

  function SextetOf(c: char): Option<Sextet>
  {
    if 'A' <= c <= 'Z' then Some(c as int - 'A' as int)
    else if 'a' <= c <= 'z' then Some(c as int - 'a' as int + 26)
    else if '0' <= c <= '9' then Some(c as int - '0' as int + 52)
    else if c == '+' then Some(62)
    else if c == '/' then Some(63)
    else None
  }

  /** Non-strict `base64_decode` skips `=` and every character outside the
      alphabet, and decodes the sextets that remain. */
  function Sextets(s: string): seq<Sextet>
  {
    if s == [] then []
    else match SextetOf(s[0])
      case Some(v) => [v] + Sextets(s[1..])
      case None => Sextets(s[1..])
  }

  function Decode(s: string): seq<Byte>
  {
    DecodeSextets(Sextets(s))
  }

  /** Lines 250 and 273: the URL alphabet mapped back, then decoded. */
  function UrlDecode(s: string): seq<Byte>
  {
    Decode(UrlToStd(s))
  }

  lemma {:induction false} SextetsOfStdChars(x: seq<Sextet>)
    ensures Sextets(StdChars(x)) == x
  {
    if x != [] {
      var s := StdChars(x);
      assert s[1..] == StdChars(x[1..]);
      SextetsOfStdChars(x[1..]);
      assert SextetOf(StdChar(x[0])) == Some(x[0]);
    }
  }

  /** Line 250 undoes line 324: decoding the URL-safe text gives the bytes back. */
  lemma UrlRoundTrip(b: seq<Byte>)
    ensures UrlDecode(UrlEncode(b)) == b
  {
    var x := EncodeSextets(b);
    UrlEncodeIsUrlChars(b);
    assert UrlToStd(UrlChars(x)) == StdChars(x);
    SextetsOfStdChars(x);
    SextetsRoundTrip(b);
  }

  /** Characters outside the alphabet, line breaks for instance, are skipped. */
  lemma DecodeSkipsForeign(s: string, t: string, c: char)
    requires SextetOf(c).None?
    ensures Sextets(s + [c] + t) == Sextets(s + t)
  {
    assert s + [c] + t == s + ([c] + t);
    SextetsAppend(s, [c] + t);
    SextetsAppend(s, t);
    assert ([c] + t)[1..] == t;
  }

  lemma {:induction false} SextetsAppend(s: string, t: string)
    ensures Sextets(s + t) == Sextets(s) + Sextets(t)
  {
    if s != [] {
      assert (s + t)[0] == s[0] && (s + t)[1..] == s[1..] + t;
      SextetsAppend(s[1..], t);
    } else {
      assert s + t == t;
    }
  }
}
