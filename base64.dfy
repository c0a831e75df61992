/**
 * `Buffer.from(text).toString('base64')`: the text is encoded as UTF-8 and the bytes are
 * written in the base64 alphabet of section 4 of RFC 4648, with `=` padding. Decoding is
 * the inverse used to state that an identifier determines the text it was made from.
 */
module Base64 {
  import opened Wrappers

  type Byte = b: int | 0 <= b < 256
  type Sextet = x: int | 0 <= x < 64

  /** The character for a 6-bit value (Table 1 of RFC 4648). */
  function CharOf(x: Sextet): (c: char)
    ensures c != '='
  {
    if x < 26 then ('A' as int + x) as char
    else if x < 52 then ('a' as int + (x - 26)) as char
    else if x < 62 then ('0' as int + (x - 52)) as char
    else if x == 62 then '+'
    else '/'
  }

  /** The 6-bit value of an alphabet character; `None` for anything else, `=` included. */
  function ValueOf(c: char): Option<Sextet> {
    if 'A' <= c <= 'Z' then Some(c as int - 'A' as int)
    else if 'a' <= c <= 'z' then Some(c as int - 'a' as int + 26)
    else if '0' <= c <= '9' then Some(c as int - '0' as int + 52)
    else if c == '+' then Some(62)
    else if c == '/' then Some(63)
    else None
  }

  lemma ValueOfCharOf(x: Sextet)
    ensures ValueOf(CharOf(x)) == Some(x)
  {
  }

  /** Three bytes as four characters. */
  function EncodeGroup(b0: Byte, b1: Byte, b2: Byte): string {
    [CharOf(b0 / 4), CharOf((b0 % 4) * 16 + b1 / 16), CharOf((b1 % 16) * 4 + b2 / 64), CharOf(b2 % 64)]
  }

  /** Base64 text of a byte sequence; a last group of one or two bytes is padded with `=`. */
  function Encode(b: seq<Byte>): (r: string)
    ensures |r| == 4 * ((|b| + 2) / 3)
    decreases |b|
  {
    if |b| == 0 then []
    else if |b| == 1 then [CharOf(b[0] / 4), CharOf((b[0] % 4) * 16), '=', '=']
    else if |b| == 2 then [CharOf(b[0] / 4), CharOf((b[0] % 4) * 16 + b[1] / 16), CharOf((b[1] % 16) * 4), '=']
    else EncodeGroup(b[0], b[1], b[2]) + Encode(b[3..])
  }

  /** The first byte of a group, from its first two characters. */
  function Join0(v0: Sextet, v1: Sextet): Byte { v0 * 4 + v1 / 16 }

  /** The second byte of a group, from its second and third characters. */
  function Join1(v1: Sextet, v2: Sextet): Byte { (v1 % 16) * 16 + v2 / 4 }

  /** The third byte of a group, from its last two characters. */
  function Join2(v2: Sextet, v3: Sextet): Byte { (v2 % 4) * 64 + v3 }

  /** The bytes of one group of four characters; `=` padding ends the text. */
  function DecodeGroup(c0: char, c1: char, c2: char, c3: char, last: bool): Option<seq<Byte>> {
    var v0, v1, v2, v3 := ValueOf(c0), ValueOf(c1), ValueOf(c2), ValueOf(c3);
    if v0.None? || v1.None? then None
    else if last && c2 == '=' && c3 == '=' then Some([Join0(v0.value, v1.value)])
    else if v2.None? then None
    else if last && c3 == '=' then Some([Join0(v0.value, v1.value), Join1(v1.value, v2.value)])
    else if v3.None? then None
    else Some([Join0(v0.value, v1.value), Join1(v1.value, v2.value), Join2(v2.value, v3.value)])
  }

  /** The bytes of a base64 text, or `None` when it is not well formed. */
  function Decode(s: string): Option<seq<Byte>>
    decreases |s|
  {
    if s == [] then Some([])
    else if |s| < 4 then None
    else
      match DecodeGroup(s[0], s[1], s[2], s[3], |s| == 4)
      case None => None
      case Some(g) =>
        if |g| < 3 then Some(g)
        else
          match Decode(s[4..])
          case None => None
          case Some(rest) => Some(g + rest)
  }

  lemma GroupRoundTrip(b0: Byte, b1: Byte, b2: Byte)
    ensures Join0(b0 / 4, (b0 % 4) * 16 + b1 / 16) == b0
    ensures Join1((b0 % 4) * 16 + b1 / 16, (b1 % 16) * 4 + b2 / 64) == b1
    ensures Join2((b1 % 16) * 4 + b2 / 64, b2 % 64) == b2
  {
  }

  lemma DecodeOne(b0: Byte)
    ensures Decode(Encode([b0])) == Some([b0])
  {
    var s := Encode([b0]);
    ValueOfCharOf(b0 / 4);
    ValueOfCharOf((b0 % 4) * 16);
    GroupRoundTrip(b0, 0, 0);
    assert DecodeGroup(s[0], s[1], s[2], s[3], true) == Some([b0]);
  }

  lemma DecodeTwo(b0: Byte, b1: Byte)
    ensures Decode(Encode([b0, b1])) == Some([b0, b1])
  {
    var s := Encode([b0, b1]);
    ValueOfCharOf(b0 / 4);
    ValueOfCharOf((b0 % 4) * 16 + b1 / 16);
    ValueOfCharOf((b1 % 16) * 4);
    GroupRoundTrip(b0, b1, 0);
    assert DecodeGroup(s[0], s[1], s[2], s[3], true) == Some([b0, b1]);
  }

  lemma DecodeThree(b0: Byte, b1: Byte, b2: Byte, last: bool)
    ensures var g := EncodeGroup(b0, b1, b2);
      DecodeGroup(g[0], g[1], g[2], g[3], last) == Some([b0, b1, b2])
  {
    ValueOfCharOf(b0 / 4);
    ValueOfCharOf((b0 % 4) * 16 + b1 / 16);
    ValueOfCharOf((b1 % 16) * 4 + b2 / 64);
    ValueOfCharOf(b2 % 64);
    GroupRoundTrip(b0, b1, b2);
  }

  /** Decoding an encoding gives the bytes back: base64 loses nothing. */
  lemma {:induction false} DecodeEncode(b: seq<Byte>)
    ensures Decode(Encode(b)) == Some(b)
    decreases |b|
  {
    if |b| == 1 {
      DecodeOne(b[0]);
      assert b == [b[0]];
    } else if |b| == 2 {
      DecodeTwo(b[0], b[1]);
      assert b == [b[0], b[1]];
    } else if |b| >= 3 {
      DecodeEncode(b[3..]);
      DecodeLonger(b);
    }
  }

  lemma SplitThree(b: seq<Byte>)
    requires |b| >= 3
    ensures b == [b[0], b[1], b[2]] + b[3..]
  {
  }

  /** One whole group in front of a text that decodes back. */
  lemma DecodeLonger(b: seq<Byte>)
    requires |b| >= 3 && Decode(Encode(b[3..])) == Some(b[3..])
    ensures Decode(Encode(b)) == Some(b)
  {
    var s := Encode(b);
    var g := EncodeGroup(b[0], b[1], b[2]);
    var t := Encode(b[3..]);
    assert s == g + t;
    assert s[4..] == t;
    assert s[0] == g[0] && s[1] == g[1] && s[2] == g[2] && s[3] == g[3];
    DecodeThree(b[0], b[1], b[2], |s| == 4);
    DecodeFirstGroup(s, [b[0], b[1], b[2]], b[3..]);
    SplitThree(b);
  }

  /** Decoding a text whose first group gives three bytes. */
  lemma DecodeFirstGroup(s: string, head: seq<Byte>, tail: seq<Byte>)
    requires |s| >= 4 && |head| == 3
    requires DecodeGroup(s[0], s[1], s[2], s[3], |s| == 4) == Some(head)
    requires Decode(s[4..]) == Some(tail)
    ensures Decode(s) == Some(head + tail)
  {
  }

  /** Two byte sequences with the same encoding are equal. */
  lemma EncodeInjective(a: seq<Byte>, b: seq<Byte>)
    requires Encode(a) == Encode(b)
    ensures a == b
  {
    DecodeEncode(a);
    DecodeEncode(b);
  }

  /** Encoding works group by group: a prefix of whole groups is encoded on its own. */
  lemma {:induction false} EncodeAppend(a: seq<Byte>, b: seq<Byte>)
    requires |a| % 3 == 0
    ensures Encode(a + b) == Encode(a) + Encode(b)
    decreases |a|
  {
    if a != [] {
      EncodeAppend(a[3..], b);
      assert (a + b)[3..] == a[3..] + b;
    } else {
      assert a + b == b;
    }
  }

  /** The first 16 characters of an encoding depend only on the first 12 bytes. */
  lemma EncodePrefix16(b: seq<Byte>)
    requires |b| >= 12
    ensures |Encode(b)| >= 16 && Encode(b)[..16] == Encode(b[..12])
  {
    assert b == b[..12] + b[12..];
    EncodeAppend(b[..12], b[12..]);
  }

  /** The UTF-8 bytes of one character (RFC 3629). */
  function Utf8Char(c: char): (r: seq<Byte>)
    ensures 1 <= |r| <= 4
    ensures (c as int < 128) == (r == [c as int])
  {
    var n := c as int;
    if n < 0x80 then [n]
    else if n < 0x800 then [0xC0 + n / 64, 0x80 + n % 64]
    else if n < 0x10000 then [0xE0 + n / 4096, 0x80 + (n / 64) % 64, 0x80 + n % 64]
    else [0xF0 + n / 262144, 0x80 + (n / 4096) % 64, 0x80 + (n / 64) % 64, 0x80 + n % 64]
  }

  /** The UTF-8 encoding of a string, which is what `Buffer.from(text)` holds. */
  function Utf8(s: string): (r: seq<Byte>)
    ensures |r| >= |s|
    decreases |s|
  {
    if s == [] then [] else Utf8Char(s[0]) + Utf8(s[1..])
  }

  lemma {:induction false} Utf8Append(a: string, b: string)
    ensures Utf8(a + b) == Utf8(a) + Utf8(b)
    decreases |a|
  {
    if a != [] {
      assert (a + b)[1..] == a[1..] + b;
      Utf8Append(a[1..], b);
    } else {
      assert a + b == b;
    }
  }

  /** The length of a UTF-8 sequence, as its first byte announces it. */
  function Utf8Width(b0: Byte): nat {
    if b0 < 0x80 then 1 else if b0 < 0xE0 then 2 else if b0 < 0xF0 then 3 else 4
  }

  lemma Utf8CharWidth(c: char)
    ensures Utf8Width(Utf8Char(c)[0]) == |Utf8Char(c)|
  {
  }

  /** The code point a UTF-8 sequence of one character spells. */
  function Utf8Value(r: seq<Byte>): int
    requires 1 <= |r| <= 4
  {
    var b := seq(|r|, i requires 0 <= i < |r| => r[i] as int);
    if |b| == 1 then b[0]
    else if |b| == 2 then (b[0] - 0xC0) * 64 + (b[1] - 0x80)
    else if |b| == 3 then (b[0] - 0xE0) * 4096 + (b[1] - 0x80) * 64 + (b[2] - 0x80)
    else (b[0] - 0xF0) * 262144 + (b[1] - 0x80) * 4096 + (b[2] - 0x80) * 64 + (b[3] - 0x80)
  }

  lemma Utf8CharValue(c: char)
    ensures Utf8Value(Utf8Char(c)) == c as int
  {
    var n := c as int;
    assert n == (n / 64) * 64 + n % 64;
    assert n / 64 == (n / 4096) * 64 + (n / 64) % 64;
    assert n / 4096 == (n / 262144) * 64 + (n / 4096) % 64;
  }

  /** Distinct characters have distinct UTF-8 encodings. */
  lemma Utf8CharInjective(c: char, d: char)
    requires Utf8Char(c) == Utf8Char(d)
    ensures c == d
  {
    Utf8CharValue(c);
    Utf8CharValue(d);
  }

  /** UTF-8 loses nothing: the byte sequence determines the text. */
  lemma {:induction false} Utf8Injective(a: string, b: string)
    requires Utf8(a) == Utf8(b)
    ensures a == b
    decreases |a|
  {
    if a != [] && b != [] {
      var ca, cb := Utf8Char(a[0]), Utf8Char(b[0]);
      assert Utf8(a) == ca + Utf8(a[1..]);
      assert Utf8(b) == cb + Utf8(b[1..]);
      assert ca[0] == Utf8(a)[0] == cb[0];
      Utf8CharWidth(a[0]);
      Utf8CharWidth(b[0]);
      assert ca == Utf8(a)[..|ca|] == cb;
      Utf8CharInjective(a[0], b[0]);
      assert Utf8(a[1..]) == Utf8(a)[|ca|..] == Utf8(b[1..]);
      Utf8Injective(a[1..], b[1..]);
      assert a == [a[0]] + a[1..] && b == [b[0]] + b[1..];
    }
  }

  predicate IsAscii(s: string) {
    forall i :: 0 <= i < |s| ==> s[i] as int < 128
  }

  /** On ASCII text UTF-8 is one byte per character, equal to its code. */
  lemma {:induction false} Utf8Ascii(s: string)
    requires IsAscii(s)
    ensures |Utf8(s)| == |s|
    ensures forall i :: 0 <= i < |s| ==> Utf8(s)[i] == s[i] as int
    decreases |s|
  {
    if s != [] {
      assert IsAscii(s[1..]);
      Utf8Ascii(s[1..]);
    }
  }

  /** Encodes a string: `Buffer.from(text).toString('base64')`. */
  function EncodeText(s: string): (r: string)
    ensures Decode(r) == Some(Utf8(s))
  {
    DecodeEncode(Utf8(s));
    Encode(Utf8(s))
  }

  /** Different texts give different identifiers. */
  lemma EncodeTextInjective(a: string, b: string)
    requires EncodeText(a) == EncodeText(b)
    ensures a == b
  {
    Utf8Injective(a, b);
  }
}
