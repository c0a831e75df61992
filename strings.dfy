/**
 * String primitives with JavaScript's semantics: the `\s` character class (which is also
 * the set `String.prototype.trim` removes), `trim`, `substring(0, n)`, `startsWith`,
 * `includes`, `toLowerCase` on the letters the feeds use, the number-to-text conversion
 * of template literals, and the "replace every run of a class by one space" rewriting
 * performed by `replace(/[\n\r\t]+/g, ' ')` and `replace(/\s+/g, ' ')`.
 */
module Strings {

  /** A character of JavaScript's `\s` class (WhiteSpace and LineTerminator). */
  predicate IsSpace(c: char) {
    c == '\t' || c == '\n' || c == '\U{B}' || c == '\U{C}' || c == '\r' || c == ' '
    || c == '\U{A0}' || c == '\U{1680}' || ('\U{2000}' <= c <= '\U{200A}')
    || c == '\U{2028}' || c == '\U{2029}' || c == '\U{202F}' || c == '\U{205F}'
    || c == '\U{3000}' || c == '\U{FEFF}'
  }

  /** No character of `s` is white space. */
  predicate NoSpace(s: string) {
    forall i :: 0 <= i < |s| ==> !IsSpace(s[i])
  }

  /** Neither end of `s` is white space: what `trim` guarantees. */
  predicate Trimmed(s: string) {
    s == [] || (!IsSpace(s[0]) && !IsSpace(s[|s| - 1]))
  }

  /** Leading white space removed (`trimStart`). */
  function TrimStart(s: string): (r: string)
    ensures |r| <= |s| && r == s[|s| - |r|..]
    ensures r == [] || !IsSpace(r[0])
    ensures forall k :: 0 <= k < |s| - |r| ==> IsSpace(s[k])
  {
    if s != [] && IsSpace(s[0]) then TrimStart(s[1..]) else s
  }

  /** Trailing white space removed (`trimEnd`). */
  function TrimEnd(s: string): (r: string)
    ensures |r| <= |s| && r == s[..|r|]
    ensures r == [] || !IsSpace(r[|r| - 1])
    ensures forall k :: |r| <= k < |s| ==> IsSpace(s[k])
  {
    if s != [] && IsSpace(s[|s| - 1]) then TrimEnd(s[..|s| - 1]) else s
  }

  /** `String.prototype.trim`. */
  function Trim(s: string): (r: string)
    ensures Trimmed(r)
    ensures |r| <= |s|
  {
    TrimEnd(TrimStart(s))
  }

  lemma {:induction false} TrimStartOfTrimmed(s: string)
    requires s == [] || !IsSpace(s[0])
    ensures TrimStart(s) == s
  {
  }

  lemma {:induction false} TrimEndOfTrimmed(s: string)
    requires s == [] || !IsSpace(s[|s| - 1])
    ensures TrimEnd(s) == s
  {
  }

  /** `trim` leaves a string that is already trimmed alone. */
  lemma TrimIdempotent(s: string)
    ensures Trim(Trim(s)) == Trim(s)
  {
    var t := Trim(s);
    TrimStartOfTrimmed(t);
    TrimEndOfTrimmed(t);
  }

  /** Trimming the end of a string that starts outside white space keeps its first character. */
  lemma TrimEndKeepsHead(s: string)
    requires s != [] && !IsSpace(s[0])
    ensures TrimEnd(s) != [] && TrimEnd(s)[0] == s[0]
  {
    if TrimEnd(s) == [] {
      assert false;
    }
  }

  /** Trimming the start of `a + b`, where `b` starts outside white space, trims only `a`. */
  lemma {:induction false} TrimStartAppend(a: string, b: string)
    requires b != [] && !IsSpace(b[0])
    ensures TrimStart(a + b) == TrimStart(a) + b
    decreases |a|
  {
    if a == [] {
      assert a + b == b;
      TrimStartOfTrimmed(b);
    } else {
      assert (a + b)[1..] == a[1..] + b;
      if IsSpace(a[0]) { TrimStartAppend(a[1..], b); }
    }
  }

  /** `s.substring(0, n)` on strings and `s.slice(0, n)` on arrays, for `n >= 0`. */
  function Take<T>(s: seq<T>, n: nat): (r: seq<T>)
    ensures |r| == if |s| <= n then |s| else n
    ensures r == s[..|r|]
  {
    if |s| <= n then s else s[..n]
  }

  /** `s.startsWith(p)`. */
  predicate StartsWith(s: string, p: string) {
    |p| <= |s| && s[..|p|] == p
  }

  /** `s.includes(sub)`: `sub` occurs in `s` at some position. */
  predicate Contains(s: string, sub: string)
    decreases |s|
  {
    StartsWith(s, sub) || (s != [] && Contains(s[1..], sub))
  }

  /** The first position of `c` in `s`, or -1. */
  function IndexOf(s: string, c: char): (i: int)
    ensures -1 <= i < |s|
    ensures i >= 0 ==> s[i] == c && c !in s[..i]
    ensures i == -1 ==> c !in s
  {
    if s == [] then -1
    else if s[0] == c then 0
    else
      var j := IndexOf(s[1..], c);
      assert j >= 0 ==> s[..j + 1] == [s[0]] + s[1..][..j];
      if j < 0 then -1 else j + 1
  }

  /** The first `c` of `x + [c] + y` is the one after `x` when `x` has none. */
  lemma IndexOfAfter(x: string, c: char, y: string)
    requires c !in x
    ensures IndexOf(x + [c] + y, c) == |x|
  {
    var s := x + [c] + y;
    assert s[..|x|] == x && s[|x|] == c;
    var i := IndexOf(s, c);
  }

  /** JavaScript's `a || b` on strings: the empty string is falsy. */
  function OrElse(a: string, b: string): string {
    if a != "" then a else b
  }

  /** `s.replace(c, '')` with a one-character pattern: removes the first occurrence only. */
  function RemoveFirst(s: string, c: char): (r: string)
    ensures c in s ==> |r| == |s| - 1 && r == s[..IndexOf(s, c)] + s[IndexOf(s, c) + 1..]
    ensures c !in s ==> r == s
  {
    if s == [] then s
    else if s[0] == c then s[1..]
    else
      var r := [s[0]] + RemoveFirst(s[1..], c);
      assert c in s ==> c in s[1..] && IndexOf(s, c) == IndexOf(s[1..], c) + 1;
      assert c in s ==> s[..IndexOf(s, c)] == [s[0]] + s[1..][..IndexOf(s[1..], c)];
      assert c in s ==> s[IndexOf(s, c) + 1..] == s[1..][IndexOf(s[1..], c) + 1..];
      r
  }

  /**
   * Lower case of one character: the ASCII capitals, the Cyrillic capitals of
   * U+0400..U+042F and the Kelvin sign U+212A, which lowers to 'k'; every other character
   * is left unchanged. (U+0130 lowers to two characters, see `LowerText`.)
   */
  function LowerChar(c: char): char {
    if 'A' <= c <= 'Z' then (c as int + 32) as char
    else if 'А' <= c <= 'Я' then (c as int + 32) as char
    else if 'Ѐ' <= c <= 'Џ' then (c as int + 80) as char
    else if c == '\U{212A}' then 'k'
    else c
  }

  /** What `toLowerCase` writes for one character: the capital I with dot above, U+0130,
      becomes 'i' followed by the combining dot U+0307; every other character one `LowerChar`. */
  function LowerText(c: char): (r: string)
    ensures |r| == (if c == '\U{130}' then 2 else 1)
  {
    if c == '\U{130}' then ['i', '\U{307}'] else [LowerChar(c)]
  }

  /** `toLowerCase`, character by character. Without U+0130 the length is kept and each
      character is lowered in place. */
  function ToLower(s: string): (r: string)
    ensures |r| >= |s|
    ensures (forall i :: 0 <= i < |s| ==> s[i] != '\U{130}') ==>
      |r| == |s| && forall i :: 0 <= i < |s| ==> r[i] == LowerChar(s[i])
  {
    if s == [] then [] else LowerText(s[0]) + ToLower(s[1..])
  }

  /** Every character of the lowered text comes from lowering one character of the input. */
  lemma {:induction false} LowerMembers(s: string, d: char)
    requires d in ToLower(s)
    ensures exists j :: 0 <= j < |s| && d in LowerText(s[j])
  {
    if d in LowerText(s[0]) {
    } else {
      assert d in ToLower(s[1..]);
      LowerMembers(s[1..], d);
      var j :| 0 <= j < |s[1..]| && d in LowerText(s[1..][j]);
      assert s[1..][j] == s[j + 1];
    }
  }

  /** A decimal digit, as `\d` matches it (ASCII only). */
  predicate IsDigit(c: char) {
    '0' <= c <= '9'
  }

  function DigitChar(d: nat): (c: char)
    requires d < 10
    ensures IsDigit(c)
  {
    ('0' as int + d) as char
  }

  /** The decimal text of a natural number, as `${n}` gives it. */
  function NatToString(n: nat): (r: string)
    ensures |r| > 0
    ensures forall i :: 0 <= i < |r| ==> IsDigit(r[i])
    decreases n
  {
    if n < 10 then [DigitChar(n)] else NatToString(n / 10) + [DigitChar(n % 10)]
  }

  /** The value of a string of decimal digits (the inverse of NatToString). */
  function DigitsValue(s: string): nat
    requires forall i :: 0 <= i < |s| ==> IsDigit(s[i])
    decreases |s|
  {
    if s == [] then 0
    else
      assert IsDigit(s[|s| - 1]);
      10 * DigitsValue(s[..|s| - 1]) + (s[|s| - 1] as int - '0' as int)
  }

  /** Reading back the decimal text of `n` gives `n`: the rendering is injective. */
  lemma {:induction false} NatToStringRoundTrip(n: nat)
    ensures DigitsValue(NatToString(n)) == n
    decreases n
  {
    var r := NatToString(n);
    if n >= 10 {
      NatToStringRoundTrip(n / 10);
      assert r[..|r| - 1] == NatToString(n / 10);
    }
  }

  lemma NatToStringInjective(m: nat, n: nat)
    requires NatToString(m) == NatToString(n)
    ensures m == n
  {
    NatToStringRoundTrip(m);
    NatToStringRoundTrip(n);
  }

  predicate AllDigits(s: string) {
    forall i :: 0 <= i < |s| ==> IsDigit(s[i])
  }

  /** A decimal number followed by a non-digit separator splits back off: `${a}_${b}`
      determines both `a` and `b`. */
  lemma DigitsThenSeparator(a: string, c: string, sep: char, b: string, d: string)
    requires AllDigits(a) && AllDigits(c) && !IsDigit(sep)
    requires a + [sep] + b == c + [sep] + d
    ensures a == c && b == d
  {
    if |a| <= |c| {
      ShorterDigitsThenSeparator(a, c, sep, b, d);
    } else {
      ShorterDigitsThenSeparator(c, a, sep, d, b);
    }
  }

  lemma ShorterDigitsThenSeparator(a: string, c: string, sep: char, b: string, d: string)
    requires |a| <= |c| && AllDigits(c) && !IsDigit(sep)
    requires a + [sep] + b == c + [sep] + d
    ensures a == c && b == d
  {
    var s := a + [sep] + b;
    assert s[|a|] == sep;
    assert a == s[..|a|] == c;
    assert b == s[|a| + 1..] == d;
  }

  /** Equal strings with a common prefix have equal remainders. */
  lemma CancelPrefix(p: string, x: string, y: string)
    requires p + x == p + y
    ensures x == y
  {
    assert x == (p + x)[|p|..];
    assert y == (p + y)[|p|..];
  }

  /** The characters replaced by one of the two run-collapsing rewritings. */
  datatype CharClass =
    | LineBreaks   // [\n\r\t]
    | Spaces       // \s

  predicate InClass(cls: CharClass, c: char) {
    match cls
    case LineBreaks => c == '\n' || c == '\r' || c == '\t'
    case Spaces => IsSpace(c)
  }

  /** Skips the characters of `cls` at the front of `s`. */
  function DropClass(cls: CharClass, s: string): (r: string)
    ensures |r| <= |s| && r == s[|s| - |r|..]
    ensures r == [] || !InClass(cls, r[0])
    decreases |s|
  {
    if s != [] && InClass(cls, s[0]) then DropClass(cls, s[1..]) else s
  }

  /** `s.replace(/[cls]+/g, ' ')`: every maximal run of characters of `cls` becomes one space. */
  function CollapseRuns(cls: CharClass, s: string): (r: string)
    ensures |r| <= |s|
    decreases |s|
  {
    if s == [] then []
    else if InClass(cls, s[0]) then " " + CollapseRuns(cls, DropClass(cls, s[1..]))
    else [s[0]] + CollapseRuns(cls, s[1..])
  }

  /** Every white-space character of `s` is a plain space and no two of them are adjacent. */
  predicate SingleSpaced(s: string) {
    forall i :: 0 <= i < |s| && IsSpace(s[i]) ==> s[i] == ' ' && (i + 1 < |s| ==> !IsSpace(s[i + 1]))
  }

  /** No character of `s` is a line break or a tab. */
  predicate NoLineBreaks(s: string) {
    forall i :: 0 <= i < |s| ==> !InClass(LineBreaks, s[i])
  }

  /** A collapsed string starts with the same character class as its input. */
  lemma {:induction false} CollapseHead(cls: CharClass, s: string)
    requires s != []
    ensures CollapseRuns(cls, s) != []
    ensures CollapseRuns(cls, s)[0] == if InClass(cls, s[0]) then ' ' else s[0]
  {
  }

  /** After `replace(/\s+/g, ' ')` every white-space run is one plain space. */
  lemma {:induction false} CollapseSpacesSingleSpaced(s: string)
    ensures SingleSpaced(CollapseRuns(Spaces, s))
    decreases |s|
  {
    if s != [] {
      var r := CollapseRuns(Spaces, s);
      if IsSpace(s[0]) {
        var rest := DropClass(Spaces, s[1..]);
        CollapseSpacesSingleSpaced(rest);
        if rest != [] { CollapseHead(Spaces, rest); }
        assert r == " " + CollapseRuns(Spaces, rest);
      } else {
        CollapseSpacesSingleSpaced(s[1..]);
        assert r == [s[0]] + CollapseRuns(Spaces, s[1..]);
      }
    }
  }

  /** After `replace(/[\n\r\t]+/g, ' ')` no line break or tab is left. */
  lemma {:induction false} CollapseLineBreaksClean(s: string)
    ensures NoLineBreaks(CollapseRuns(LineBreaks, s))
    decreases |s|
  {
    if s != [] {
      if InClass(LineBreaks, s[0]) {
        CollapseLineBreaksClean(DropClass(LineBreaks, s[1..]));
      } else {
        CollapseLineBreaksClean(s[1..]);
      }
    }
  }

  /** Collapsing only ever writes plain spaces: every other output character comes from the input. */
  lemma {:induction false} CollapseChars(cls: CharClass, s: string)
    ensures forall c :: c in CollapseRuns(cls, s) ==> c == ' ' || c in s
    decreases |s|
  {
    if s != [] {
      if InClass(cls, s[0]) {
        var rest := DropClass(cls, s[1..]);
        CollapseChars(cls, rest);
        assert forall c :: c in rest ==> c in s;
      } else {
        CollapseChars(cls, s[1..]);
      }
    }
  }

  /** Collapsing white space changes nothing in a single-spaced string. */
  lemma {:induction false} CollapseSpacesIdentity(s: string)
    requires SingleSpaced(s)
    ensures CollapseRuns(Spaces, s) == s
    decreases |s|
  {
    if s != [] {
      assert SingleSpaced(s[1..]);
      if IsSpace(s[0]) {
        assert DropClass(Spaces, s[1..]) == s[1..];
      }
      CollapseSpacesIdentity(s[1..]);
    }
  }

  /** Collapsing line breaks changes nothing in a string without line breaks. */
  lemma {:induction false} CollapseLineBreaksIdentity(s: string)
    requires NoLineBreaks(s)
    ensures CollapseRuns(LineBreaks, s) == s
    decreases |s|
  {
    if s != [] {
      assert NoLineBreaks(s[1..]);
      CollapseLineBreaksIdentity(s[1..]);
    }
  }

  lemma SingleSpacedPrefix(s: string, n: nat)
    requires SingleSpaced(s) && n <= |s|
    ensures SingleSpaced(s[..n])
  {
  }

  lemma SingleSpacedSuffix(s: string, n: nat)
    requires SingleSpaced(s) && n <= |s|
    ensures SingleSpaced(s[n..])
  {
    var t := s[n..];
    forall i | 0 <= i < |t| && IsSpace(t[i])
      ensures t[i] == ' ' && (i + 1 < |t| ==> !IsSpace(t[i + 1]))
    {
      assert t[i] == s[n + i];
      if i + 1 < |t| { assert t[i + 1] == s[n + i + 1]; }
    }
  }

  /** Trimming keeps a string single-spaced. */
  lemma TrimSingleSpaced(s: string)
    requires SingleSpaced(s)
    ensures SingleSpaced(Trim(s))
  {
    var t := TrimStart(s);
    SingleSpacedSuffix(s, |s| - |t|);
    SingleSpacedPrefix(t, |TrimEnd(t)|);
  }
}
