/**
 * The text helpers the two Telegram parsers share (they are identical in both files):
 * the "is this Russian" test, the title taken from the first sentence, and the
 * whitespace clean-up with its 500-character cap.
 */
module TextFilter {
  import opened Strings

  /**
   * A character matched by `/[а-яё]/i`. Case-insensitive matching compares upper-case
   * forms, so besides а..я, ё and their capitals it also matches the historic small
   * letters U+1C80..U+1C86, whose upper-case forms are В, Д, О, С, Т, Т and Ъ.
   */
  predicate IsCyrillic(c: char) {
    ('а' <= c <= 'я') || c == 'ё' || ('А' <= c <= 'Я') || c == 'Ё' || ('\U{1C80}' <= c <= '\U{1C86}')
  }

  /** A character matched by `/[a-z]/i`: only ASCII letters, since a non-ASCII character never
      matches an ASCII one under non-Unicode case folding. */
  predicate IsLatin(c: char) {
    ('a' <= c <= 'z') || ('A' <= c <= 'Z')
  }

  function CountCyrillic(s: string): (n: nat)
    ensures n <= |s|
  {
    if s == [] then 0 else (if IsCyrillic(s[0]) then 1 else 0) + CountCyrillic(s[1..])
  }

  function CountLatin(s: string): (n: nat)
    ensures n <= |s|
  {
    if s == [] then 0 else (if IsLatin(s[0]) then 1 else 0) + CountLatin(s[1..])
  }

  /** The number of matches of `/[а-яёa-z]/gi`; the two classes are disjoint. */
  function CountLetters(s: string): nat {
    CountCyrillic(s) + CountLatin(s)
  }

  /** `isRussianText`: non-empty and more than 30% of its letters are Cyrillic. */
  predicate IsRussianText(text: string) {
    var cyrillic, total := CountCyrillic(text), CountLetters(text);
    text != "" && cyrillic > 0 && total > 0 && (cyrillic as real) / (total as real) > 0.3
  }

  lemma {:induction false} CountsAppend(a: string, b: string)
    ensures CountCyrillic(a + b) == CountCyrillic(a) + CountCyrillic(b)
    ensures CountLatin(a + b) == CountLatin(a) + CountLatin(b)
    decreases |a|
  {
    if a == [] {
      assert a + b == b;
    } else {
      CountsAppend(a[1..], b);
      assert (a + b)[0] == a[0];
      assert (a + b)[1..] == a[1..] + b;
    }
  }

  lemma {:induction false} NoCyrillicCount(s: string)
    requires forall i :: 0 <= i < |s| ==> !IsCyrillic(s[i])
    ensures CountCyrillic(s) == 0
    decreases |s|
  {
    if s != [] { NoCyrillicCount(s[1..]); }
  }

  lemma {:induction false} AllCyrillicCount(s: string)
    requires forall i :: 0 <= i < |s| ==> IsCyrillic(s[i])
    ensures CountCyrillic(s) == |s| && CountLatin(s) == 0
    decreases |s|
  {
    if s != [] { AllCyrillicCount(s[1..]); }
  }

  /** The ratio test in integers: more than 3 Cyrillic letters in every 10 letters. */
  lemma RussianByCounts(text: string)
    ensures IsRussianText(text) <==>
      CountCyrillic(text) > 0 && 10 * CountCyrillic(text) > 3 * CountLetters(text)
  {
    if CountCyrillic(text) > 0 {
      assert text != "";
      RatioAbove(CountCyrillic(text) as real, CountLetters(text) as real);
    }
  }

  lemma RatioAbove(c: real, t: real)
    requires t > 0.0
    ensures c / t > 0.3 <==> 10.0 * c > 3.0 * t
  {
    var q := c / t;
    assert q * t == c;
    if q > 0.3 {
      assert q * t > 0.3 * t;
    } else {
      assert q * t <= 0.3 * t;
    }
  }

  /** A text without Cyrillic letters is never Russian, whatever else it holds. */
  lemma NotRussianWithoutCyrillic(text: string)
    requires forall i :: 0 <= i < |text| ==> !IsCyrillic(text[i])
    ensures !IsRussianText(text)
  {
    NoCyrillicCount(text);
  }

  /** A non-empty text of Cyrillic letters only is Russian. */
  lemma RussianWhenAllCyrillic(text: string)
    requires text != []
    requires forall i :: 0 <= i < |text| ==> IsCyrillic(text[i])
    ensures IsRussianText(text)
  {
    AllCyrillicCount(text);
    RussianByCounts(text);
  }

  /** Joining two Russian texts (as `title + ' ' + snippet` does) gives a Russian text. */
  lemma RussianConcat(a: string, sep: string, b: string)
    requires IsRussianText(a) && IsRussianText(b)
    requires forall i :: 0 <= i < |sep| ==> !IsCyrillic(sep[i]) && !IsLatin(sep[i])
    ensures IsRussianText(a + sep + b)
  {
    RussianByCounts(a);
    RussianByCounts(b);
    NoCyrillicCount(sep);
    assert CountLatin(sep) == 0 by { NoLatinCount(sep); }
    CountsAppend(a, sep);
    CountsAppend(a + sep, b);
    RussianByCounts(a + sep + b);
  }

  lemma {:induction false} NoLatinCount(s: string)
    requires forall i :: 0 <= i < |s| ==> !IsLatin(s[i])
    ensures CountLatin(s) == 0
    decreases |s|
  {
    if s != [] { NoLatinCount(s[1..]); }
  }

  /** A match of `/[.!?]\s+/` starts at `i`. */
  predicate BreakAt(s: string, i: nat) {
    i + 1 < |s| && (s[i] == '.' || s[i] == '!' || s[i] == '?') && IsSpace(s[i + 1])
  }

  /** The start of the first sentence break at or after `from`, or `|s|` if there is none. */
  function SentenceEnd(s: string, from: nat): (i: nat)
    requires from <= |s|
    ensures from <= i <= |s|
    ensures forall k :: from <= k < i ==> !BreakAt(s, k)
    ensures i < |s| ==> BreakAt(s, i)
    decreases |s| - from
  {
    if from == |s| then |s| else if BreakAt(s, from) then from else SentenceEnd(s, from + 1)
  }

  /** `text.split(/[.!?]\s+/)[0]`: the text before the first sentence break. */
  function FirstSentence(text: string): (r: string)
    ensures StartsWith(text, r)
    ensures forall k :: 0 <= k < |r| ==> !BreakAt(text, k)
    ensures |r| < |text| ==> BreakAt(text, |r|)
  {
    text[..SentenceEnd(text, 0)]
  }

  /** `extractTitle`: the first sentence (the whole text when that is empty), cut to 97
      characters plus "..." when longer than 100, then trimmed. */
  function ExtractTitle(text: string): (r: string)
    ensures |r| <= 100
    ensures Trimmed(r)
    ensures text == "" ==> r == "Без заголовка"
  {
    if text == "" then "Без заголовка"
    else
      var title := OrElse(FirstSentence(text), text);
      Trim(if |title| > 100 then title[..97] + "..." else title)
  }

  /** A short, trimmed first sentence followed by ". " is the title. */
  lemma ExtractTitleFirstSentence(p: string, q: string)
    requires p != [] && |p| <= 100 && Trimmed(p)
    requires forall k :: 0 <= k < |p| ==> !BreakAt(p + ". " + q, k)
    ensures ExtractTitle(p + ". " + q) == p
  {
    var text := p + ". " + q;
    assert BreakAt(text, |p|);
    assert SentenceEnd(text, 0) == |p|;
    assert FirstSentence(text) == p;
    TrimStartOfTrimmed(p);
    TrimEndOfTrimmed(p);
  }

  /**
   * The title in terms of the first break `i`: the segment before it, or the whole text when
   * that segment is empty (a break at the start); a segment over 100 characters keeps its
   * first 97 characters, trimmed at the start, followed by "...".
   */
  lemma ExtractTitleAt(text: string, i: nat)
    requires text != [] && i <= |text|
    requires forall k :: 0 <= k < i ==> !BreakAt(text, k)
    requires i < |text| ==> BreakAt(text, i)
    ensures var title := if i == 0 then text else text[..i];
      ExtractTitle(text) == if |title| <= 100 then Trim(title) else TrimStart(title[..97]) + "..."
  {
    assert SentenceEnd(text, 0) == i;
    var title := if i == 0 then text else text[..i];
    if |title| > 100 {
      TrimStartAppend(title[..97], "...");
      TrimEndOfTrimmed(TrimStart(title[..97]) + "...");
    }
  }

  /** A short trimmed sentence ended by '.', '!' or '?' and any white-space character is the title. */
  lemma ExtractTitleSentence(p: string, c: char, w: char, q: string)
    requires c == '.' || c == '!' || c == '?'
    requires IsSpace(w)
    requires p != [] && |p| <= 100 && Trimmed(p)
    requires forall k :: 0 <= k < |p| ==> !BreakAt(p, k)
    ensures ExtractTitle(p + [c, w] + q) == p
  {
    var text := p + [c, w] + q;
    forall k | 0 <= k < |p| ensures !BreakAt(text, k) {
      if k + 1 < |p| {
        assert BreakAt(text, k) == BreakAt(p, k);
      } else {
        assert text[k + 1] == c;
      }
    }
    assert BreakAt(text, |p|);
    assert text[..|p|] == p;
    ExtractTitleAt(text, |p|);
    TrimStartOfTrimmed(p);
    TrimEndOfTrimmed(p);
  }

  /** `sentences[0] || text`: a break at the very start leaves an empty first segment, so a
      short text becomes its own title, trimmed, still opening with the terminator. */
  lemma ExtractTitleLeadingBreak(text: string)
    requires BreakAt(text, 0) && |text| <= 100
    ensures ExtractTitle(text) == TrimEnd(text)
    ensures ExtractTitle(text) != [] && ExtractTitle(text)[0] == text[0]
  {
    assert FirstSentence(text) == [];
    assert !IsSpace(text[0]);
    TrimStartOfTrimmed(text);
    TrimEndKeepsHead(text);
  }

  /** A text of at most 100 characters without a break is its own title, trimmed. */
  lemma ExtractTitleNoBreak(text: string)
    requires text != [] && |text| <= 100
    requires forall k :: 0 <= k < |text| ==> !BreakAt(text, k)
    ensures ExtractTitle(text) == Trim(text)
  {
    ExtractTitleAt(text, |text|);
    assert text[..|text|] == text;
  }

  /** A first segment over 100 characters that starts outside white space becomes its first
      97 characters and "...", exactly 100 characters. */
  lemma ExtractTitleLong(text: string, i: nat)
    requires 100 < i <= |text| && !IsSpace(text[0])
    requires forall k :: 0 <= k < i ==> !BreakAt(text, k)
    requires i < |text| ==> BreakAt(text, i)
    ensures ExtractTitle(text) == text[..97] + "..."
    ensures |ExtractTitle(text)| == 100
  {
    ExtractTitleAt(text, i);
    assert text[..i][..97] == text[..97];
    TrimStartOfTrimmed(text[..97]);
  }

  /** `cleanText` of the Telegram parsers. */
  function CleanText(text: string): (r: string)
    ensures |r| <= 500
    ensures SingleSpaced(r) && NoLineBreaks(r)
    ensures r == [] || !IsSpace(r[0])
  {
    var collapsed := CollapseRuns(Spaces, CollapseRuns(LineBreaks, text));
    CollapseSpacesSingleSpaced(CollapseRuns(LineBreaks, text));
    TrimSingleSpaced(collapsed);
    var r := Take(Trim(collapsed), 500);
    SingleSpacedPrefix(Trim(collapsed), |r|);
    r
  }

  /** Every white-space character of a single-spaced string is a plain space, so it has no line break. */
  lemma SingleSpacedNoLineBreaks(s: string)
    requires SingleSpaced(s)
    ensures NoLineBreaks(s)
  {
    forall i | 0 <= i < |s| ensures !InClass(LineBreaks, s[i]) {
      if InClass(LineBreaks, s[i]) { assert IsSpace(s[i]); }
    }
  }

  /**
   * Cleaning a cleaned text again only trims its end: the 500-character cut can leave one
   * trailing space, and that is all a second pass removes.
   */
  lemma CleanTextTwice(text: string)
    ensures var once := CleanText(text);
      CleanText(once) == TrimEnd(once)
      && (CleanText(once) == once || CleanText(once) == once[..|once| - 1])
  {
    var once := CleanText(text);
    SingleSpacedNoLineBreaks(once);
    CollapseLineBreaksIdentity(once);
    CollapseSpacesIdentity(once);
    TrimStartOfTrimmed(once);
    assert Trim(once) == TrimEnd(once);
    if once != [] && IsSpace(once[|once| - 1]) {
      var shorter := once[..|once| - 1];
      if shorter != [] {
        assert !IsSpace(shorter[|shorter| - 1]);
      }
      TrimEndOfTrimmed(shorter);
      assert TrimEnd(once) == shorter;
    } else {
      TrimEndOfTrimmed(once);
    }
  }

  /** `cleanText` is not idempotent: 499 letters, a space and a letter lose the last letter
      to the cut in the first pass and the trailing space in the second. */
  lemma CleanTextNotIdempotent()
    ensures var text := seq(499, _ => 'а') + " б";
      CleanText(CleanText(text)) != CleanText(text)
  {
    var text := seq(499, _ => 'а') + " б";
    assert forall i :: 0 <= i < |text| ==> text[i] == (if i < 499 then 'а' else if i == 499 then ' ' else 'б');
    assert NoLineBreaks(text);
    CollapseLineBreaksIdentity(text);
    assert SingleSpaced(text);
    CollapseSpacesIdentity(text);
    TrimStartOfTrimmed(text);
    TrimEndOfTrimmed(text);
    var once := CleanText(text);
    assert once == text[..500];
    CleanTextTwice(text);
    assert IsSpace(once[499]);
    assert CleanText(once) == once[..499];
  }
}
