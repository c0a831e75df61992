/**
 * services/newsService.js: the stand-alone RSS service behind the `/nizhny-novgorod` and
 * `/stats` routes. It parses the enabled feeds of config/sources.js, cleans titles and
 * descriptions of markup, drops items whose normalized title is short or already seen,
 * keeps the 100 newest, and answers paged, category-filtered queries and counters.
 */
module NewsService {
  import opened Wrappers
  import opened Strings
  import opened Base64
  import opened Dates
  import opened News
  import opened Aggregation

  // ---------------------------------------------------------------------------------
  // Filtering

  /** `s.filter(keep)`: the elements that pass, in order. */
  function Filter<T(==,!new)>(keep: T -> bool, s: seq<T>): (r: seq<T>)
    ensures IsSubsequence(r, s)
    ensures forall x :: x in r <==> x in s && keep(x)
    ensures forall x :: multiset(r)[x] == if keep(x) then multiset(s)[x] else 0
    decreases |s|
  {
    if s == [] then []
    else
      var n := |s| - 1;
      var p := Filter(keep, s[..n]);
      assert s == s[..n] + [s[n]];
      assert multiset(s) == multiset(s[..n]) + multiset{s[n]};
      if keep(s[n]) then
        assert (p + [s[n]])[..|p|] == p;
        assert multiset(p + [s[n]]) == multiset(p) + multiset{s[n]};
        p + [s[n]]
      else p
  }

  /** A filter every element passes changes nothing. */
  lemma {:induction false} FilterAll<T(!new)>(keep: T -> bool, s: seq<T>)
    requires forall x :: x in s ==> keep(x)
    ensures Filter(keep, s) == s
    decreases |s|
  {
    if s != [] {
      var n := |s| - 1;
      assert s == s[..n] + [s[n]];
      FilterAll(keep, s[..n]);
    }
  }

  /** An order-preserving selection of dated items is dated. */
  lemma SubsequenceDated(a: seq<NewsItem>, b: seq<NewsItem>)
    requires IsSubsequence(a, b) && AllDated(b)
    ensures AllDated(a)
  {
    SubsequenceMembers(a, b);
    forall i | 0 <= i < |a| ensures a[i].rawDate.Some? {
      assert a[i] in b;
    }
  }

  // ---------------------------------------------------------------------------------
  // The feed list (config/sources.js)

  datatype ConfigSource = ConfigSource(id: string, name: string, url: string, category: string, priority: nat, enabled: bool)

  const ConfiguredSources: seq<ConfigSource> := [
    ConfigSource("tass", "ТАСС", "https://tass.com/rss/v2.xml", "general", 1, true),
    ConfigSource("rt_russia", "RT Россия", "https://rt.com/rss/russia/", "general", 2, true),
    ConfigSource("ria", "РИА Новости", "https://ria.ru/export/rss2/index.xml", "general", 3, true),
    ConfigSource("mk_russia", "Московский Комсомолец", "https://www.mk.ru/rss/index.xml", "general", 4, true),
    ConfigSource("rg", "Российская газета", "https://rg.ru/xml/index.xml", "politics", 5, true)
  ]

  /** `NIZHNY_SOURCES.rss.filter(source => source.enabled)`. */
  function EnabledSources(cfg: seq<ConfigSource>): (r: seq<ConfigSource>)
    ensures IsSubsequence(r, cfg)
    ensures forall src :: src in r <==> src in cfg && src.enabled
  {
    Filter((src: ConfigSource) => src.enabled, cfg)
  }

  /** Every configured feed is enabled, so all five are parsed, in the configured order. */
  lemma AllConfiguredEnabled()
    ensures EnabledSources(ConfiguredSources) == ConfiguredSources
  {
    FilterAll((src: ConfigSource) => src.enabled, ConfiguredSources);
  }

  // ---------------------------------------------------------------------------------
  // Markup removal (`cleanText`)

  /** No '<' has a '>' anywhere after it: `/<[^>]*>/` finds nothing. */
  predicate TagFree(s: string) {
    forall i, j :: 0 <= i < j < |s| && s[i] == '<' ==> s[j] != '>'
  }

  /** What follows an '&' starts no entity: it holds no ';', or starts with one. */
  predicate NoEntityAt(rest: string) {
    ';' !in rest || rest[0] == ';'
  }

  /** `/&[^;]+;/` finds nothing. */
  predicate EntityFree(s: string) {
    forall i :: 0 <= i < |s| && s[i] == '&' ==> NoEntityAt(s[i + 1..])
  }

  /** `NoEntityAt` is the failure of the entity pattern's `[^;]+;` to match. */
  lemma NoEntityAtIndex(rest: string)
    ensures NoEntityAt(rest) <==> IndexOf(rest, ';') < 1
  {
    if rest != [] && rest[0] == ';' {
      assert rest[..1] == [';'];
    }
  }

  lemma NoEntityAtPrefix(rest: string, n: nat)
    requires NoEntityAt(rest) && n <= |rest|
    ensures NoEntityAt(rest[..n])
  {
    assert forall c :: c in rest[..n] ==> c in rest;
  }

  lemma TagFreeCons(c: char, s: string)
    ensures TagFree([c] + s) <==> TagFree(s) && (c == '<' ==> '>' !in s)
  {
    var t := [c] + s;
    if TagFree(s) && (c == '<' ==> '>' !in s) {
      forall i, j | 0 <= i < j < |t| && t[i] == '<' ensures t[j] != '>' {
        assert t[j] == s[j - 1];
        if i > 0 { assert t[i] == s[i - 1]; }
      }
    }
    if TagFree(t) {
      forall i, j | 0 <= i < j < |s| && s[i] == '<' ensures s[j] != '>' {
        assert t[i + 1] == s[i] && t[j + 1] == s[j];
      }
      if c == '<' {
        forall j | 0 <= j < |s| ensures s[j] != '>' {
          assert t[0] == '<' && t[j + 1] == s[j];
        }
      }
    }
  }

  lemma TagFreeSlice(s: string, a: nat, b: nat)
    requires TagFree(s) && a <= b <= |s|
    ensures TagFree(s[a..b])
  {
    var t := s[a..b];
    forall i, j | 0 <= i < j < |t| && t[i] == '<' ensures t[j] != '>' {
      assert t[i] == s[a + i] && t[j] == s[a + j];
    }
  }

  lemma EntityFreeCons(c: char, s: string)
    ensures EntityFree([c] + s) <==> EntityFree(s) && (c == '&' ==> NoEntityAt(s))
  {
    var t := [c] + s;
    assert t[1..] == s;
    if EntityFree(s) && (c == '&' ==> NoEntityAt(s)) {
      forall i | 0 <= i < |t| && t[i] == '&' ensures NoEntityAt(t[i + 1..]) {
        if i > 0 {
          assert t[i] == s[i - 1] && t[i + 1..] == s[i..];
        }
      }
    }
    if EntityFree(t) {
      forall i | 0 <= i < |s| && s[i] == '&' ensures NoEntityAt(s[i + 1..]) {
        assert t[i + 1] == s[i] && t[i + 2..] == s[i + 1..];
      }
      if c == '&' {
        assert t[0] == '&';
      }
    }
  }

  lemma EntityFreeSlice(s: string, a: nat, b: nat)
    requires EntityFree(s) && a <= b <= |s|
    ensures EntityFree(s[a..b])
  {
    var t := s[a..b];
    forall i | 0 <= i < |t| && t[i] == '&' ensures NoEntityAt(t[i + 1..]) {
      assert t[i] == s[a + i];
      assert t[i + 1..] == s[a + i + 1..][..b - a - i - 1];
      NoEntityAtPrefix(s[a + i + 1..], b - a - i - 1);
    }
  }

  /** `s.replace(/<[^>]*>/g, '')`: each '<' with a later '>' is cut out up to the first such '>'. */
  function StripTags(s: string): (r: string)
    ensures forall c :: c in r ==> c in s
    ensures TagFree(r)
    decreases |s|
  {
    if s == [] then []
    else if s[0] == '<' && '>' in s[1..] then StripTags(s[IndexOf(s[1..], '>') + 2..])
    else
      var rest := StripTags(s[1..]);
      TagFreeCons(s[0], rest);
      [s[0]] + rest
  }

  /** `s.replace(/&[^;]+;/g, ' ')`: an '&', at least one character that is not ';', then a ';'
      become one space. */
  function ReplaceEntities(s: string): (r: string)
    ensures forall c :: c in r ==> c == ' ' || c in s
    decreases |s|
  {
    if s == [] then []
    else if s[0] == '&' && IndexOf(s[1..], ';') >= 1 then " " + ReplaceEntities(s[IndexOf(s[1..], ';') + 2..])
    else [s[0]] + ReplaceEntities(s[1..])
  }

  lemma {:induction false} ReplaceEntitiesTagFree(s: string)
    requires TagFree(s)
    ensures TagFree(ReplaceEntities(s))
    decreases |s|
  {
    if s != [] {
      assert s == [s[0]] + s[1..];
      var j := IndexOf(s[1..], ';');
      if s[0] == '&' && j >= 1 {
        TagFreeSlice(s, j + 2, |s|);
        ReplaceEntitiesTagFree(s[j + 2..]);
        TagFreeCons(' ', ReplaceEntities(s[j + 2..]));
      } else {
        TagFreeCons(s[0], s[1..]);
        ReplaceEntitiesTagFree(s[1..]);
        TagFreeCons(s[0], ReplaceEntities(s[1..]));
      }
    }
  }

  lemma {:induction false} ReplaceEntitiesEntityFree(s: string)
    ensures EntityFree(ReplaceEntities(s))
    decreases |s|
  {
    if s != [] {
      var j := IndexOf(s[1..], ';');
      if s[0] == '&' && j >= 1 {
        ReplaceEntitiesEntityFree(s[j + 2..]);
        EntityFreeCons(' ', ReplaceEntities(s[j + 2..]));
      } else {
        var rest := ReplaceEntities(s[1..]);
        ReplaceEntitiesEntityFree(s[1..]);
        if s[0] == '&' {
          NoEntityAtIndex(s[1..]);
          if j == 0 {
            assert rest == [';'] + ReplaceEntities(s[2..]);
          }
        }
        EntityFreeCons(s[0], rest);
      }
    }
  }

  lemma {:induction false} CollapseTagFree(s: string)
    requires TagFree(s)
    ensures TagFree(CollapseRuns(Spaces, s))
    decreases |s|
  {
    if s != [] {
      TagFreeCons(s[0], s[1..]);
      assert s == [s[0]] + s[1..];
      if IsSpace(s[0]) {
        var rest := DropClass(Spaces, s[1..]);
        TagFreeSlice(s, |s| - |rest|, |s|);
        CollapseTagFree(rest);
        TagFreeCons(' ', CollapseRuns(Spaces, rest));
      } else {
        CollapseTagFree(s[1..]);
        CollapseChars(Spaces, s[1..]);
        TagFreeCons(s[0], CollapseRuns(Spaces, s[1..]));
      }
    }
  }

  lemma {:induction false} CollapseEntityFree(s: string)
    requires EntityFree(s)
    ensures EntityFree(CollapseRuns(Spaces, s))
    decreases |s|
  {
    if s != [] {
      EntityFreeCons(s[0], s[1..]);
      assert s == [s[0]] + s[1..];
      if IsSpace(s[0]) {
        var rest := DropClass(Spaces, s[1..]);
        EntityFreeSlice(s, |s| - |rest|, |s|);
        CollapseEntityFree(rest);
        EntityFreeCons(' ', CollapseRuns(Spaces, rest));
      } else {
        var rest := CollapseRuns(Spaces, s[1..]);
        CollapseEntityFree(s[1..]);
        CollapseChars(Spaces, s[1..]);
        if s[1..] != [] { CollapseHead(Spaces, s[1..]); }
        EntityFreeCons(s[0], rest);
      }
    }
  }

  lemma TrimTagFree(s: string)
    requires TagFree(s) && EntityFree(s)
    ensures TagFree(Trim(s)) && EntityFree(Trim(s))
  {
    var t := TrimStart(s);
    TagFreeSlice(s, |s| - |t|, |s|);
    EntityFreeSlice(s, |s| - |t|, |s|);
    TagFreeSlice(t, 0, |TrimEnd(t)|);
    EntityFreeSlice(t, 0, |TrimEnd(t)|);
  }

  /**
   * `cleanText`: tags removed, entities turned into spaces, white-space runs collapsed, and
   * the ends trimmed. No tag and no entity is left, every white-space run is one plain space,
   * and neither end is white space.
   */
  function CleanText(text: string): (r: string)
    ensures TagFree(r) && EntityFree(r) && SingleSpaced(r) && Trimmed(r)
  {
    var untagged := StripTags(text);
    var plain := ReplaceEntities(untagged);
    var collapsed := CollapseRuns(Spaces, plain);
    ReplaceEntitiesTagFree(untagged);
    ReplaceEntitiesEntityFree(untagged);
    CollapseTagFree(plain);
    CollapseEntityFree(plain);
    CollapseSpacesSingleSpaced(plain);
    TrimTagFree(collapsed);
    TrimSingleSpaced(collapsed);
    Trim(collapsed)
  }

  lemma {:induction false} StripTagsIdentity(s: string)
    requires TagFree(s)
    ensures StripTags(s) == s
    decreases |s|
  {
    if s != [] {
      assert s == [s[0]] + s[1..];
      TagFreeCons(s[0], s[1..]);
      StripTagsIdentity(s[1..]);
    }
  }

  lemma {:induction false} ReplaceEntitiesIdentity(s: string)
    requires EntityFree(s)
    ensures ReplaceEntities(s) == s
    decreases |s|
  {
    if s != [] {
      assert s == [s[0]] + s[1..];
      EntityFreeCons(s[0], s[1..]);
      if s[0] == '&' { NoEntityAtIndex(s[1..]); }
      ReplaceEntitiesIdentity(s[1..]);
    }
  }

  /** Text with no tag, no entity, single spaces and trimmed ends is left as it is. */
  lemma CleanTextFixed(s: string)
    requires TagFree(s) && EntityFree(s) && SingleSpaced(s) && Trimmed(s)
    ensures CleanText(s) == s
  {
    StripTagsIdentity(s);
    ReplaceEntitiesIdentity(s);
    CollapseSpacesIdentity(s);
    TrimStartOfTrimmed(s);
    TrimEndOfTrimmed(s);
  }

  /** Cleaning twice is cleaning once. */
  lemma CleanTextIdempotent(s: string)
    ensures CleanText(CleanText(s)) == CleanText(s)
  {
    CleanTextFixed(CleanText(s));
  }

  /** `cleanDescription`: the cleaned text, cut to its first 200 characters and marked with
      "..." when it is longer. */
  function CleanDescription(description: string): (r: string)
    ensures var cleaned := CleanText(description);
      && |r| <= 203
      && (|cleaned| <= 200 ==> r == cleaned)
      && (|cleaned| > 200 ==> |r| == 203 && r[..200] == cleaned[..200] && r[200..] == "...")
  {
    var cleaned := CleanText(description);
    if |cleaned| > 200 then cleaned[..200] + "..." else cleaned
  }

  // ---------------------------------------------------------------------------------
  // Fields of a parsed item

  /** `extractImageUrl`: media:content, an image enclosure, media:thumbnail, then the first
      `<img src>` of the markup. */
  function ExtractImageUrl(e: FeedEntry): (r: Option<string>)
    ensures r.Some? ==> r.value != ""
  {
    if e.mediaContentUrl != "" then Some(e.mediaContentUrl)
    else if e.enclosureUrl != "" && StartsWith(e.enclosureType, "image/") then Some(e.enclosureUrl)
    else if e.mediaThumbnailUrl != "" then Some(e.mediaThumbnailUrl)
    else if e.markupImg.Some? then Some(e.markupImg.value)
    else None
  }

  /** Each image field is used only when every earlier one gave nothing; an enclosure counts
      only when its type is an image type; there is no image exactly when none applies. */
  lemma ImageUrlPriority(e: FeedEntry)
    ensures var r, enclosure := ExtractImageUrl(e), e.enclosureUrl != "" && StartsWith(e.enclosureType, "image/");
      && (e.mediaContentUrl != "" ==> r == Some(e.mediaContentUrl))
      && (e.mediaContentUrl == "" && enclosure ==> r == Some(e.enclosureUrl))
      && (e.mediaContentUrl == "" && !enclosure && e.mediaThumbnailUrl != "" ==> r == Some(e.mediaThumbnailUrl))
      && (e.mediaContentUrl == "" && !enclosure && e.mediaThumbnailUrl == "" ==> r == e.markupImg)
      && (r.None? <==> e.mediaContentUrl == "" && !enclosure && e.mediaThumbnailUrl == "" && e.markupImg.None?)
  {
  }

  /** `item.pubDate || item.isoDate`: an unparsable text is still truthy. */
  function PublishedText(e: FeedEntry): (d: DateText)
    ensures d.NoDate? <==> e.pubDate.NoDate? && e.isoDate.NoDate?
  {
    if !e.pubDate.NoDate? then e.pubDate else e.isoDate
  }

  /** `formatDate(item.pubDate || item.isoDate)` at instant `now`. */
  function FormatDate(e: FeedEntry, now: int): (r: Elapsed)
    ensures r == Unknown <==> !PublishedText(e).At?
    ensures r != Yesterday && r != InvalidDate && r != JustNow && !r.OnDate?
  {
    var d := PublishedText(e);
    FormatServiceVersusRelative(d, now);
    FormatRelativeUnknown(d, now);
    FormatService(d, now)
  }

  /** A day-old item is "1 дн назад": the service has no "yesterday" bucket. */
  lemma DayOldItem(e: FeedEntry, now: int)
    requires PublishedText(e).At? && 86400000 <= now - PublishedText(e).ms < 172800000
    ensures FormatDate(e, now) == DaysAgo(1)
  {
    FormatRelativeBuckets(PublishedText(e).ms, now);
    FormatServiceVersusRelative(PublishedText(e), now);
  }

  /** `generateId(url)`: the base64 of the text cut to 16 characters; `tag` stands for the
      random fragment used when there is no text. */
  function GenerateId(url: string, tag: string): (id: string)
    ensures url != "" ==> |id| <= 16 && StartsWith(EncodeText(url), id)
  {
    if url == "" then tag else Take(EncodeText(url), 16)
  }

  /** Sixteen base64 characters encode twelve bytes, so the id sees only the first twelve
      bytes of the URL's UTF-8 text. */
  lemma IdSeesTwelveBytes(a: string, b: string, tagA: string, tagB: string)
    requires |Utf8(a)| >= 12 && |Utf8(b)| >= 12 && Utf8(a)[..12] == Utf8(b)[..12]
    ensures GenerateId(a, tagA) == GenerateId(b, tagB)
  {
    EncodePrefix16(Utf8(a));
    EncodePrefix16(Utf8(b));
  }

  /** ASCII URLs that agree on their first twelve characters (every `https://tass.com/...`
      link, say) get the same id. */
  lemma SamePrefixSameId(a: string, b: string, tagA: string, tagB: string)
    requires IsAscii(a) && IsAscii(b) && |a| >= 12 && |b| >= 12 && a[..12] == b[..12]
    ensures GenerateId(a, tagA) == GenerateId(b, tagB)
  {
    Utf8Ascii(a);
    Utf8Ascii(b);
    assert forall i :: 0 <= i < 12 ==> a[i] == b[i];
    assert Utf8(a)[..12] == Utf8(b)[..12];
    IdSeesTwelveBytes(a, b, tagA, tagB);
  }

  /** Up to twelve bytes the id is the whole encoding, so it determines the URL. */
  lemma ShortUrlIdsDistinct(a: string, b: string, tagA: string, tagB: string)
    requires a != "" && b != "" && |Utf8(a)| <= 12 && |Utf8(b)| <= 12 && a != b
    ensures GenerateId(a, tagA) != GenerateId(b, tagB)
  {
    WholeId(a, tagA);
    WholeId(b, tagB);
    if EncodeText(a) == EncodeText(b) {
      EncodeTextInjective(a, b);
    }
  }

  lemma WholeId(url: string, tag: string)
    requires url != "" && |Utf8(url)| <= 12
    ensures GenerateId(url, tag) == EncodeText(url)
  {
    var bytes := Utf8(url);
    var q := (|bytes| + 2) / 3;
    assert q <= 4;
    assert |Encode(bytes)| == 4 * q;
  }

  // ---------------------------------------------------------------------------------
  // Parsing one feed (`parseRSSFeed`)

  /** The title given to an entry without one; items keeping it are discarded. */
  const NoTitle := "Без заголовка"

  /** The object built for one feed entry of `src` at instant `now`. */
  function ToItem(src: ConfigSource, e: FeedEntry, now: int): NewsItem {
    var published := PublishedText(e);
    NewsItem(
      id := GenerateId(OrElse(OrElse(e.link, e.guid), e.title), e.tag),
      title := CleanText(OrElse(e.title, NoTitle)),
      description := CleanDescription(OrElse(OrElse(OrElse(e.description, e.summary), e.content), e.contentSnippet)),
      imageUrl := ExtractImageUrl(e),
      sourceUrl := OrElse(e.link, e.guid),
      publishedAt := FormatDate(e, now),
      rawDate := Instant(if published.NoDate? then At(now) else published),
      source := SourceRef(src.id, src.name, "RSS"),
      category := src.category,
      viewCount := 50 + e.draw % 1000,
      isLiked := false,
      platform := NoPlatform)
  }

  /** The filter of `parseRSSFeed`. */
  predicate ValidParsed(x: NewsItem) {
    x.title != NoTitle && x.sourceUrl != ""
  }

  /** `feed.items.map(...)`: one item per entry, in feed order, all tagged with the source. */
  function Normalized(src: ConfigSource, es: seq<FeedEntry>, now: int): (r: seq<NewsItem>)
    ensures |r| == |es|
    ensures forall x :: x in r ==> x.category == src.category && x.source == SourceRef(src.id, src.name, "RSS")
  {
    seq(|es|, i requires 0 <= i < |es| => ToItem(src, es[i], now))
  }

  lemma NormalizedAt(src: ConfigSource, es: seq<FeedEntry>, now: int, i: nat)
    requires i < |es|
    ensures Normalized(src, es, now)[i] == ToItem(src, es[i], now)
  {
  }

  /** `parseRSSFeed(src)` given what fetching and parsing `src.url` gave: nothing on an error
      or an empty feed, otherwise the valid items in feed order. */
  function ParseRssFeed(src: ConfigSource, feed: FeedResult, now: int): (r: seq<NewsItem>)
    ensures forall x :: x in r ==> ValidParsed(x) && x.category == src.category && x.source.name == src.name
    ensures feed.FeedFailed? ==> r == []
    ensures feed.Feed? ==> IsSubsequence(r, Normalized(src, feed.items, now))
    ensures feed.Feed? ==> forall x :: x in r <==> x in Normalized(src, feed.items, now) && ValidParsed(x)
  {
    match feed
    case FeedFailed => []
    case Feed(es) =>
      if |es| == 0 then []
      else Filter(ValidParsed, Normalized(src, es, now))
  }

  /** A valid item keeps its title and its link: the text, cleaned, is not the placeholder
      and the entry has a link or a guid. The view count is in [50, 1050). */
  lemma ToItemValid(src: ConfigSource, e: FeedEntry, now: int)
    ensures ValidParsed(ToItem(src, e, now)) <==>
      CleanText(OrElse(e.title, NoTitle)) != NoTitle && (e.link != "" || e.guid != "")
    ensures 50 <= ToItem(src, e, now).viewCount < 1050
  {
  }

  // ---------------------------------------------------------------------------------
  // Title keys (`removeDuplicates`)

  /** JavaScript's `\w`: ASCII letters, digits and '_' only. */
  predicate IsWordChar(c: char) {
    'a' <= c <= 'z' || 'A' <= c <= 'Z' || IsDigit(c) || c == '_'
  }

  /** `s.replace(/[^\w\s]/g, '')`. */
  function KeepWordsAndSpaces(s: string): (r: string)
    ensures forall c :: c in r <==> c in s && (IsWordChar(c) || IsSpace(c))
  {
    if s == [] then []
    else (if IsWordChar(s[0]) || IsSpace(s[0]) then [s[0]] else []) + KeepWordsAndSpaces(s[1..])
  }

  /** The deduplication key: lowercased, everything but ASCII word characters and white
      space deleted, trimmed. */
  function TitleKey(title: string): (k: string)
    ensures forall c :: c in k ==> IsWordChar(c) || IsSpace(c)
  {
    var kept := KeepWordsAndSpaces(ToLower(title));
    var k := Trim(kept);
    assert k == TrimStart(kept)[..|k|];
    assert forall c :: c in k ==> c in kept;
    k
  }

  /** The characters whose lower case holds an ASCII word character: the word characters
      themselves, U+0130 (lowered to "i" and a combining dot) and the Kelvin sign U+212A. */
  predicate YieldsWordChar(c: char) {
    IsWordChar(c) || c == '\U{130}' || c == '\U{212A}'
  }

  /** Lowering a character produces an ASCII word character exactly when `YieldsWordChar`
      holds of it. */
  lemma LowerKeepsNonWord(c: char)
    ensures !YieldsWordChar(c) ==> forall d :: d in LowerText(c) ==> !IsWordChar(d)
    ensures YieldsWordChar(c) ==> exists d :: d in LowerText(c) && IsWordChar(d)
  {
    if YieldsWordChar(c) {
      assert IsWordChar(LowerText(c)[0]);
    }
  }

  /**
   * A title none of whose characters lowers to an ASCII letter, digit or '_' has the empty
   * key: a title written entirely in Cyrillic loses every letter, so its key is shorter than
   * 10 and the item is never kept.
   */
  lemma NoWordCharsEmptyKey(title: string)
    requires forall i :: 0 <= i < |title| ==> !YieldsWordChar(title[i])
    ensures TitleKey(title) == ""
  {
    var lower := ToLower(title);
    forall c | c in lower ensures !IsWordChar(c) {
      LowerMembers(title, c);
      var j :| 0 <= j < |title| && c in LowerText(title[j]);
      LowerKeepsNonWord(title[j]);
    }
    var kept := KeepWordsAndSpaces(lower);
    var t := TrimStart(kept);
  }

  /** `n` capitals I with dot above (U+0130), as `toLowerCase` writes them. */
  function DottedLower(n: nat): string {
    if n == 0 then [] else ['i', '\U{307}'] + DottedLower(n - 1)
  }

  lemma {:induction false} ToLowerDotted(n: nat)
    ensures ToLower(seq(n, _ => '\U{130}')) == DottedLower(n)
  {
    if n > 0 {
      var s := seq(n, _ => '\U{130}');
      assert s[1..] == seq(n - 1, _ => '\U{130}');
      ToLowerDotted(n - 1);
    }
  }

  lemma {:induction false} KeepDotted(n: nat)
    ensures KeepWordsAndSpaces(DottedLower(n)) == seq(n, _ => 'i')
  {
    if n > 0 {
      var d := DottedLower(n);
      assert d[1..][1..] == DottedLower(n - 1);
      KeepDotted(n - 1);
      assert KeepWordsAndSpaces(d) == ['i'] + KeepWordsAndSpaces(d[1..][1..]);
    }
  }

  /** Characters outside ASCII can still make a key: `n` capitals I with dot above (U+0130)
      lower to "i" and a combining dot each, and the dots are deleted, so ten of them make a
      key long enough to keep. */
  lemma DottedCapitalsMakeKey(n: nat)
    ensures TitleKey(seq(n, _ => '\U{130}')) == seq(n, _ => 'i')
  {
    ToLowerDotted(n);
    KeepDotted(n);
    var k := seq(n, _ => 'i');
    TrimStartOfTrimmed(k);
    TrimEndOfTrimmed(k);
  }

  /** A deduplication key, applied by `removeDuplicates` to every item. */
  type ItemKey = NewsItem -> string

  /** newsService's key: the title key of the item's title. */
  function ByTitle(x: NewsItem): string {
    TitleKey(x.title)
  }

  /** A key of at least 10 characters comes from a non-empty title. */
  lemma LongKeysHaveTitles()
    ensures forall x :: |ByTitle(x)| >= 10 ==> x.title != ""
  {
    assert KeepWordsAndSpaces(ToLower("")) == "";
  }

  /** The keys of `s`, position by position. */
  function KeysOf(key: ItemKey, s: seq<NewsItem>): (r: seq<string>)
    ensures |r| == |s| && forall i :: 0 <= i < |s| ==> r[i] == key(s[i])
  {
    seq(|s|, i requires 0 <= i < |s| => key(s[i]))
  }

  /** Whether `x` passes the filter after `kept` passed before it. */
  predicate Admits(key: ItemKey, kept: seq<NewsItem>, x: NewsItem) {
    |key(x)| >= 10 && key(x) !in KeysOf(key, kept)
  }

  /** What `removeDuplicates(s)` returns: each item whose key has at least 10 characters and
      differs from the key of every item kept before it. */
  function KeptBy(key: ItemKey, s: seq<NewsItem>): (r: seq<NewsItem>)
    ensures IsSubsequence(r, s)
    ensures forall i :: 0 <= i < |r| ==> |key(r[i])| >= 10
    decreases |s|
  {
    if s == [] then []
    else
      var n := |s| - 1;
      var p := KeptBy(key, s[..n]);
      assert s == s[..n] + [s[n]];
      if Admits(key, p, s[n]) then
        assert (p + [s[n]])[..|p|] == p;
        p + [s[n]]
      else p
  }

  lemma KeptByStep(key: ItemKey, s: seq<NewsItem>, i: nat)
    requires i < |s|
    ensures KeptBy(key, s[..i + 1]) ==
      KeptBy(key, s[..i]) + (if Admits(key, KeptBy(key, s[..i]), s[i]) then [s[i]] else [])
  {
    assert s[..i + 1][..i] == s[..i];
  }

  /** `removeDuplicates`: a `filter` that remembers the keys it let through in a `Set`;
      newsService's key is `ByTitle`. */
  method RemoveDuplicates(key: ItemKey, news: seq<NewsItem>) returns (kept: seq<NewsItem>)
    ensures kept == KeptBy(key, news)
  {
    var seen: set<string> := {};
    kept := [];
    var i := 0;
    while i < |news|
      invariant 0 <= i <= |news|
      invariant kept == KeptBy(key, news[..i])
      invariant forall k :: k in seen <==> k in KeysOf(key, kept)
    {
      var k := key(news[i]);
      RemoveDuplicatesStep(key, news, i, kept, seen);
      if !(k in seen || |k| < 10) {
        seen := seen + {k};
        kept := kept + [news[i]];
      }
      i := i + 1;
    }
    assert news[..|news|] == news;
  }

  /** One call of the filter callback keeps the loop's two invariants. */
  lemma RemoveDuplicatesStep(key: ItemKey, news: seq<NewsItem>, i: nat, kept: seq<NewsItem>, seen: set<string>)
    requires i < |news| && kept == KeptBy(key, news[..i])
    requires forall k :: k in seen <==> k in KeysOf(key, kept)
    ensures var k := key(news[i]);
      && (k in seen || |k| < 10 ==> kept == KeptBy(key, news[..i + 1]))
      && (!(k in seen || |k| < 10) ==> kept + [news[i]] == KeptBy(key, news[..i + 1]))
      && (!(k in seen || |k| < 10) ==> forall k' :: k' in seen + {k} <==> k' in KeysOf(key, kept + [news[i]]))
  {
    KeptByStep(key, news, i);
    KeysOfAppend(key, kept, news[i]);
  }

  /** No two items share a key. */
  predicate DistinctKeys(key: ItemKey, s: seq<NewsItem>) {
    forall i, j :: 0 <= i < |s| && 0 <= j < |s| && i != j ==> key(s[i]) != key(s[j])
  }

  /** The kept keys are pairwise distinct. */
  lemma {:induction false} KeptByDistinct(key: ItemKey, s: seq<NewsItem>)
    ensures DistinctKeys(key, KeptBy(key, s))
    decreases |s|
  {
    if s != [] {
      var n := |s| - 1;
      var p := KeptBy(key, s[..n]);
      KeptByDistinct(key, s[..n]);
      assert s == s[..n] + [s[n]];
      if Admits(key, p, s[n]) {
        DistinctAppend(key, p, s[n]);
      }
    }
  }

  lemma DistinctAppend(key: ItemKey, p: seq<NewsItem>, x: NewsItem)
    requires DistinctKeys(key, p) && key(x) !in KeysOf(key, p)
    ensures DistinctKeys(key, p + [x])
  {
    var r := p + [x];
    forall i, j | 0 <= i < |r| && 0 <= j < |r| && i != j ensures key(r[i]) != key(r[j]) {
      if i < |p| && j < |p| {
        assert r[i] == p[i] && r[j] == p[j];
      } else if i < |p| {
        assert KeysOf(key, p)[i] == key(r[i]);
      } else {
        assert KeysOf(key, p)[j] == key(r[j]);
      }
    }
  }

  /** Some item of `s` has key `k`. */
  predicate Carries(key: ItemKey, s: seq<NewsItem>, k: string) {
    exists j :: 0 <= j < |s| && key(s[j]) == k
  }

  lemma CarriesStep(key: ItemKey, s: seq<NewsItem>, k: string)
    requires s != []
    ensures Carries(key, s, k) <==> Carries(key, s[..|s| - 1], k) || key(s[|s| - 1]) == k
  {
    var n := |s| - 1;
    if Carries(key, s, k) && key(s[n]) != k {
      var j :| 0 <= j < |s| && key(s[j]) == k;
      assert s[..n][j] == s[j];
    }
    if Carries(key, s[..n], k) {
      var j :| 0 <= j < n && key(s[..n][j]) == k;
      assert s[j] == s[..n][j];
    }
  }

  lemma KeysOfAppend(key: ItemKey, p: seq<NewsItem>, x: NewsItem)
    ensures KeysOf(key, p + [x]) == KeysOf(key, p) + [key(x)]
  {
  }

  /** A long enough key has been let through exactly when some earlier item carried it. */
  lemma {:induction false} SeenKeys(key: ItemKey, s: seq<NewsItem>, k: string)
    requires |k| >= 10
    ensures k in KeysOf(key, KeptBy(key, s)) <==> Carries(key, s, k)
    decreases |s|
  {
    if s != [] {
      var n := |s| - 1;
      var p := KeptBy(key, s[..n]);
      SeenKeys(key, s[..n], k);
      CarriesStep(key, s, k);
      if Admits(key, p, s[n]) {
        KeysOfAppend(key, p, s[n]);
      }
    }
  }

  /** Item `i` is kept exactly when its key is at least 10 characters long and no earlier item
      has the same key; otherwise it is dropped. */
  lemma KeptIff(key: ItemKey, s: seq<NewsItem>, i: nat)
    requires i < |s|
    ensures Admits(key, KeptBy(key, s[..i]), s[i]) <==>
      |key(s[i])| >= 10 && forall j :: 0 <= j < i ==> key(s[j]) != key(s[i])
  {
    if |key(s[i])| >= 10 {
      SeenKeys(key, s[..i], key(s[i]));
      assert forall j :: 0 <= j < i ==> s[..i][j] == s[j];
      if Carries(key, s[..i], key(s[i])) {
        var j :| 0 <= j < i && key(s[..i][j]) == key(s[i]);
        assert key(s[j]) == key(s[i]);
      }
    }
  }

  /** An item whose title has no character that lowers to an ASCII word character (an
      all-Cyrillic title, say) is dropped. */
  lemma CyrillicTitleDropped(s: seq<NewsItem>, i: nat)
    requires i < |s| && forall k :: 0 <= k < |s[i].title| ==> !YieldsWordChar(s[i].title[k])
    ensures !Admits(ByTitle, KeptBy(ByTitle, s[..i]), s[i])
  {
    NoWordCharsEmptyKey(s[i].title);
  }

  // ---------------------------------------------------------------------------------
  // The cache (`updateNewsCache`)

  /** What fetching and parsing each feed URL gives. */
  type FeedFetch = string -> FeedResult

  /** The items of the enabled sources, in order. */
  function Collected(srcs: seq<ConfigSource>, feed: FeedFetch, now: int): (r: seq<NewsItem>)
    ensures forall x :: x in r ==> ValidParsed(x)
  {
    if srcs == [] then []
    else
      var n := |srcs| - 1;
      Collected(srcs[..n], feed, now) + ParseRssFeed(srcs[n], feed(srcs[n].url), now)
  }

  lemma CollectedStep(srcs: seq<ConfigSource>, k: nat, feed: FeedFetch, now: int)
    requires k < |srcs|
    ensures Collected(srcs[..k + 1], feed, now) == Collected(srcs[..k], feed, now) + ParseRssFeed(srcs[k], feed(srcs[k].url), now)
  {
    assert srcs[..k + 1][..k] == srcs[..k];
  }

  /** Every entry of every feed has a date that parses, or none at all. */
  ghost predicate FeedsDated(feed: FeedFetch) {
    forall url :: feed(url).Feed? ==> forall i :: 0 <= i < |feed(url).items| ==> !PublishedText(feed(url).items[i]).BadDate?
  }

  lemma ParseRssFeedDated(src: ConfigSource, feed: FeedFetch, now: int)
    requires FeedsDated(feed)
    ensures AllDated(ParseRssFeed(src, feed(src.url), now))
  {
    var f := feed(src.url);
    if f.Feed? {
      NormalizedDated(src, f.items, now);
      var r := ParseRssFeed(src, f, now);
      SubsequenceDated(r, Normalized(src, f.items, now));
    }
  }

  lemma NormalizedDated(src: ConfigSource, es: seq<FeedEntry>, now: int)
    requires forall i :: 0 <= i < |es| ==> !PublishedText(es[i]).BadDate?
    ensures AllDated(Normalized(src, es, now))
  {
    forall i | 0 <= i < |es| ensures Normalized(src, es, now)[i].rawDate.Some? {
      NormalizedAt(src, es, now, i);
      ToItemDated(src, es[i], now);
    }
  }

  /** An entry whose date parses, or that has none, gets an instant. */
  lemma ToItemDated(src: ConfigSource, e: FeedEntry, now: int)
    requires !PublishedText(e).BadDate?
    ensures ToItem(src, e, now).rawDate.Some?
  {
  }

  lemma {:induction false} CollectedDated(srcs: seq<ConfigSource>, feed: FeedFetch, now: int)
    requires FeedsDated(feed)
    ensures AllDated(Collected(srcs, feed, now))
    decreases |srcs|
  {
    if srcs != [] {
      var n := |srcs| - 1;
      CollectedDated(srcs[..n], feed, now);
      ParseRssFeedDated(srcs[n], feed, now);
      DatedAppend(Collected(srcs[..n], feed, now), ParseRssFeed(srcs[n], feed(srcs[n].url), now));
    }
  }

  /** The filter of `updateNewsCache`: a title and a source URL. */
  predicate HasTitleAndUrl(x: NewsItem) {
    x.title != "" && x.sourceUrl != ""
  }

  /** `removeDuplicates(all).filter(...).sort(newest first).slice(0, 100)`. */
  function CacheOf(key: ItemKey, all: seq<NewsItem>): (r: seq<NewsItem>)
    requires AllDated(all)
    ensures |r| <= 100 && SortedByDate(r)
    ensures var valid := Filter(HasTitleAndUrl, KeptBy(key, all));
      |r| == if |valid| <= 100 then |valid| else 100
  {
    var unique := KeptBy(key, all);
    var valid := Filter(HasTitleAndUrl, unique);
    SubsequenceDated(unique, all);
    SubsequenceDated(valid, unique);
    Newest(valid, 100)
  }

  /** The cache is the head of the sorted, deduplicated, validated items: all of them when
      there are at most 100, otherwise the first 100. */
  lemma CacheOfNewest(key: ItemKey, all: seq<NewsItem>)
    requires AllDated(all)
    ensures var valid := Filter(HasTitleAndUrl, KeptBy(key, all));
      && AllDated(valid)
      && CacheOf(key, all) == SortByDate(valid)[..if |valid| <= 100 then |valid| else 100]
  {
    var unique := KeptBy(key, all);
    SubsequenceDated(unique, all);
    SubsequenceDated(Filter(HasTitleAndUrl, unique), unique);
  }

  /** Truncation keeps the newest: a deduplicated, valid item left out of the cache is no
      newer than any cached item. */
  lemma CacheOfKeepsNewest(key: ItemKey, all: seq<NewsItem>, i: nat, y: NewsItem)
    requires AllDated(all)
    requires i < |CacheOf(key, all)| && y in Filter(HasTitleAndUrl, KeptBy(key, all)) && y !in CacheOf(key, all)
    ensures y.rawDate.Some? && Date(CacheOf(key, all)[i]) >= Date(y)
  {
    var unique := KeptBy(key, all);
    var valid := Filter(HasTitleAndUrl, unique);
    SubsequenceDated(unique, all);
    SubsequenceDated(valid, unique);
    NewestKeepsNewest(valid, 100, i, y);
  }

  /** What the cache always satisfies: at most 100 items, newest first, every title proper
      and every key long and unique, every item with a link. */
  predicate WellFormedCache(key: ItemKey, cache: seq<NewsItem>) {
    && |cache| <= 100
    && SortedByDate(cache)
    && DistinctKeys(key, cache)
    && forall x :: x in cache ==> ValidParsed(x) && |key(x)| >= 10
  }

  /** Items seen at two positions occur twice. */
  lemma TwoPositions(s: seq<NewsItem>, i: nat, j: nat)
    requires i < j < |s| && s[i] == s[j]
    ensures multiset(s)[s[i]] >= 2
  {
    assert s == s[..j] + [s[j]] + s[j + 1..];
    assert s[i] in s[..j];
  }

  /** An item occurring twice sits at two positions. */
  lemma PositionsOfTwice(s: seq<NewsItem>, x: NewsItem) returns (i: nat, j: nat)
    requires multiset(s)[x] >= 2
    ensures i < j < |s| && s[i] == x && s[j] == x
  {
    assert x in s;
    var a :| 0 <= a < |s| && s[a] == x;
    assert s == s[..a] + [x] + s[a + 1..];
    var rest := s[..a] + s[a + 1..];
    assert multiset(s) == multiset(rest) + multiset{x};
    assert x in multiset(rest);
    if x in s[..a] {
      var b :| 0 <= b < a && s[..a][b] == x;
      i, j := b, a;
    } else {
      assert x in s[a + 1..];
      var c :| 0 <= c < |s| - a - 1 && s[a + 1..][c] == x;
      i, j := a, a + 1 + c;
    }
  }

  /** Reordering keeps keys distinct. */
  lemma DistinctKeysPermutation(key: ItemKey, s: seq<NewsItem>, t: seq<NewsItem>)
    requires multiset(s) == multiset(t) && DistinctKeys(key, s)
    ensures DistinctKeys(key, t)
  {
    forall i, j | 0 <= i < |t| && 0 <= j < |t| && i != j ensures key(t[i]) != key(t[j]) {
      if t[i] == t[j] {
        if i < j { TwoPositions(t, i, j); } else { TwoPositions(t, j, i); }
        var a, b := PositionsOfTwice(s, t[i]);
      } else {
        assert t[i] in multiset(s) && t[j] in multiset(s);
        var a :| 0 <= a < |s| && s[a] == t[i];
        var b :| 0 <= b < |s| && s[b] == t[j];
      }
    }
  }

  /**
   * The cache built from parsed items is well formed, and each cached item was parsed.
   * When long keys come only from titled items, the filter after deduplication drops nothing.
   */
  lemma CacheOfWellFormed(key: ItemKey, all: seq<NewsItem>)
    requires AllDated(all) && forall x :: x in all ==> ValidParsed(x)
    requires forall x :: |key(x)| >= 10 ==> x.title != ""
    ensures WellFormedCache(key, CacheOf(key, all))
    ensures forall x :: x in CacheOf(key, all) ==> x in all
    ensures Filter(HasTitleAndUrl, KeptBy(key, all)) == KeptBy(key, all)
  {
    var unique := KeptBy(key, all);
    KeptAreValid(key, all);
    FilterAll(HasTitleAndUrl, unique);
    SubsequenceDated(unique, all);
    var sorted := SortByDate(unique);
    KeptByDistinct(key, all);
    DistinctKeysPermutation(key, unique, sorted);
    SortedPrefixMembers(key, unique, sorted);
  }

  /** The kept items are parsed items, each with a long key, a title and a link. */
  lemma KeptAreValid(key: ItemKey, all: seq<NewsItem>)
    requires forall x :: x in all ==> ValidParsed(x)
    requires forall x :: |key(x)| >= 10 ==> x.title != ""
    ensures forall x :: x in KeptBy(key, all) ==> x in all && ValidParsed(x) && |key(x)| >= 10 && HasTitleAndUrl(x)
  {
    var unique := KeptBy(key, all);
    SubsequenceMembers(unique, all);
    forall x | x in unique ensures |key(x)| >= 10 {
      var i :| 0 <= i < |unique| && unique[i] == x;
    }
  }

  /** The first 100 of a reordering of `unique` are items of `unique` and keep distinct keys. */
  lemma SortedPrefixMembers(key: ItemKey, unique: seq<NewsItem>, sorted: seq<NewsItem>)
    requires multiset(unique) == multiset(sorted) && DistinctKeys(key, sorted)
    ensures forall x :: x in Take(sorted, 100) ==> x in unique
    ensures DistinctKeys(key, Take(sorted, 100))
  {
    var cache := Take(sorted, 100);
    assert forall i :: 0 <= i < |cache| ==> cache[i] == sorted[i];
    forall x | x in cache ensures x in unique {
      assert x in multiset(sorted);
    }
  }

  /** The shape of `getNewsStats`' answer. */
  datatype NewsStats = NewsStats(totalNews: nat, lastUpdate: Option<int>, sourceStats: Tally, categoryStats: Tally)

  /** The items of all sources, in order: the source loop of `updateNewsCache`. */
  method CollectFeeds(srcs: seq<ConfigSource>, feed: FeedFetch, now: int) returns (allNews: seq<NewsItem>)
    ensures allNews == Collected(srcs, feed, now)
  {
    allNews := [];
    var k := 0;
    while k < |srcs|
      invariant 0 <= k <= |srcs|
      invariant allNews == Collected(srcs[..k], feed, now)
    {
      var news := ParseRssFeed(srcs[k], feed(srcs[k].url), now);
      CollectedStep(srcs, k, feed, now);
      allNews := allNews + news;
      k := k + 1;
    }
    assert srcs[..|srcs|] == srcs;
  }

  /** The body of `updateNewsCache` for the feed list `cfg` and the key `key`. */
  method RefreshCache(key: ItemKey, cfg: seq<ConfigSource>, feed: FeedFetch, now: int) returns (cache: seq<NewsItem>)
    requires FeedsDated(feed)
    requires forall x :: |key(x)| >= 10 ==> x.title != ""
    ensures AllDated(Collected(EnabledSources(cfg), feed, now))
    ensures cache == CacheOf(key, Collected(EnabledSources(cfg), feed, now))
    ensures WellFormedCache(key, cache)
  {
    var enabledSources := EnabledSources(cfg);
    var allNews := CollectFeeds(enabledSources, feed, now);
    CollectedDated(enabledSources, feed, now);
    CacheOfWellFormed(key, allNews);
    var unique := RemoveDuplicates(key, allNews);
    var valid := Filter(HasTitleAndUrl, unique);
    SubsequenceDated(unique, allNews);
    assert valid == unique;
    cache := Take(SortByDate(valid), 100);
  }

  /** JavaScript's `s.slice(start, end)` for non-negative bounds. */
  function Slice<T>(s: seq<T>, start: nat, end: nat): (r: seq<T>)
    ensures |r| <= |s| && (end >= start ==> |r| <= end - start)
    ensures start <= |s| && end >= start ==> r == s[start..if end <= |s| then end else |s|]
    ensures start >= |s| || end <= start ==> r == []
  {
    var lo := if start <= |s| then start else |s|;
    var hi := if end <= |s| then end else |s|;
    if hi <= lo then [] else s[lo..hi]
  }

  /** Adjacent slices join into one. */
  lemma SliceAdjacent<T>(s: seq<T>, a: nat, b: nat, c: nat)
    requires a <= b <= c
    ensures Slice(s, a, b) + Slice(s, b, c) == Slice(s, a, c)
  {
    if a < |s| {
      var hb := if b <= |s| then b else |s|;
      var hc := if c <= |s| then c else |s|;
      assert s[a..hb] + s[hb..hc] == s[a..hc];
    }
  }

  /** The cached items of the requested category; no category (`undefined` or `''`) and
      "all" mean every item. */
  function CategoryView(cache: seq<NewsItem>, category: string): (f: seq<NewsItem>)
    ensures IsSubsequence(f, cache)
    ensures forall x :: x in f <==> x in cache && (category == "" || category == "all" || x.category == category)
    ensures category == "" || category == "all" ==> f == cache
  {
    if category != "" && category != "all" then Filter((x: NewsItem) => x.category == category, cache)
    else
      SubsequenceOfSelf(cache);
      cache
  }

  lemma {:induction false} SubsequenceOfSelf<T>(s: seq<T>)
    ensures IsSubsequence(s, s)
    decreases |s|
  {
    if s != [] {
      SubsequenceOfSelf(s[..|s| - 1]);
    }
  }

  /** `filteredNews.slice(offset, offset + limit)` for the category view of `cache`. */
  function Page(cache: seq<NewsItem>, category: string, limit: nat, from: nat): (r: seq<NewsItem>)
    ensures |r| <= limit
    ensures forall x :: x in r ==> x in cache && (category == "" || category == "all" || x.category == category)
  {
    var view := CategoryView(cache, category);
    var r := Slice(view, from, from + limit);
    assert forall x :: x in r ==> x in view;
    r
  }

  /** Consecutive pages are consecutive runs of the same filtered list. */
  lemma PagesJoin(cache: seq<NewsItem>, category: string, a: nat, b: nat, from: nat)
    ensures Page(cache, category, a, from) + Page(cache, category, b, from + a) == Page(cache, category, a + b, from)
  {
    SliceAdjacent(CategoryView(cache, category), from, from + a, from + a + b);
  }

  /** A first page large enough returns every cached item of the category, in cache order. */
  lemma WholeCategoryPage(cache: seq<NewsItem>, category: string, limit: nat)
    requires |cache| <= limit
    ensures Page(cache, category, limit, 0) == CategoryView(cache, category)
  {
    var f := CategoryView(cache, category);
    SubsequenceMembers(f, cache);
    assert f[0..|f|] == f;
  }

  /** The module-level state of newsService: `newsCache` and `lastUpdate`. */
  class NewsService {
    var newsCache: seq<NewsItem>
    var lastUpdate: Option<int>

    predicate Valid()
      reads this
    {
      WellFormedCache(ByTitle, newsCache)
    }

    constructor()
      ensures Valid()
      ensures newsCache == [] && lastUpdate == None
    {
      newsCache := [];
      lastUpdate := None;
    }

    /** `updateNewsCache` at instant `now`: the parsed items of the enabled sources,
        deduplicated by title key, newest first, at most 100. */
    method UpdateNewsCache(feed: FeedFetch, now: int)
      modifies this
      requires FeedsDated(feed)
      ensures AllDated(Collected(EnabledSources(ConfiguredSources), feed, now))
      ensures newsCache == CacheOf(ByTitle, Collected(EnabledSources(ConfiguredSources), feed, now))
      ensures lastUpdate == Some(now)
      ensures Valid()
    {
      LongKeysHaveTitles();
      newsCache := RefreshCache(ByTitle, ConfiguredSources, feed, now);
      lastUpdate := Some(now);
    }

    /** `getNews(city, { category, limit, offset })`; `None` is an absent option, which takes
        the defaults 20 and 0. */
    function GetNews(category: string, limit: Option<nat>, offset: Option<nat>): (r: seq<NewsItem>)
      reads this
      ensures |r| <= limit.GetOr(20)
      ensures forall x :: x in r ==> x in newsCache && (category == "" || category == "all" || x.category == category)
    {
      Page(newsCache, category, limit.GetOr(20), offset.GetOr(0))
    }

    /** `getNewsStats`: the item count, the last update, and per source name and per category
        how many cached items carry it. */
    method GetNewsStats() returns (stats: NewsStats)
      ensures stats.totalNews == |newsCache| && stats.lastUpdate == lastUpdate
      ensures Total(stats.sourceStats) == stats.totalNews && Total(stats.categoryStats) == stats.totalNews
      ensures DistinctNames(stats.sourceStats) && DistinctNames(stats.categoryStats)
      ensures forall k :: Lookup(stats.sourceStats, k) == Occurrences(Keys(BySourceName, newsCache), k)
      ensures forall k :: Lookup(stats.categoryStats, k) == Occurrences(Keys(ByCategory, newsCache), k)
    {
      var sourceStats := CountBy(BySourceName, newsCache);
      var categoryStats := CountBy(ByCategory, newsCache);
      TallyOfSpec(Keys(BySourceName, newsCache));
      TallyOfSpec(Keys(ByCategory, newsCache));
      stats := NewsStats(|newsCache|, lastUpdate, sourceStats, categoryStats);
    }
  }
}
