/**
 * The scraping Telegram parser (telegramParser.js): the message blocks of each channel's
 * public `t.me/s/<channel>` page become posts, the view counter text is read with its K/M
 * suffix, and a refresh caches at most 50 posts, deduplicated by URL or description and
 * sorted newest first. The fetched and selected page is an input: a failed request, or the
 * sequence of message blocks with the attributes and texts the parser reads.
 */
module TelegramScrape {
  import opened Wrappers
  import opened Strings
  import opened Base64
  import opened Dates
  import opened TextFilter
  import opened News
  import opened Aggregation

  /** One entry of `this.channels`; here `username` has no '@'. */
  datatype Channel = Channel(id: string, name: string, username: string, url: string, category: string)

  const Channels: seq<Channel> := [
    Channel("nn_ru", "Новости Нижнего Новгорода | NN.RU", "nn_ru", "https://t.me/s/nn_ru", "Новости"),
    Channel("moynnov", "Мой Нижний Новгород", "moynnov", "https://t.me/s/moynnov", "Новости"),
    Channel("nn_obl", "ЧП Нижний Новгород", "nn_obl", "https://t.me/s/nn_obl", "ЧП и происшествия"),
    Channel("mynnovgorod", "Мой Нижний Новгород", "mynnovgorod", "https://t.me/s/mynnovgorod", "Городские новости"),
    Channel("bez_cenz_nn", "Нижний Новгород БЕЗ ЦЕНЗУРЫ", "bez_cenz_nn", "https://t.me/s/bez_cenz_nn", "Новости")
  ]

  /** The `.tgme_widget_message_photo_wrap` element: absent, or present with the capture of
      `background-image:url('([^']+)')` on its style (none when it has no style or no match). */
  datatype PhotoWrap = NoPhotoWrap | PhotoWrap(styleMatch: Option<Capture>)

  /**
   * One `.tgme_widget_message` block: its `data-post` attribute ("" when absent), the
   * `datetime` of its date element, the text of its text and views elements before
   * trimming, its photo wrap, and `draw` and `tag`, the value and the text of the
   * `Math.random()` calls made for it.
   */
  datatype MessageBlock = MessageBlock(
    dataPost: string,
    dateTime: DateText,
    text: string,
    views: string,
    photo: PhotoWrap,
    draw: nat,
    tag: string)

  /** The channel page: the request failed, or its message blocks in document order. */
  datatype ChannelPage = PageFailed | Page(blocks: seq<MessageBlock>)

  // ---------------------------------------------------------------------------------
  // `postId?.split('/')[1] || ''`

  /** The second '/'-separated field of `s`, "" when `s` has no '/'. */
  function SecondSegment(s: string): (r: string)
    ensures '/' !in r
  {
    var i := IndexOf(s, '/');
    if i < 0 then ""
    else
      var rest := s[i + 1..];
      var j := IndexOf(rest, '/');
      if j < 0 then rest else rest[..j]
  }

  /** `data-post` is `<channel>/<id>`: the second field is the message id; with no '/' (or no
      attribute at all) it is empty. */
  lemma SecondSegmentOf(a: string, b: string, c: string)
    requires '/' !in a && '/' !in b
    ensures SecondSegment(a + "/" + b) == b
    ensures SecondSegment(a + "/" + b + "/" + c) == b
    ensures SecondSegment(a) == ""
  {
    IndexOfAfter(a, '/', b);
    var s1 := a + "/" + b;
    assert s1[|a| + 1..] == b;
    var s2 := a + "/" + b + "/" + c;
    IndexOfAfter(a, '/', b + "/" + c);
    assert s2 == a + "/" + (b + "/" + c);
    var rest := s2[|a| + 1..];
    assert rest == b + "/" + c;
    IndexOfAfter(b, '/', c);
    assert rest[..|b|] == b;
  }

  // ---------------------------------------------------------------------------------
  // `parseViews`

  /** The longest prefix of decimal digits (`\d+` is ASCII-only). */
  function LeadingDigits(s: string): (r: string)
    ensures AllDigits(r) && StartsWith(s, r)
    ensures |r| < |s| ==> !IsDigit(s[|r|])
  {
    if s != [] && IsDigit(s[0]) then [s[0]] + LeadingDigits(s[1..]) else []
  }

  /** `s` from its first digit on, or empty when it has none. */
  function FromFirstDigit(s: string): (r: string)
    ensures |r| <= |s| && r == s[|s| - |r|..]
    ensures r == [] || IsDigit(r[0])
    ensures forall k :: 0 <= k < |s| - |r| ==> !IsDigit(s[k])
  {
    if s == [] || IsDigit(s[0]) then s else FromFirstDigit(s[1..])
  }

  function Pow10(n: nat): (p: nat)
    ensures p >= 1
  {
    if n == 0 then 1 else 10 * Pow10(n - 1)
  }

  /** The factor of a character matched by `[KMкм]` under the `i` flag. */
  function Multiplier(c: char): nat {
    if c == 'K' || c == 'k' || c == 'К' || c == 'к' then 1000
    else if c == 'M' || c == 'm' || c == 'М' || c == 'м' then 1000000
    else 1
  }

  /** The digits of `(?:\.\d+)?` at the front of `rest`, "" when there is no fraction. */
  function FractionDigits(rest: string): (r: string)
    ensures AllDigits(r)
    ensures r != "" ==> |rest| >= 1 + |r| && rest[0] == '.'
  {
    if |rest| >= 2 && rest[0] == '.' && IsDigit(rest[1]) then LeadingDigits(rest[1..]) else ""
  }

  /** The factor of the optional suffix after `\s*`. */
  function SuffixFactor(after: string): nat {
    var tail := TrimStart(after);
    if tail != [] then Multiplier(tail[0]) else 1
  }

  /**
   * The count a number `w.f` (with `k` fraction digits) and a suffix factor `m` give:
   * `Math.floor(parseFloat(...) * m)` on the exact decimal, which in integers is
   * `w·m + ⌊f·m / 10^k⌋`.
   */
  function Scaled(w: nat, f: nat, k: nat, factor: nat): nat {
    var units: nat := w * factor;
    var part: nat := f * factor;
    var scale := Pow10(k);
    units + DivDown(part, scale)
  }

  function DivDown(a: nat, b: nat): (q: nat)
    requires b > 0
    ensures q * b <= a < q * b + b
  {
    a / b
  }

  /** The count read from a text that starts with a digit. */
  function ReadViews(t: string): nat
    requires t != [] && IsDigit(t[0])
  {
    var whole := LeadingDigits(t);
    var rest := t[|whole|..];
    var fraction := FractionDigits(rest);
    var after := if fraction == "" then rest else rest[1 + |fraction|..];
    Scaled(DigitsValue(whole), DigitsValue(fraction), |fraction|, SuffixFactor(after))
  }

  /**
   * `parseViews(viewsText)`: the first match of `(\d+(?:\.\d+)?)\s*([KMкм]?)`, read as a
   * decimal, scaled by its suffix and rounded down; `100 + draw % 500` (a random count in
   * [100, 599]) when the text is empty or has no digit.
   */
  function ParseViews(text: string, draw: nat): nat {
    var t := FromFirstDigit(text);
    if t == [] then 100 + draw % 500 else ReadViews(t)
  }

  lemma {:induction false} LeadingDigitsOf(a: string, b: string)
    requires AllDigits(a) && (b == [] || !IsDigit(b[0]))
    ensures LeadingDigits(a + b) == a
    decreases |a|
  {
    if a == [] {
      assert a + b == b;
    } else {
      assert (a + b)[1..] == a[1..] + b;
      LeadingDigitsOf(a[1..], b);
    }
  }

  /** A text without digits gets a random count in [100, 599]. */
  lemma ViewsWithoutDigits(text: string, draw: nat)
    requires forall i :: 0 <= i < |text| ==> !IsDigit(text[i])
    ensures 100 <= ParseViews(text, draw) < 600
  {
    assert FromFirstDigit(text) == [];
  }

  /** A whole number followed by text that opens with no digit and no fraction. */
  lemma ReadWhole(whole: string, after: string)
    requires whole != [] && AllDigits(whole)
    requires (after == [] || !IsDigit(after[0])) && FractionDigits(after) == ""
    ensures FromFirstDigit(whole + after) == whole + after
    ensures ReadViews(whole + after) == Scaled(DigitsValue(whole), 0, 0, SuffixFactor(after))
  {
    var t := whole + after;
    assert t[0] == whole[0];
    LeadingDigitsOf(whole, after);
    assert t[|whole|..] == after;
  }

  /** The `.fraction` part after the whole digits. */
  lemma FractionOf(fraction: string, after: string)
    requires fraction != [] && AllDigits(fraction)
    requires after == [] || !IsDigit(after[0])
    ensures FractionDigits(['.'] + fraction + after) == fraction
    ensures (['.'] + fraction + after)[1 + |fraction|..] == after
  {
    var rest := ['.'] + fraction + after;
    assert rest[0] == '.' && rest[1] == fraction[0];
    assert rest[1..] == fraction + after;
    LeadingDigitsOf(fraction, after);
  }

  /** The whole digits of `whole.fraction...` are `whole`, and the text goes on at the dot. */
  lemma WholeBeforeDot(whole: string, rest: string)
    requires whole != [] && AllDigits(whole) && rest != [] && rest[0] == '.'
    ensures IsDigit((whole + rest)[0])
    ensures LeadingDigits(whole + rest) == whole && (whole + rest)[|whole|..] == rest
  {
    assert (whole + rest)[0] == whole[0];
    LeadingDigitsOf(whole, rest);
    assert (whole + rest)[|whole|..] == rest;
  }

  /** `ReadViews` once its three parts are known. */
  lemma ReadViewsParts(t: string, whole: string, rest: string, fraction: string, after: string)
    requires t != [] && IsDigit(t[0])
    requires LeadingDigits(t) == whole && t[|whole|..] == rest && FractionDigits(rest) == fraction
    requires fraction != "" && 1 + |fraction| <= |rest| && rest[1 + |fraction|..] == after
    ensures ReadViews(t) == Scaled(DigitsValue(whole), DigitsValue(fraction), |fraction|, SuffixFactor(after))
  {
  }

  lemma {:induction false} SpacesThenSuffix(spaces: string, suffix: string)
    requires forall i :: 0 <= i < |spaces| ==> spaces[i] == ' '
    requires suffix == [] || (|suffix| == 1 && Multiplier(suffix[0]) > 1)
    ensures TrimStart(spaces + suffix) == suffix
    decreases |spaces|
  {
    if spaces == [] {
      assert spaces + suffix == suffix;
    } else {
      assert (spaces + suffix)[1..] == spaces[1..] + suffix;
      SpacesThenSuffix(spaces[1..], suffix);
    }
  }

  /** A suffix character other than a digit, a dot or a space is taken (or ignored) at once. */
  lemma SuffixOf(spaces: string, suffix: string)
    requires forall i :: 0 <= i < |spaces| ==> spaces[i] == ' '
    requires suffix == [] || (|suffix| == 1 && Multiplier(suffix[0]) > 1)
    ensures SuffixFactor(spaces + suffix) == if suffix == [] then 1 else Multiplier(suffix[0])
    ensures FractionDigits(spaces + suffix) == ""
    ensures spaces + suffix == [] || !IsDigit((spaces + suffix)[0])
  {
    SpacesThenSuffix(spaces, suffix);
    var after := spaces + suffix;
    assert after == [] || after[0] == ' ' || after[0] == suffix[0];
  }

  /**
   * A counter as Telegram renders it reads back: a whole number, optionally followed by
   * spaces and a K/к (thousands) or M/м (millions) suffix of either case, gives that number
   * times the suffix's factor.
   */
  lemma ViewsOfCount(n: nat, spaces: string, suffix: string, draw: nat)
    requires forall i :: 0 <= i < |spaces| ==> spaces[i] == ' '
    requires suffix == [] || (|suffix| == 1 && Multiplier(suffix[0]) > 1)
    ensures ParseViews(NatToString(n) + spaces + suffix, draw) == n * (if suffix == [] then 1 else Multiplier(suffix[0]))
  {
    var digits := NatToString(n);
    var after := spaces + suffix;
    assert digits + spaces + suffix == digits + after;
    assert AllDigits(digits);
    SuffixOf(spaces, suffix);
    ReadWhole(digits, after);
    NatToStringRoundTrip(n);
    ScaledWhole(n, SuffixFactor(after));
  }

  lemma ScaledWhole(w: nat, m: nat)
    ensures Scaled(w, 0, 0, m) == w * m
  {
    assert 0 * m == 0;
    assert DivDown(0, 1) == 0;
  }

  /**
   * A decimal such as "1.5K" reads as its exact value times the suffix's factor, rounded
   * down: `w.f` with `k` fraction digits gives `w·m + ⌊f·m / 10^k⌋` (1500 for "1.5K").
   */
  lemma ViewsOfDecimal(whole: string, fraction: string, spaces: string, suffix: string, draw: nat)
    requires whole != [] && AllDigits(whole) && fraction != [] && AllDigits(fraction)
    requires forall i :: 0 <= i < |spaces| ==> spaces[i] == ' '
    requires suffix == [] || (|suffix| == 1 && Multiplier(suffix[0]) > 1)
    ensures ParseViews(whole + "." + fraction + spaces + suffix, draw) ==
      Scaled(DigitsValue(whole), DigitsValue(fraction), |fraction|, if suffix == [] then 1 else Multiplier(suffix[0]))
  {
    var after := spaces + suffix;
    var rest := ['.'] + fraction + after;
    var t := whole + rest;
    assert whole + "." + fraction + spaces + suffix == t;
    SuffixOf(spaces, suffix);
    WholeBeforeDot(whole, rest);
    FractionOf(fraction, after);
    ReadViewsParts(t, whole, rest, fraction, after);
    assert FromFirstDigit(t) == t;
  }

  // ---------------------------------------------------------------------------------
  // One block, one channel

  /** The text the id of a scraped post encodes: `tg_${channel.id}_${postId || Date.now()}_${Math.random()}`. */
  function ScrapeIdText(ch: Channel, b: MessageBlock, now: nat): string {
    "tg_" + ch.id + "_" + OrElse(b.dataPost, NatToString(now)) + "_" + b.tag
  }

  /** `https://t.me/<username>/<second field of data-post>`. */
  function BlockUrl(ch: Channel, b: MessageBlock): string {
    "https://t.me/" + ch.username + "/" + SecondSegment(b.dataPost)
  }

  /** The post built from one message block at instant `now`, or `None` when it is skipped. */
  function ParseBlock(ch: Channel, b: MessageBlock, now: nat): Option<NewsItem> {
    var text := Trim(b.text);
    if |text| < 10 || !IsRussianText(text) then None
    else
      Some(NewsItem(
        id := EncodeText(ScrapeIdText(ch, b, now)),
        title := ExtractTitle(text),
        description := CleanText(text),
        imageUrl := if b.photo.PhotoWrap? then b.photo.styleMatch else None,
        sourceUrl := BlockUrl(ch, b),
        publishedAt := FormatRelative(b.dateTime, now),
        rawDate := Instant(b.dateTime),
        source := SourceRef(ch.id, ch.name, "Telegram"),
        category := ch.category,
        viewCount := ParseViews(Trim(b.views), b.draw),
        isLiked := false,
        platform := TelegramPlatform))
  }

  /**
   * A block becomes a post exactly when its trimmed text has at least 10 characters and is
   * Russian. The image is the photo wrap's background URL when there is one; the URL is the
   * channel's t.me address followed by the message id of `data-post`, and just the address
   * with a trailing '/' when the block has no `data-post`.
   */
  lemma BlockSpec(ch: Channel, b: MessageBlock, now: nat)
    ensures var r := ParseBlock(ch, b, now);
      && (r.Some? <==> |Trim(b.text)| >= 10 && IsRussianText(Trim(b.text)))
      && (r.Some? ==>
        && Decode(r.value.id) == Some(Utf8(ScrapeIdText(ch, b, now)))
        && StartsWith(r.value.sourceUrl, "https://t.me/" + ch.username + "/")
        && (b.dataPost == "" ==> r.value.sourceUrl == "https://t.me/" + ch.username + "/")
        && (r.value.imageUrl.Some? <==> b.photo.PhotoWrap? && b.photo.styleMatch.Some?)
        && |r.value.title| <= 100 && |r.value.description| <= 500
        && r.value.rawDate == Instant(b.dateTime)
        && (b.dateTime.NoDate? <==> r.value.publishedAt == Unknown))
  {
    FormatRelativeUnknown(b.dateTime, now);
    var prefix := "https://t.me/" + ch.username + "/";
    assert BlockUrl(ch, b) == prefix + SecondSegment(b.dataPost);
    assert BlockUrl(ch, b)[..|prefix|] == prefix;
    if b.dataPost == "" {
      assert SecondSegment(b.dataPost) == "";
    }
  }

  function BlockResults(ch: Channel, bs: seq<MessageBlock>, now: nat): (r: seq<Option<NewsItem>>)
    ensures |r| == |bs| && forall i :: 0 <= i < |bs| ==> r[i] == ParseBlock(ch, bs[i], now)
  {
    seq(|bs|, i requires 0 <= i < |bs| => ParseBlock(ch, bs[i], now))
  }

  /** The posts `parseChannel` returns for one page: those of its first 15 blocks. */
  function ChannelPosts(ch: Channel, page: ChannelPage, now: nat): seq<NewsItem> {
    match page
    case PageFailed => []
    case Page(blocks) => Present(BlockResults(ch, Take(blocks, 15), now))
  }

  /** At most 15 posts per channel, each from one of its first 15 blocks. */
  lemma ChannelPostsFrom(ch: Channel, page: ChannelPage, now: nat)
    ensures |ChannelPosts(ch, page, now)| <= 15
    ensures page.PageFailed? ==> ChannelPosts(ch, page, now) == []
    ensures page.Page? ==> forall x :: x in ChannelPosts(ch, page, now) ==>
      exists i :: 0 <= i < |page.blocks| && i < 15 && ParseBlock(ch, page.blocks[i], now) == Some(x)
  {
    if page.Page? {
      var scan := Take(page.blocks, 15);
      var rs := BlockResults(ch, scan, now);
      PresentMembers(rs);
      forall x | x in ChannelPosts(ch, page, now)
        ensures exists i :: 0 <= i < |page.blocks| && i < 15 && ParseBlock(ch, page.blocks[i], now) == Some(x)
      {
        assert Some(x) in rs;
        var i :| 0 <= i < |rs| && rs[i] == Some(x);
        assert scan[i] == page.blocks[i];
      }
    }
  }

  /** Every block of every fetched page carries a valid date, so the cache sort is well defined. */
  ghost predicate PagesDated(pages: string -> ChannelPage) {
    forall url :: pages(url).Page? ==> forall i :: 0 <= i < |pages(url).blocks| ==> pages(url).blocks[i].dateTime.At?
  }

  lemma ChannelPostsDated(ch: Channel, page: ChannelPage, now: nat)
    requires page.Page? ==> forall i :: 0 <= i < |page.blocks| ==> page.blocks[i].dateTime.At?
    ensures AllDated(ChannelPosts(ch, page, now))
  {
    if page.Page? {
      var scan := Take(page.blocks, 15);
      assert forall i :: 0 <= i < |scan| ==> scan[i] == page.blocks[i];
      PresentDated(BlockResults(ch, scan, now));
    }
  }

  /** The posts of the first `n` channels, in channel order. */
  function Gathered(pages: string -> ChannelPage, n: nat, now: nat): seq<NewsItem>
    requires n <= |Channels|
  {
    if n == 0 then []
    else Gathered(pages, n - 1, now) + ChannelPosts(Channels[n - 1], pages(Channels[n - 1].url), now)
  }

  lemma {:induction false} GatheredDated(pages: string -> ChannelPage, n: nat, now: nat)
    requires n <= |Channels| && PagesDated(pages)
    ensures AllDated(Gathered(pages, n, now))
  {
    if n > 0 {
      GatheredDated(pages, n - 1, now);
      var ch := Channels[n - 1];
      ChannelPostsDated(ch, pages(ch.url), now);
      DatedAppend(Gathered(pages, n - 1, now), ChannelPosts(ch, pages(ch.url), now));
    }
  }

  /**
   * The cache a refresh leaves: at most 50 posts, newest first, no two sharing a URL or a
   * description (so of the link-less posts of a channel at most one survives), and each
   * the first of its kind among the gathered posts.
   */
  lemma ScrapeCache(pages: string -> ChannelPage, now: nat)
    requires PagesDated(pages)
    ensures AllDated(Gathered(pages, |Channels|, now))
    ensures var all := Gathered(pages, |Channels|, now);
      var cache := Snapshot(SameUrlOrDescription, all, 50);
      && |cache| <= 50
      && |cache| == (if |Dedup(SameUrlOrDescription, all)| <= 50 then |Dedup(SameUrlOrDescription, all)| else 50)
      && SortedByDate(cache)
      && (forall i, j :: 0 <= i < |cache| && 0 <= j < |cache| && i != j ==>
            cache[i].sourceUrl != cache[j].sourceUrl && cache[i].description != cache[j].description)
      && multiset(cache) <= multiset(all)
      && (forall x :: x in cache ==> KeptFrom(SameUrlOrDescription, all, x))
  {
    GatheredDated(pages, |Channels|, now);
    var all := Gathered(pages, |Channels|, now);
    SnapshotPairwise(SameUrlOrDescription, all, 50);
    SnapshotFirstSeen(SameUrlOrDescription, all, 50);
  }

  /** Blocks without `data-post` all get the channel's bare address, so deduplication keeps
      only the first of them. */
  lemma LinklessBlocksCollide(ch: Channel, b1: MessageBlock, b2: MessageBlock, now: nat)
    requires b1.dataPost == "" && b2.dataPost == ""
    requires ParseBlock(ch, b1, now).Some? && ParseBlock(ch, b2, now).Some?
    ensures ParseBlock(ch, b1, now).value.sourceUrl == ParseBlock(ch, b2, now).value.sourceUrl
    ensures Dedup(SameUrlOrDescription, [ParseBlock(ch, b1, now).value, ParseBlock(ch, b2, now).value]) ==
      [ParseBlock(ch, b1, now).value]
  {
    BlockSpec(ch, b1, now);
    BlockSpec(ch, b2, now);
    DedupRelatedPair(SameUrlOrDescription, ParseBlock(ch, b1, now).value, ParseBlock(ch, b2, now).value);
  }

  /** The parser object and its cache. */
  class TelegramParser {
    var cache: seq<NewsItem>
    var lastUpdated: Option<int>

    constructor()
      ensures cache == [] && lastUpdated == None
    {
      cache := [];
      lastUpdated := None;
    }

    /** `parseChannel(channel)` for the fetched page; a failed request gives no posts. */
    method ParseChannel(ch: Channel, page: ChannelPage, now: nat) returns (posts: seq<NewsItem>)
      ensures posts == ChannelPosts(ch, page, now)
    {
      if page.PageFailed? {
        return [];
      }
      posts := ParseBlocks(ch, page.blocks, now);
    }

    /** The `.each` loop over the message blocks, which stops at block 15. */
    method ParseBlocks(ch: Channel, blocks: seq<MessageBlock>, now: nat) returns (posts: seq<NewsItem>)
      ensures posts == Present(BlockResults(ch, Take(blocks, 15), now))
    {
      posts := [];
      ghost var rs := BlockResults(ch, Take(blocks, 15), now);
      var index := 0;
      while index < |blocks|
        invariant 0 <= index <= |blocks| && index <= 15
        invariant posts == Present(rs[..index])
      {
        if index >= 15 {
          break;
        }
        PresentStep(rs, index);
        var post := ParseBlock(ch, blocks[index], now);
        if post.Some? {
          posts := posts + [post.value];
        }
        index := index + 1;
      }
      assert rs[..index] == rs;
    }

    /** The channel loop of `fetchTelegramNews`. */
    method GatherChannels(pages: string -> ChannelPage, now: nat) returns (allPosts: seq<NewsItem>)
      ensures allPosts == Gathered(pages, |Channels|, now)
    {
      allPosts := [];
      var k := 0;
      while k < |Channels|
        invariant 0 <= k <= |Channels|
        invariant allPosts == Gathered(pages, k, now)
      {
        var ch := Channels[k];
        var posts := ParseChannel(ch, pages(ch.url), now);
        assert Gathered(pages, k + 1, now) == allPosts + posts;
        allPosts := allPosts + posts;
        k := k + 1;
      }
    }

    /** `fetchTelegramNews()` at instant `now`, for the pages the channel URLs give. */
    method FetchTelegramNews(pages: string -> ChannelPage, now: nat) returns (posts: seq<NewsItem>)
      modifies this
      requires PagesDated(pages)
      ensures AllDated(Gathered(pages, |Channels|, now))
      ensures cache == Snapshot(SameUrlOrDescription, Gathered(pages, |Channels|, now), 50)
      ensures lastUpdated == Some(now) && posts == cache
    {
      var allPosts := GatherChannels(pages, now);
      GatheredDated(pages, |Channels|, now);
      cache := Snapshot(SameUrlOrDescription, allPosts, 50);
      lastUpdated := Some(now);
      posts := cache;
    }

    /** `getCachedNews()`. */
    function GetCachedNews(): (r: CachedNews)
      reads this
      ensures r.data == cache && r.total == |r.data| && r.lastUpdated == lastUpdated && r.source == "telegram"
    {
      CachedNews(cache, |cache|, lastUpdated, "telegram")
    }

    /** `getStats()`: one counter per channel name, summing to the total, and the number of
        posts with an image, which is at most the total. */
    method GetStats() returns (s: Stats)
      ensures s.total == |cache| && s.lastUpdated == lastUpdated
      ensures s.channels == TallyOf(Keys(BySourceName, cache))
      ensures Total(s.channels) == s.total && s.withImages <= s.total
      ensures forall name :: Lookup(s.channels, name) == Occurrences(Keys(BySourceName, cache), name)
      ensures s.withImages == WithImages(cache)
    {
      var channels := CountBy(BySourceName, cache);
      TallyOfSpec(Keys(BySourceName, cache));
      s := Stats(|cache|, channels, lastUpdated, WithImages(cache));
    }
  }
}
