/**
 * The server process (server.js): the RSS refresh `fetchNews` over the four regional
 * sources, with its candidate-URL fallback, the per-entry filters, the region and image
 * decisions, and the URL-deduplicated, newest-first, 100-item cache; the Telegram mode
 * machine of `initializeTelegramParsers` and `fetchTelegramNews`; and the combined feed
 * served for the city.
 */
module Server {
  import opened Wrappers
  import opened Strings
  import opened Base64
  import opened Dates
  import opened TextFilter
  import opened News
  import opened Aggregation

  /** One entry of the `sources` array. */
  datatype RssSource = RssSource(id: string, name: string, url: string, baseUrl: string)

  const Sources: seq<RssSource> := [
    RssSource("vremyan", "Время Н", "https://www.vremyan.ru/rss/news.rss", "https://www.vremyan.ru"),
    RssSource("niann", "НИА \"Нижний Новгород\"", "https://www.niann.ru/rss.xml", "https://www.niann.ru"),
    RssSource("nta_pfo", "НТА Приволжье", "https://nta-pfo.ru/rss/", "https://nta-pfo.ru"),
    RssSource("vgoroden", "В городе N", "https://www.vgoroden.ru/rss/", "https://www.vgoroden.ru")
  ]

  /** The feed URLs tried for a source, in order. */
  function CandidateUrls(src: RssSource): (r: seq<string>)
    ensures |r| == 5 && r[0] == src.url
  {
    [src.url, src.baseUrl + "/rss.xml", src.baseUrl + "/feed/", src.baseUrl + "/rss/", src.baseUrl + "/news.rss"]
  }

  // ---------------------------------------------------------------------------------
  // The page checks (`checkNewsRegion`, `extractImageFromUrl`)

  /**
   * A fetched article page as the region check sees it: the fetch failed, or the capture of
   * `<span class="region">Регион:\s*([^<]+)</span>` and whether `нижн(ий|его)\s+новгород`
   * occurs anywhere (case-insensitively).
   */
  datatype RegionPage = RegionUnavailable | RegionPage(regionSpan: Option<Capture>, mentionsCity: bool)

  /** `checkNewsRegion(url, sourceId)` once the page is fetched. */
  function CheckNewsRegion(page: RegionPage, sourceId: string): bool {
    match page
    case RegionUnavailable => sourceId != "nta_pfo"
    case RegionPage(span, mentions) =>
      if sourceId != "nta_pfo" then true
      else if span.Some? then
        var region := ToLower(Trim(span.value));
        Contains(region, "нижний новгород") || Contains(region, "нижегородская")
      else mentions
  }

  /** The region decision: open for every other source, closed on a failed fetch for
      НТА Приволжье, by the region line when there is one, else by a mention of the city. */
  lemma RegionDecision(page: RegionPage, sourceId: string)
    ensures sourceId != "nta_pfo" ==> CheckNewsRegion(page, sourceId)
    ensures sourceId == "nta_pfo" && page.RegionUnavailable? ==> !CheckNewsRegion(page, sourceId)
    ensures sourceId == "nta_pfo" && page.RegionPage? && page.regionSpan.Some? ==>
      (CheckNewsRegion(page, sourceId) <==>
        Contains(ToLower(Trim(page.regionSpan.value)), "нижний новгород")
        || Contains(ToLower(Trim(page.regionSpan.value)), "нижегородская"))
    ensures sourceId == "nta_pfo" && page.RegionPage? && page.regionSpan.None? ==>
      (CheckNewsRegion(page, sourceId) <==> page.mentionsCity)
  {
  }

  /**
   * A fetched article page as the image extraction sees it: the fetch failed, or the
   * capture of `<meta property="og:image" content="([^"]+)"` and, for a class word `w`,
   * the capture of `<img[^>]+class="[^"]*w[^"]*"[^>]+src="([^"]+)"`.
   */
  datatype ImagePage = ImageUnavailable | ImagePage(ogImage: Option<Capture>, classImage: string -> Option<Capture>)

  predicate KnownSite(sourceId: string) {
    sourceId == "vremyan" || sourceId == "niann" || sourceId == "nta_pfo" || sourceId == "vgoroden"
  }

  /** The class word each site's article image carries. */
  function ClassWord(sourceId: string): (w: Option<string>)
    ensures w.Some? <==> KnownSite(sourceId)
  {
    if sourceId == "vremyan" || sourceId == "vgoroden" then Some("article")
    else if sourceId == "niann" then Some("news")
    else if sourceId == "nta_pfo" then Some("photo")
    else None
  }

  /** The site prefix of a relative image path. */
  function SiteOrigin(sourceId: string): (origin: string)
    requires KnownSite(sourceId)
    ensures StartsWith(origin, "https://")
  {
    if sourceId == "vremyan" then "https://www.vremyan.ru"
    else if sourceId == "niann" then "https://www.niann.ru"
    else if sourceId == "nta_pfo" then "https://nta-pfo.ru"
    else "https://www.vgoroden.ru"
  }

  /** A path that does not start with "http" gets the site prefix. */
  function Absolute(sourceId: string, path: Capture): (url: string)
    requires KnownSite(sourceId)
    ensures StartsWith(url, "http")
    ensures StartsWith(path, "http") ==> url == path
  {
    if StartsWith(path, "http") then path else SiteOrigin(sourceId) + path
  }

  /** `extractImageFromUrl(url, sourceId)` once the page is fetched. */
  function ExtractImageFromUrl(page: ImagePage, sourceId: string): (r: Option<string>)
    ensures page.ImageUnavailable? ==> r.None?
    ensures r.Some? ==> r.value != ""
    ensures KnownSite(sourceId) && r.Some? ==> StartsWith(r.value, "http")
  {
    match page
    case ImageUnavailable => None
    case ImagePage(og, classImage) =>
      var specific :=
        if !KnownSite(sourceId) then None
        else
          var m := if og.Some? then og else classImage(ClassWord(sourceId).value);
          if m.Some? then Some(Absolute(sourceId, m.value)) else None;
      if specific.Some? then specific
      else if og.Some? then Some(og.value)
      else None
  }

  /** The page image: the site's own match (og:image before the class image, made absolute)
      for the four known sites, otherwise the raw og:image; none when neither matched. */
  lemma ImageFromPage(page: ImagePage, sourceId: string)
    requires page.ImagePage?
    ensures KnownSite(sourceId) && page.ogImage.Some? ==>
      ExtractImageFromUrl(page, sourceId) == Some(Absolute(sourceId, page.ogImage.value))
    ensures KnownSite(sourceId) && page.ogImage.None? ==>
      ExtractImageFromUrl(page, sourceId) ==
        (var m := page.classImage(ClassWord(sourceId).value); if m.Some? then Some(Absolute(sourceId, m.value)) else None)
    ensures !KnownSite(sourceId) ==>
      ExtractImageFromUrl(page, sourceId) == (if page.ogImage.Some? then Some(page.ogImage.value) else None)
  {
  }

  // ---------------------------------------------------------------------------------
  // One feed entry

  /** The network as one RSS refresh sees it. */
  datatype RssNet = RssNet(
    feed: string -> FeedResult,
    regionPage: string -> RegionPage,
    imagePage: string -> ImagePage)

  /** The entry's image: enclosure, else the first `<img src>` of the content, else (only when
      the entry has a link) the article page. */
  function EntryImage(src: RssSource, e: FeedEntry, net: RssNet): (r: Option<string>)
    ensures r.Some? ==> r.value != ""
  {
    var direct :=
      if e.enclosureUrl != "" then Some(e.enclosureUrl)
      else if e.content != "" && e.contentImg.Some? then Some(e.contentImg.value)
      else None;
    if direct.None? && e.link != "" then ExtractImageFromUrl(net.imagePage(e.link), src.id) else direct
  }

  /** Image priority: each source is used only when all earlier ones gave nothing, and the
      page is consulted only for an entry with a link. */
  lemma EntryImagePriority(src: RssSource, e: FeedEntry, net: RssNet)
    ensures e.enclosureUrl != "" ==> EntryImage(src, e, net) == Some(e.enclosureUrl)
    ensures e.enclosureUrl == "" && e.content != "" && e.contentImg.Some? ==>
      EntryImage(src, e, net) == Some(e.contentImg.value)
    ensures e.enclosureUrl == "" && (e.content == "" || e.contentImg.None?) ==>
      EntryImage(src, e, net) == (if e.link != "" then ExtractImageFromUrl(net.imagePage(e.link), src.id) else None)
    ensures KnownSite(src.id) && e.enclosureUrl == "" && (e.content == "" || e.contentImg.None?) && EntryImage(src, e, net).Some? ==>
      StartsWith(EntryImage(src, e, net).value, "http")
  {
  }

  /** The text a link-less entry's id encodes: `${source.id}_${Date.now()}_${Math.random()}`. */
  function FallbackIdText(src: RssSource, now: nat, tag: string): string {
    src.id + "_" + NatToString(now) + "_" + tag
  }

  /** The `newsItem` object built for an admitted entry. */
  function NormalizeEntry(src: RssSource, e: FeedEntry, net: RssNet, now: nat): NewsItem {
    NewsItem(
      id := EncodeText(if e.link != "" then e.link else FallbackIdText(src, now, e.tag)),
      title := e.title,
      description := OrElse(e.contentSnippet, OrElse(e.summary, e.content)),
      imageUrl := EntryImage(src, e, net),
      sourceUrl := e.link,
      publishedAt := FormatRelative(e.pubDate, now),
      rawDate := Instant(e.pubDate),
      source := SourceRef(src.id, src.name, "RSS"),
      category := "Нижний Новгород",
      viewCount := 100 + e.draw % 800,
      isLiked := false,
      platform := RssPlatform)
  }

  /** The id of an RSS item decodes to its link (or, without a link, to the fallback text);
      its URL and title are the entry's own, and its view count is in [100, 899]. */
  lemma RssItemFields(src: RssSource, e: FeedEntry, net: RssNet, now: nat)
    ensures var x := NormalizeEntry(src, e, net, now);
      && Decode(x.id) == Some(Utf8(if e.link != "" then e.link else FallbackIdText(src, now, e.tag)))
      && x.sourceUrl == e.link && x.title == e.title
      && 100 <= x.viewCount < 900
      && x.rawDate == Instant(e.pubDate)
      && x.source == SourceRef(src.id, src.name, "RSS")
  {
  }

  /** An entry survives when its title is Russian and, for НТА Приволжье entries with a link,
      the article page places it in the region. */
  predicate Admitted(src: RssSource, e: FeedEntry, net: RssNet) {
    IsRussianText(e.title)
    && (src.id == "nta_pfo" && e.link != "" ==> CheckNewsRegion(net.regionPage(e.link), src.id))
  }

  /** The items the admitted entries of `es` give, in order. */
  function AdmittedItems(src: RssSource, es: seq<FeedEntry>, net: RssNet, now: nat): (r: seq<NewsItem>)
    ensures |r| <= |es|
    ensures (forall i :: 0 <= i < |es| ==> es[i].pubDate.At?) ==> AllDated(r)
  {
    if es == [] then []
    else
      var n := |es| - 1;
      assert forall i :: 0 <= i < n ==> es[..n][i] == es[i];
      AdmittedItems(src, es[..n], net, now)
      + (if Admitted(src, es[n], net) then [NormalizeEntry(src, es[n], net, now)] else [])
  }

  lemma {:induction false} AdmittedItemsPrefix(src: RssSource, es: seq<FeedEntry>, k: nat, net: RssNet, now: nat)
    requires k <= |es|
    ensures var a := AdmittedItems(src, es[..k], net, now);
      |a| <= |AdmittedItems(src, es, net, now)| && a == AdmittedItems(src, es, net, now)[..|a|]
    decreases |es|
  {
    if k < |es| {
      var n := |es| - 1;
      AdmittedItemsPrefix(src, es[..n], k, net, now);
      assert es[..n][..k] == es[..k];
      var a := AdmittedItems(src, es[..k], net, now);
      var b := AdmittedItems(src, es[..n], net, now);
      var c := AdmittedItems(src, es, net, now);
      assert |a| <= |b| && a == b[..|a|];
      AdmittedItemsLast(src, es, net, now);
      PrefixOfPrefix(a, b, c);
    } else {
      assert es[..k] == es;
    }
  }

  lemma AdmittedItemsLast(src: RssSource, es: seq<FeedEntry>, net: RssNet, now: nat)
    requires es != []
    ensures var b := AdmittedItems(src, es[..|es| - 1], net, now);
      |b| <= |AdmittedItems(src, es, net, now)| && AdmittedItems(src, es, net, now)[..|b|] == b
  {
    var b := AdmittedItems(src, es[..|es| - 1], net, now);
    var t := if Admitted(src, es[|es| - 1], net) then [NormalizeEntry(src, es[|es| - 1], net, now)] else [];
    assert AdmittedItems(src, es, net, now) == b + t;
    assert (b + t)[..|b|] == b;
  }

  lemma PrefixOfPrefix<T>(a: seq<T>, b: seq<T>, c: seq<T>)
    requires |a| <= |b| <= |c| && a == b[..|a|] && b == c[..|b|]
    ensures a == c[..|a|]
  {
  }

  /** The loop stops after the whole scan or once it holds 15 items: either way it holds the
      first 15 admitted items. */
  lemma ScanStopped(src: RssSource, es: seq<FeedEntry>, i: nat, net: RssNet, now: nat)
    requires i <= |es|
    requires var a := AdmittedItems(src, es[..i], net, now); |a| <= 15 && (i == |es| || |a| == 15)
    ensures Take(AdmittedItems(src, es, net, now), 15) == AdmittedItems(src, es[..i], net, now)
  {
    AdmittedItemsPrefix(src, es, i, net, now);
    if i == |es| {
      assert es[..i] == es;
    }
  }

  lemma AdmittedItemsStep(src: RssSource, es: seq<FeedEntry>, i: nat, net: RssNet, now: nat)
    requires i < |es|
    ensures AdmittedItems(src, es[..i + 1], net, now) ==
      AdmittedItems(src, es[..i], net, now) + (if Admitted(src, es[i], net) then [NormalizeEntry(src, es[i], net, now)] else [])
  {
    assert es[..i + 1][..i] == es[..i];
  }

  /** What the entry loop emits for one parsed feed: the admitted entries among the first 20,
      at most 15 of them. */
  function FeedItems(src: RssSource, es: seq<FeedEntry>, net: RssNet, now: nat): seq<NewsItem> {
    Take(AdmittedItems(src, Take(es, 20), net, now), 15)
  }

  /** At most 15 items per feed, each built from an admitted entry among the first 20. */
  lemma {:induction false} FeedItemsFrom(src: RssSource, es: seq<FeedEntry>, net: RssNet, now: nat)
    ensures |FeedItems(src, es, net, now)| <= 15
    ensures forall x :: x in FeedItems(src, es, net, now) ==>
      exists i :: 0 <= i < |es| && i < 20 && Admitted(src, es[i], net) && x == NormalizeEntry(src, es[i], net, now)
  {
    var scan := Take(es, 20);
    AdmittedFrom(src, scan, net, now);
    forall x | x in FeedItems(src, es, net, now)
      ensures exists i :: 0 <= i < |es| && i < 20 && Admitted(src, es[i], net) && x == NormalizeEntry(src, es[i], net, now)
    {
      assert x in AdmittedItems(src, scan, net, now);
      var i :| 0 <= i < |scan| && Admitted(src, scan[i], net) && x == NormalizeEntry(src, scan[i], net, now);
      assert scan[i] == es[i];
    }
  }

  lemma {:induction false} AdmittedFrom(src: RssSource, es: seq<FeedEntry>, net: RssNet, now: nat)
    ensures forall x :: x in AdmittedItems(src, es, net, now) ==>
      exists i :: 0 <= i < |es| && Admitted(src, es[i], net) && x == NormalizeEntry(src, es[i], net, now)
    decreases |es|
  {
    if es != [] {
      var n := |es| - 1;
      AdmittedFrom(src, es[..n], net, now);
      forall x | x in AdmittedItems(src, es[..n], net, now)
        ensures exists i :: 0 <= i < |es| && Admitted(src, es[i], net) && x == NormalizeEntry(src, es[i], net, now)
      {
        var i :| 0 <= i < n && Admitted(src, es[..n][i], net) && x == NormalizeEntry(src, es[..n][i], net, now);
        assert es[..n][i] == es[i];
      }
    }
  }

  /** The entry loop of `fetchNews` for one parsed feed. */
  method ProcessFeed(src: RssSource, es: seq<FeedEntry>, net: RssNet, now: nat) returns (items: seq<NewsItem>)
    ensures items == FeedItems(src, es, net, now)
  {
    var scan := Take(es, 20);
    items := [];
    var processedCount := 0;
    var i := 0;
    while i < |scan|
      invariant 0 <= i <= |scan|
      invariant items == AdmittedItems(src, scan[..i], net, now)
      invariant processedCount == |items| < 15
    {
      var e := scan[i];
      AdmittedItemsStep(src, scan, i, net, now);
      i := i + 1;
      if !IsRussianText(e.title) {
        continue;
      }
      if src.id == "nta_pfo" && e.link != "" {
        var isNizhnyNovgorod := CheckNewsRegion(net.regionPage(e.link), src.id);
        if !isNizhnyNovgorod {
          continue;
        }
      }
      items := items + [NormalizeEntry(src, e, net, now)];
      processedCount := processedCount + 1;
      if processedCount >= 15 {
        break;
      }
    }
    ScanStopped(src, scan, i, net, now);
  }

  /** The index of the first candidate URL whose feed parses. */
  function FirstFeed(urls: seq<string>, feed: string -> FeedResult): (r: Option<nat>)
    ensures r.Some? ==>
      r.value < |urls| && feed(urls[r.value]).Feed? && forall j :: 0 <= j < r.value ==> feed(urls[j]).FeedFailed?
    ensures r.None? ==> forall j :: 0 <= j < |urls| ==> feed(urls[j]).FeedFailed?
  {
    if urls == [] then None
    else if feed(urls[0]).Feed? then Some(0)
    else
      var r := FirstFeed(urls[1..], feed);
      assert forall j :: 1 <= j < |urls| ==> urls[1..][j - 1] == urls[j];
      if r.Some? then Some(r.value + 1) else None
  }

  /** What one source contributes: the items of the first candidate feed that parses. */
  function SourceItems(src: RssSource, net: RssNet, now: nat): seq<NewsItem> {
    var urls := CandidateUrls(src);
    match FirstFeed(urls, net.feed)
    case None => []
    case Some(u) => FeedItems(src, net.feed(urls[u]).items, net, now)
  }

  /** The URL loop of `fetchNews` for one source. */
  method FetchSource(src: RssSource, net: RssNet, now: nat) returns (items: seq<NewsItem>)
    ensures items == SourceItems(src, net, now)
  {
    var possibleUrls := CandidateUrls(src);
    items := [];
    var feedParsed := false;
    var u := 0;
    while u < |possibleUrls|
      invariant 0 <= u <= |possibleUrls|
      invariant items == [] && !feedParsed
      invariant forall j :: 0 <= j < u ==> net.feed(possibleUrls[j]).FeedFailed?
    {
      match net.feed(possibleUrls[u]) {
        case FeedFailed =>
        case Feed(es) =>
          assert FirstFeed(possibleUrls, net.feed) == Some(u);
          items := ProcessFeed(src, es, net, now);
          feedParsed := true;
          break;
      }
      u := u + 1;
    }
  }

  /** The items of all sources, in source order. */
  function Collected(srcs: seq<RssSource>, net: RssNet, now: nat): seq<NewsItem> {
    if srcs == [] then []
    else Collected(srcs[..|srcs| - 1], net, now) + SourceItems(srcs[|srcs| - 1], net, now)
  }

  lemma CollectedStep(srcs: seq<RssSource>, k: nat, net: RssNet, now: nat)
    requires k < |srcs|
    ensures Collected(srcs[..k + 1], net, now) == Collected(srcs[..k], net, now) + SourceItems(srcs[k], net, now)
  {
    assert srcs[..k + 1][..k] == srcs[..k];
  }

  /** The source loop of `fetchNews`: every source's items, appended in order. */
  method CollectSources(srcs: seq<RssSource>, net: RssNet, now: nat) returns (allNews: seq<NewsItem>)
    ensures allNews == Collected(srcs, net, now)
  {
    allNews := [];
    var k := 0;
    while k < |srcs|
      invariant 0 <= k <= |srcs|
      invariant allNews == Collected(srcs[..k], net, now)
    {
      var items := FetchSource(srcs[k], net, now);
      CollectedStep(srcs, k, net, now);
      allNews := allNews + items;
      k := k + 1;
    }
    assert srcs[..|srcs|] == srcs;
  }

  /** The sources' items, deduplicated by URL, newest first, at most 100. */
  method RefreshRss(srcs: seq<RssSource>, net: RssNet, now: nat) returns (cache: seq<NewsItem>)
    requires FeedsDated(net)
    ensures AllDated(Collected(srcs, net, now))
    ensures cache == Snapshot(SameUrl, Collected(srcs, net, now), 100)
  {
    var allNews := CollectSources(srcs, net, now);
    CollectedDated(srcs, net, now);
    cache := Snapshot(SameUrl, allNews, 100);
  }

  /** Every entry of every feed has a valid date, so the cache sort is well defined. */
  ghost predicate FeedsDated(net: RssNet) {
    forall url :: net.feed(url).Feed? ==> forall i :: 0 <= i < |net.feed(url).items| ==> net.feed(url).items[i].pubDate.At?
  }

  lemma {:induction false} CollectedDated(srcs: seq<RssSource>, net: RssNet, now: nat)
    requires FeedsDated(net)
    ensures AllDated(Collected(srcs, net, now))
    decreases |srcs|
  {
    if srcs != [] {
      CollectedDated(srcs[..|srcs| - 1], net, now);
      SourceItemsDated(srcs[|srcs| - 1], net, now);
    }
  }

  lemma SourceItemsDated(src: RssSource, net: RssNet, now: nat)
    requires FeedsDated(net)
    ensures AllDated(SourceItems(src, net, now))
  {
    var urls := CandidateUrls(src);
    var f := FirstFeed(urls, net.feed);
    if f.Some? {
      var es := net.feed(urls[f.value]).items;
      var scan := Take(es, 20);
      assert forall i :: 0 <= i < |scan| ==> scan[i] == es[i];
      var a := AdmittedItems(src, scan, net, now);
      assert forall i :: 0 <= i < |Take(a, 15)| ==> Take(a, 15)[i] == a[i];
    }
  }

  /**
   * What `fetchNews` caches: at most 100 items, newest first, no two with the same
   * `sourceUrl`, and each the first item with its URL among everything collected.
   */
  lemma RssCache(net: RssNet, now: nat)
    requires FeedsDated(net)
    ensures AllDated(Collected(Sources, net, now))
    ensures var all := Collected(Sources, net, now);
      var cache := Snapshot(SameUrl, all, 100);
      && |cache| <= 100
      && |cache| == (if |Dedup(SameUrl, all)| <= 100 then |Dedup(SameUrl, all)| else 100)
      && SortedByDate(cache)
      && (forall i, j :: 0 <= i < |cache| && 0 <= j < |cache| && i != j ==> cache[i].sourceUrl != cache[j].sourceUrl)
      && (forall x :: x in cache ==> KeptFrom(SameUrl, all, x))
  {
    CollectedDated(Sources, net, now);
    var all := Collected(Sources, net, now);
    SnapshotPairwise(SameUrl, all, 100);
    SnapshotFirstSeen(SameUrl, all, 100);
  }

  /** When deduplication leaves room, every collected URL is cached. */
  lemma RssCacheCoverage(all: seq<NewsItem>, i: nat)
    requires AllDated(all) && i < |all| && |Dedup(SameUrl, all)| <= 100
    ensures exists x :: x in Snapshot(SameUrl, all, 100) && x.sourceUrl == all[i].sourceUrl
  {
    var d := Dedup(SameUrl, all);
    var sorted := SortByDate(d);
    SnapshotPrefix(SameUrl, all, 100);
    assert Snapshot(SameUrl, all, 100) == sorted;
    DedupUrlCoverage(all, i);
    var x :| x in d && x.sourceUrl == all[i].sourceUrl;
    assert x in multiset(sorted);
  }

  /** Links are kept whole in RSS ids: items with different links have different ids. */
  lemma RssIdsDistinct(src: RssSource, e1: FeedEntry, e2: FeedEntry, net: RssNet, now: nat)
    requires e1.link != "" && e2.link != "" && e1.link != e2.link
    ensures NormalizeEntry(src, e1, net, now).id != NormalizeEntry(src, e2, net, now).id
  {
    if NormalizeEntry(src, e1, net, now).id == NormalizeEntry(src, e2, net, now).id {
      EncodeTextInjective(e1.link, e2.link);
    }
  }

  // ---------------------------------------------------------------------------------
  // The Telegram mode machine

  /** Which parser object `telegramParser` holds. */
  datatype ParserKind = NoParser | BotApiParser | ScrapeParser

  /** The `getMe` probe: `data.ok` true, false, or the request threw. */
  datatype Probe = ProbeOk | ProbeNotOk | ProbeFailed

  /** The outcome of one parser's `fetchTelegramNews()`: the posts it returned, or an error. */
  datatype TelegramCall = Returned(posts: seq<NewsItem>) | Raised

  /** Whether a refresh leaves the process on the Bot API: only a non-empty Bot-API result does. */
  function StaysOnBotApi(usingBotApi: bool, bot: TelegramCall): bool {
    usingBotApi && bot.Returned? && bot.posts != []
  }

  /** The mode after a sequence of refreshes. */
  function ModeAfter(usingBotApi: bool, calls: seq<TelegramCall>): bool {
    if calls == [] then usingBotApi else ModeAfter(StaysOnBotApi(usingBotApi, calls[0]), calls[1..])
  }

  /** Once on scraping, refreshes never return to the Bot API (only re-initialization does). */
  lemma {:induction false} FallbackIsSticky(calls: seq<TelegramCall>)
    ensures !ModeAfter(false, calls)
    decreases |calls|
  {
    if calls != [] { FallbackIsSticky(calls[1..]); }
  }

  /** The Bot API survives a sequence of refreshes exactly when each of them returned posts. */
  lemma {:induction false} BotApiSurvivesIff(calls: seq<TelegramCall>)
    ensures ModeAfter(true, calls) <==> forall i :: 0 <= i < |calls| ==> calls[i].Returned? && calls[i].posts != []
    decreases |calls|
  {
    if calls != [] {
      if StaysOnBotApi(true, calls[0]) {
        BotApiSurvivesIff(calls[1..]);
        assert forall i :: 1 <= i < |calls| ==> calls[1..][i - 1] == calls[i];
      } else {
        FallbackIsSticky(calls[1..]);
      }
    }
  }

  /** The feed served for the city: both caches, newest first, at most 100, with no deduplication. */
  function Combined(rss: seq<NewsItem>, telegram: seq<NewsItem>): (r: seq<NewsItem>)
    requires AllDated(rss + telegram)
    ensures |r| <= 100 && SortedByDate(r)
    ensures |r| == if |rss| + |telegram| <= 100 then |rss| + |telegram| else 100
    ensures r == SortByDate(rss + telegram)[..|r|]
    ensures multiset(r) <= multiset(rss) + multiset(telegram)
    ensures |rss| + |telegram| <= 100 ==> multiset(r) == multiset(rss) + multiset(telegram)
  {
    var r := Newest(rss + telegram, 100);
    assert multiset(rss + telegram) == multiset(rss) + multiset(telegram);
    assert |rss| + |telegram| <= 100 ==> r == SortByDate(rss + telegram);
    r
  }

  /** The merge serves the 100 newest: an item of either cache left out of it is no newer
      than any item it serves. */
  lemma CombinedKeepsNewest(rss: seq<NewsItem>, telegram: seq<NewsItem>, i: nat, y: NewsItem)
    requires AllDated(rss + telegram)
    requires i < |Combined(rss, telegram)| && (y in rss || y in telegram) && y !in Combined(rss, telegram)
    ensures y.rawDate.Some? && Date(Combined(rss, telegram)[i]) >= Date(y)
  {
    assert y in rss + telegram;
    NewestKeepsNewest(rss + telegram, 100, i, y);
  }

  /** An item present in both caches is served twice when everything fits. */
  lemma CombinedKeepsDuplicates(rss: seq<NewsItem>, telegram: seq<NewsItem>, x: NewsItem)
    requires AllDated(rss + telegram) && |rss| + |telegram| <= 100
    requires x in rss && x in telegram
    ensures multiset(Combined(rss, telegram))[x] >= 2
  {
  }

  /** The process-wide state of server.js. */
  class Server {
    var newsCache: seq<NewsItem>
    var lastUpdated: Option<int>
    var telegramParser: ParserKind
    var usingBotApi: bool

    /** The mode flag and the parser object agree. */
    predicate Valid()
      reads this
    {
      usingBotApi <==> telegramParser == BotApiParser
    }

    constructor()
      ensures Valid()
      ensures newsCache == [] && lastUpdated == None
      ensures telegramParser == NoParser && !usingBotApi
    {
      newsCache := [];
      lastUpdated := None;
      telegramParser := NoParser;
      usingBotApi := false;
    }

    /** `fetchNews`: one RSS refresh at instant `now`. */
    method FetchNews(net: RssNet, now: nat)
      modifies this
      requires FeedsDated(net)
      ensures AllDated(Collected(Sources, net, now))
      ensures newsCache == Snapshot(SameUrl, Collected(Sources, net, now), 100)
      ensures lastUpdated == Some(now)
      ensures telegramParser == old(telegramParser) && usingBotApi == old(usingBotApi)
    {
      newsCache := RefreshRss(Sources, net, now);
      lastUpdated := Some(now);
    }

    /** `initializeTelegramParsers`: the Bot API is used exactly when a token is set and `getMe`
        answered ok; otherwise the scraping parser. */
    method InitializeTelegramParsers(token: string, getMe: Probe)
      modifies this
      ensures Valid()
      ensures usingBotApi == (token != "" && getMe == ProbeOk)
      ensures telegramParser == (if usingBotApi then BotApiParser else ScrapeParser)
      ensures newsCache == old(newsCache) && lastUpdated == old(lastUpdated)
    {
      if token != "" {
        telegramParser := BotApiParser;
        if getMe == ProbeOk {
          usingBotApi := true;
          return;
        }
      }
      telegramParser := ScrapeParser;
      usingBotApi := false;
    }

    /**
     * `fetchTelegramNews`. `bot` is what the Bot-API parser's refresh gives (consulted only in
     * Bot-API mode) and `scrape` what the scraping parser's refresh gives. An empty or failed
     * Bot-API refresh switches the process to scraping for good and returns the scraped posts.
     */
    method FetchTelegramNews(bot: TelegramCall, scrape: TelegramCall) returns (posts: seq<NewsItem>)
      modifies this
      requires Valid()
      ensures Valid()
      ensures usingBotApi == StaysOnBotApi(old(usingBotApi), bot)
      ensures telegramParser ==
        (if usingBotApi then BotApiParser else if old(telegramParser) == NoParser then NoParser else ScrapeParser)
      ensures usingBotApi ==> posts == bot.posts && posts != []
      ensures !usingBotApi && telegramParser == ScrapeParser ==> posts == (if scrape.Returned? then scrape.posts else [])
      ensures telegramParser == NoParser ==> posts == []
      ensures newsCache == old(newsCache) && lastUpdated == old(lastUpdated)
    {
      if usingBotApi {
        if bot.Returned? && bot.posts != [] {
          return bot.posts;
        }
        if telegramParser != ScrapeParser {
          telegramParser := ScrapeParser;
          usingBotApi := false;
        }
      }
      if telegramParser == NoParser {
        // the call on an undefined parser throws; the handler returns []
        return [];
      }
      posts := if scrape.Returned? then scrape.posts else [];
    }
  }
}
