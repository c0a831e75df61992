/**
 * The records that flow through the ingestion pipeline: the normalized news item every
 * parser emits, the feed entry `rss-parser` hands over, and the outcome of fetching a feed.
 * A missing JavaScript property and an empty string are both modelled as `""`: the core
 * only ever tests them for truthiness or combines them with `||`.
 */
module News {
  import opened Wrappers
  import opened Dates

  /** The text captured by a regular-expression group; every group in the core is `[^…]+`. */
  type Capture = s: string | |s| > 0 witness "x"

  /** The `platform` field: RSS items of the server, Telegram posts, or absent (newsService). */
  datatype Platform = RssPlatform | TelegramPlatform | NoPlatform

  /** The `source` sub-object: `{ id, name, type }`. */
  datatype SourceRef = SourceRef(id: string, name: string, kind: string)

  /**
   * A normalized news item. `imageUrl` is `None` for `null`; `rawDate` is the instant the
   * item's raw date denotes when handed to `new Date`, `None` when that is Invalid Date.
   */
  datatype NewsItem = NewsItem(
    id: string,
    title: string,
    description: string,
    imageUrl: Option<string>,
    sourceUrl: string,
    publishedAt: Elapsed,
    rawDate: Option<int>,
    source: SourceRef,
    category: string,
    viewCount: int,
    isLiked: bool,
    platform: Platform)

  /**
   * One entry of a parsed feed, with the fields any part of the core reads. `contentImg` is
   * the capture of `<img[^>]+src="([^"]+)"` on `content`, and `markupImg` that of
   * `<img[^>]+src=["']([^"'>]+)["']` on `description || content`. `draw` stands for the value
   * `Math.random()` yields for this entry's view count and `tag` for the text of a random
   * number or id fragment used when the entry has no link.
   */
  datatype FeedEntry = FeedEntry(
    title: string,
    link: string,
    guid: string,
    pubDate: DateText,
    isoDate: DateText,
    contentSnippet: string,
    summary: string,
    content: string,
    description: string,
    enclosureUrl: string,
    enclosureType: string,
    mediaContentUrl: string,
    mediaThumbnailUrl: string,
    contentImg: Option<Capture>,
    markupImg: Option<Capture>,
    draw: nat,
    tag: string)

  /** What fetching and parsing one feed URL gives: an error (thrown) or the entries. */
  datatype FeedResult = FeedFailed | Feed(items: seq<FeedEntry>)

  /** Every item has a valid instant, so the date comparator of the sorts is a total order. */
  predicate AllDated(s: seq<NewsItem>) {
    forall i :: 0 <= i < |s| ==> s[i].rawDate.Some?
  }
}
