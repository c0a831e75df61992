/**
 * The Bot-API Telegram parser (TelegramBotParser.js): channel posts from `getUpdates`,
 * the rsshub.app RSS proxy as a fallback, the `botApiWorking` decision of one refresh,
 * and the 50-item cache, deduplicated by URL or description and sorted newest first.
 * Every HTTP answer is an input: the `getUpdates` reply of each channel's request, the
 * `file_path` `getFile` gives for a file id, and the parsed proxy feed of each URL.
 */
module TelegramBot {
  import opened Wrappers
  import opened Strings
  import opened Base64
  import opened Dates
  import opened TextFilter
  import opened News
  import opened Aggregation

  /** One entry of `this.channels`; `username` carries a leading '@'. */
  datatype Channel = Channel(id: string, username: string, name: string, category: string)

  const Channels: seq<Channel> := [
    Channel("nn_ru", "@nn_ru", "Новости Нижнего Новгорода | NN.RU", "Новости"),
    Channel("moynnov", "@moynnov", "Мой Нижний Новгород", "Новости"),
    Channel("nn_obl", "@nn_obl", "ЧП Нижний Новгород", "ЧП и происшествия"),
    Channel("mynnovgorod", "@mynnovgorod", "Мой Нижний Новгород", "Городские новости"),
    Channel("bez_cenz_nn", "@bez_cenz_nn", "Нижний Новгород БЕЗ ЦЕНЗУРЫ", "Новости")
  ]

  /** `channel.username.replace('@', '')`. */
  function Handle(ch: Channel): string {
    RemoveFirst(ch.username, '@')
  }

  /**
   * A `channel_post` of the Bot API: the chat's username, `message_id`, `date` in Unix
   * seconds (`None` when absent), `text` ("" when absent), the `file_id` of every photo size,
   * `views` (0 when absent), and `draw`, the value `Math.random()` yields for its view count.
   */
  datatype ChannelPost = ChannelPost(
    chatUsername: string,
    messageId: nat,
    date: Option<nat>,
    text: string,
    photoIds: seq<string>,
    views: nat,
    draw: nat)

  /** One element of `result`: an update that may or may not be a channel post. */
  datatype Update = Update(channelPost: Option<ChannelPost>)

  /** The `getUpdates` answer: an error (a failed request, or `ok: false`) or the updates. */
  datatype UpdatesReply = UpdatesFailed | Updates(result: seq<Update>)

  /** The largest instant a JavaScript Date holds; `toISOString` throws beyond it. */
  const MaxInstant: int := 8640000000000000

  /** The URL of a file, from the `file_path` of an ok `getFile` answer. */
  function FileUrl(token: string, filePath: Option<string>): Option<string> {
    if filePath.Some? then Some("https://api.telegram.org/file/bot" + token + "/" + filePath.value) else None
  }

  /** `${post.date}` in a template string: the digits of the date, or "undefined". */
  function DateField(p: ChannelPost): string {
    if p.date.Some? then NatToString(p.date.value) else "undefined"
  }

  /** The text the id of a Bot-API post encodes: `tg_bot_${channel.id}_${message_id}_${date}`. */
  function BotIdText(ch: Channel, p: ChannelPost): string {
    "tg_bot_" + ch.id + "_" + NatToString(p.messageId) + "_" + DateField(p)
  }

  /** `https://t.me/<username>/<message_id>`. */
  function PostUrl(ch: Channel, messageId: nat): string {
    "https://t.me/" + Handle(ch) + "/" + NatToString(messageId)
  }

  /** The date `formatTelegramDate(post.date * 1000)` receives; a zero date and the NaN of
      a missing one are falsy. */
  function PostDate(p: ChannelPost): DateText {
    if p.date.None? || p.date.value == 0 then NoDate else At(p.date.value * 1000)
  }

  /**
   * Whether `new Date(post.date * 1000).toISOString()` returns: a missing date gives NaN and a
   * date past the largest JavaScript instant is out of range; both throw, and the catch drops
   * the post.
   */
  predicate DateRenders(p: ChannelPost) {
    p.date.Some? && p.date.value * 1000 <= MaxInstant
  }

  /** `parseChannelPost` at instant `now`; `getFile` gives the `file_path` of an ok answer. */
  function ParseChannelPost(token: string, ch: Channel, p: ChannelPost, getFile: string -> Option<string>, now: nat): Option<NewsItem> {
    if |p.text| < 10 || !IsRussianText(p.text) || !DateRenders(p) then None
    else
      Some(NewsItem(
        id := EncodeText(BotIdText(ch, p)),
        title := ExtractTitle(p.text),
        description := CleanText(p.text),
        imageUrl := if p.photoIds == [] then None else FileUrl(token, getFile(p.photoIds[|p.photoIds| - 1])),
        sourceUrl := PostUrl(ch, p.messageId),
        publishedAt := FormatRelative(PostDate(p), now),
        rawDate := Some(p.date.value * 1000),
        source := SourceRef(ch.id, ch.name, "Telegram"),
        category := ch.category,
        viewCount := if p.views != 0 then p.views else 100 + p.draw % 500,
        isLiked := false,
        platform := TelegramPlatform))
  }

  /**
   * A post is kept exactly when its text has at least 10 characters, is Russian, and carries
   * a date that fits a JavaScript Date. The kept item's id decodes to `tg_bot_…`, its URL is the
   * channel's t.me address followed by the message id, its image comes from the last photo
   * size, and a post without a view count gets one in [100, 599].
   */
  lemma ChannelPostSpec(token: string, ch: Channel, p: ChannelPost, getFile: string -> Option<string>, now: nat)
    ensures var r := ParseChannelPost(token, ch, p, getFile, now);
      && (r.Some? <==> |p.text| >= 10 && IsRussianText(p.text) && p.date.Some? && p.date.value * 1000 <= MaxInstant)
      && (r.Some? ==>
        && Decode(r.value.id) == Some(Utf8(BotIdText(ch, p)))
        && StartsWith(r.value.sourceUrl, "https://t.me/" + Handle(ch) + "/")
        && (var tail := r.value.sourceUrl[|"https://t.me/" + Handle(ch) + "/"|..];
            AllDigits(tail) && DigitsValue(tail) == p.messageId)
        && |r.value.title| <= 100
        && r.value.description == CleanText(p.text)
        && (r.value.imageUrl.Some? <==> p.photoIds != [] && getFile(p.photoIds[|p.photoIds| - 1]).Some?)
        && (r.value.imageUrl.Some? ==>
              r.value.imageUrl.value == "https://api.telegram.org/file/bot" + token + "/" + getFile(p.photoIds[|p.photoIds| - 1]).value)
        && r.value.rawDate == Some(p.date.value * 1000)
        && (p.date.value == 0 <==> r.value.publishedAt == Unknown)
        && (p.views > 0 ==> r.value.viewCount == p.views)
        && (p.views == 0 ==> 100 <= r.value.viewCount < 600)
        && r.value.source == SourceRef(ch.id, ch.name, "Telegram"))
  {
    PostUrlTail(ch, p.messageId);
    FormatRelativeUnknown(PostDate(p), now);
  }

  /** A post URL is the channel's address followed by the digits of the message id. */
  lemma PostUrlTail(ch: Channel, messageId: nat)
    ensures StartsWith(PostUrl(ch, messageId), "https://t.me/" + Handle(ch) + "/")
    ensures var tail := PostUrl(ch, messageId)[|"https://t.me/" + Handle(ch) + "/"|..];
      AllDigits(tail) && DigitsValue(tail) == messageId
  {
    var prefix := "https://t.me/" + Handle(ch) + "/";
    var url := PostUrl(ch, messageId);
    assert url == prefix + NatToString(messageId);
    assert url[|prefix|..] == NatToString(messageId);
    NatToStringRoundTrip(messageId);
  }

  /** Two posts of one channel with different message ids have different URLs. */
  lemma PostUrlsDistinct(ch: Channel, m1: nat, m2: nat)
    requires m1 != m2
    ensures PostUrl(ch, m1) != PostUrl(ch, m2)
  {
    if PostUrl(ch, m1) == PostUrl(ch, m2) {
      CancelPrefix("https://t.me/" + Handle(ch) + "/", NatToString(m1), NatToString(m2));
      NatToStringInjective(m1, m2);
    }
  }

  /** The id determines the post: dated posts (the only ones kept) of one channel with equal
      ids have the same message id and date. */
  lemma BotIdsDetermine(ch: Channel, p1: ChannelPost, p2: ChannelPost)
    requires p1.date.Some? && p2.date.Some?
    requires EncodeText(BotIdText(ch, p1)) == EncodeText(BotIdText(ch, p2))
    ensures p1.messageId == p2.messageId && p1.date == p2.date
  {
    EncodeTextInjective(BotIdText(ch, p1), BotIdText(ch, p2));
    var head := "tg_bot_" + ch.id + "_";
    var m1, m2 := NatToString(p1.messageId), NatToString(p2.messageId);
    var d1, d2 := NatToString(p1.date.value), NatToString(p2.date.value);
    BotIdTextShape(ch, p1);
    BotIdTextShape(ch, p2);
    CancelPrefix(head, m1 + ['_'] + d1, m2 + ['_'] + d2);
    DigitsThenSeparator(m1, m2, '_', d1, d2);
    NatToStringInjective(p1.messageId, p2.messageId);
    NatToStringInjective(p1.date.value, p2.date.value);
  }

  lemma BotIdTextShape(ch: Channel, p: ChannelPost)
    ensures BotIdText(ch, p) == ("tg_bot_" + ch.id + "_") + (NatToString(p.messageId) + ['_'] + DateField(p))
  {
  }

  /** What one update contributes: a post of this channel that `parseChannelPost` keeps. */
  function FromUpdate(token: string, ch: Channel, u: Update, getFile: string -> Option<string>, now: nat): Option<NewsItem> {
    if u.channelPost.Some? && u.channelPost.value.chatUsername == Handle(ch)
    then ParseChannelPost(token, ch, u.channelPost.value, getFile, now)
    else None
  }

  function UpdateResults(token: string, ch: Channel, us: seq<Update>, getFile: string -> Option<string>, now: nat): (r: seq<Option<NewsItem>>)
    ensures |r| == |us| && forall i :: 0 <= i < |us| ==> r[i] == FromUpdate(token, ch, us[i], getFile, now)
  {
    seq(|us|, i requires 0 <= i < |us| => FromUpdate(token, ch, us[i], getFile, now))
  }

  /** The posts `getChannelPosts` returns for one `getUpdates` answer. */
  function BotPosts(token: string, ch: Channel, reply: UpdatesReply, getFile: string -> Option<string>, now: nat): seq<NewsItem> {
    match reply
    case UpdatesFailed => []
    case Updates(us) => Present(UpdateResults(token, ch, us, getFile, now))
  }

  /**
   * A failed request gives nothing; otherwise every post comes, in order, from a channel
   * post whose chat is this channel and that `parseChannelPost` keeps, and each is dated.
   */
  lemma BotPostsFrom(token: string, ch: Channel, reply: UpdatesReply, getFile: string -> Option<string>, now: nat)
    ensures reply.UpdatesFailed? ==> BotPosts(token, ch, reply, getFile, now) == []
    ensures AllDated(BotPosts(token, ch, reply, getFile, now))
    ensures reply.Updates? ==> |BotPosts(token, ch, reply, getFile, now)| <= |reply.result|
    ensures reply.Updates? ==> forall x :: x in BotPosts(token, ch, reply, getFile, now) ==>
      exists i ::
        && 0 <= i < |reply.result| && reply.result[i].channelPost.Some?
        && reply.result[i].channelPost.value.chatUsername == Handle(ch)
        && ParseChannelPost(token, ch, reply.result[i].channelPost.value, getFile, now) == Some(x)
  {
    if reply.Updates? {
      var rs := UpdateResults(token, ch, reply.result, getFile, now);
      PresentMembers(rs);
      PresentDated(rs);
      forall x | x in BotPosts(token, ch, reply, getFile, now)
        ensures exists i ::
          && 0 <= i < |reply.result| && reply.result[i].channelPost.Some?
          && reply.result[i].channelPost.value.chatUsername == Handle(ch)
          && ParseChannelPost(token, ch, reply.result[i].channelPost.value, getFile, now) == Some(x)
      {
        var i :| 0 <= i < |rs| && rs[i] == Some(x);
        assert FromUpdate(token, ch, reply.result[i], getFile, now) == Some(x);
      }
    }
  }

  /** `https://rsshub.app/telegram/channel/<username>`. */
  function ProxyUrl(ch: Channel): string {
    "https://rsshub.app/telegram/channel/" + Handle(ch)
  }

  /** `${item.guid || item.link}`: an entry with neither renders as "undefined". */
  function GuidOrLink(e: FeedEntry): string {
    if e.guid != "" then e.guid else if e.link != "" then e.link else "undefined"
  }

  /** The text the id of a proxied post encodes: `tg_rss_${channel.id}_${guid || link}_${Date.now()}`. */
  function RssIdText(ch: Channel, e: FeedEntry, now: nat): string {
    "tg_rss_" + ch.id + "_" + GuidOrLink(e) + "_" + NatToString(now)
  }

  /** `parseRSSItem` at instant `now`. */
  function ParseRssItem(ch: Channel, e: FeedEntry, now: nat): Option<NewsItem> {
    if |e.title| < 10 || !IsRussianText(e.title + " " + e.contentSnippet) then None
    else
      Some(NewsItem(
        id := EncodeText(RssIdText(ch, e, now)),
        title := ExtractTitle(e.title),
        description := CleanText(OrElse(e.contentSnippet, OrElse(e.content, e.title))),
        imageUrl := if e.content != "" && e.contentImg.Some? then Some(e.contentImg.value) else None,
        sourceUrl := e.link,
        publishedAt := FormatRelative(AsDateObject(e.pubDate), now),
        rawDate := Instant(e.pubDate),
        source := SourceRef(ch.id, ch.name, "Telegram"),
        category := ch.category,
        viewCount := 100 + e.draw % 500,
        isLiked := false,
        platform := TelegramPlatform))
  }

  /**
   * A proxied item is kept exactly when its title has at least 10 characters and the title,
   * a space and the snippet together are Russian. Its date is handed over as a Date object,
   * so a missing date shows as "Invalid Date", never as "unknown".
   */
  lemma RssItemSpec(ch: Channel, e: FeedEntry, now: nat)
    ensures var r := ParseRssItem(ch, e, now);
      && (r.Some? <==> |e.title| >= 10 && IsRussianText(e.title + " " + e.contentSnippet))
      && (r.Some? ==>
        && Decode(r.value.id) == Some(Utf8(RssIdText(ch, e, now)))
        && r.value.sourceUrl == e.link
        && |r.value.title| <= 100 && |r.value.description| <= 500
        && r.value.publishedAt != Unknown
        && (e.pubDate.NoDate? ==> r.value.publishedAt == InvalidDate)
        && r.value.rawDate == Instant(e.pubDate)
        && (r.value.imageUrl.Some? <==> e.content != "" && e.contentImg.Some?)
        && 100 <= r.value.viewCount < 600)
  {
    FormatRelativeUnknown(AsDateObject(e.pubDate), now);
  }

  function RssResults(ch: Channel, es: seq<FeedEntry>, now: nat): (r: seq<Option<NewsItem>>)
    ensures |r| == |es| && forall i :: 0 <= i < |es| ==> r[i] == ParseRssItem(ch, es[i], now)
  {
    seq(|es|, i requires 0 <= i < |es| => ParseRssItem(ch, es[i], now))
  }

  /** The posts `getChannelPostsViaRSS` returns for one proxy answer: from the first 15 items. */
  function ProxyPosts(ch: Channel, reply: FeedResult, now: nat): seq<NewsItem> {
    match reply
    case FeedFailed => []
    case Feed(items) => Present(RssResults(ch, Take(items, 15), now))
  }

  /** At most 15 posts, each from one of the first 15 items and kept by `parseRSSItem`. */
  lemma ProxyPostsFrom(ch: Channel, reply: FeedResult, now: nat)
    ensures |ProxyPosts(ch, reply, now)| <= 15
    ensures reply.FeedFailed? ==> ProxyPosts(ch, reply, now) == []
    ensures reply.Feed? ==> forall x :: x in ProxyPosts(ch, reply, now) ==>
      exists i :: 0 <= i < |reply.items| && i < 15 && ParseRssItem(ch, reply.items[i], now) == Some(x)
  {
    if reply.Feed? {
      var scan := Take(reply.items, 15);
      var rs := RssResults(ch, scan, now);
      PresentMembers(rs);
      forall x | x in ProxyPosts(ch, reply, now)
        ensures exists i :: 0 <= i < |reply.items| && i < 15 && ParseRssItem(ch, reply.items[i], now) == Some(x)
      {
        var i :| 0 <= i < |rs| && rs[i] == Some(x);
        assert scan[i] == reply.items[i];
      }
    }
  }

  /** Every parsed proxy feed dates all its items, so the cache sort is well defined. */
  ghost predicate ProxyDated(proxyFeed: string -> FeedResult) {
    forall url :: proxyFeed(url).Feed? ==> forall i :: 0 <= i < |proxyFeed(url).items| ==> proxyFeed(url).items[i].pubDate.At?
  }

  lemma ProxyPostsDated(ch: Channel, reply: FeedResult, now: nat)
    requires reply.Feed? ==> forall i :: 0 <= i < |reply.items| ==> reply.items[i].pubDate.At?
    ensures AllDated(ProxyPosts(ch, reply, now))
  {
    if reply.Feed? {
      var scan := Take(reply.items, 15);
      assert forall i :: 0 <= i < |scan| ==> scan[i] == reply.items[i];
      PresentDated(RssResults(ch, scan, now));
    }
  }

  // ---------------------------------------------------------------------------------
  // One refresh

  /** The network one refresh sees: the `getUpdates` answer of the request made for channel
      `k`, the `file_path` `getFile` gives, and the parsed proxy feed of each URL. */
  datatype BotNet = BotNet(
    getUpdates: nat -> UpdatesReply,
    getFile: string -> Option<string>,
    proxyFeed: string -> FeedResult)

  /** What `getChannelPosts` gives for channel `k`. */
  function BotRound(token: string, net: BotNet, k: nat, now: nat): seq<NewsItem>
    requires k < |Channels|
  {
    BotPosts(token, Channels[k], net.getUpdates(k), net.getFile, now)
  }

  /** What `getChannelPostsViaRSS` gives for channel `k`. */
  function ProxyRound(net: BotNet, k: nat, now: nat): seq<NewsItem>
    requires k < |Channels|
  {
    ProxyPosts(Channels[k], net.proxyFeed(ProxyUrl(Channels[k])), now)
  }

  /** `botApiWorking` after the first `n` channels. */
  function Working(token: string, net: BotNet, n: nat, now: nat): bool
    requires n <= |Channels|
  {
    if n == 0 then true
    else Working(token, net, n - 1, now) && !(BotRound(token, net, n - 1, now) == [] && ProxyRound(net, n - 1, now) == [])
  }

  /** Whether the refresh asks the proxy for channel `k`. */
  predicate ProxyConsulted(token: string, net: BotNet, k: nat, now: nat)
    requires k < |Channels|
  {
    token == "" || (BotRound(token, net, k, now) == [] && Working(token, net, k, now))
  }

  /** The posts channel `k` contributes. */
  function ChannelRound(token: string, net: BotNet, k: nat, now: nat): seq<NewsItem>
    requires k < |Channels|
  {
    if ProxyConsulted(token, net, k, now) then ProxyRound(net, k, now) else BotRound(token, net, k, now)
  }

  /** The posts of the first `n` channels, in channel order. */
  function Gathered(token: string, net: BotNet, n: nat, now: nat): seq<NewsItem>
    requires n <= |Channels|
  {
    if n == 0 then [] else Gathered(token, net, n - 1, now) + ChannelRound(token, net, n - 1, now)
  }

  /** `botApiWorking` holds after `n` channels exactly when none of them had both sources empty. */
  lemma {:induction false} WorkingIff(token: string, net: BotNet, n: nat, now: nat)
    requires n <= |Channels|
    ensures Working(token, net, n, now) <==>
      forall j :: 0 <= j < n ==> !(BotRound(token, net, j, now) == [] && ProxyRound(net, j, now) == [])
  {
    if n > 0 {
      WorkingIff(token, net, n - 1, now);
    }
  }

  /**
   * With a token, the proxy is asked for a channel exactly when its Bot-API result is empty
   * and no earlier channel of the same refresh had both results empty; without a token it
   * is asked for every channel.
   */
  lemma ProxyConsultedIff(token: string, net: BotNet, k: nat, now: nat)
    requires k < |Channels|
    ensures ProxyConsulted(token, net, k, now) <==>
      token == "" ||
      (BotRound(token, net, k, now) == [] &&
       forall j :: 0 <= j < k ==> !(BotRound(token, net, j, now) == [] && ProxyRound(net, j, now) == []))
    ensures token == "" ==> ChannelRound(token, net, k, now) == ProxyRound(net, k, now)
  {
    WorkingIff(token, net, k, now);
  }

  /** Once both sources failed for a channel, a later channel without Bot-API posts
      contributes nothing to the refresh. */
  lemma GivesUpAfterDoubleFailure(token: string, net: BotNet, j: nat, k: nat, now: nat)
    requires j < k < |Channels| && token != ""
    requires BotRound(token, net, j, now) == [] && ProxyRound(net, j, now) == []
    requires BotRound(token, net, k, now) == []
    ensures ChannelRound(token, net, k, now) == []
  {
    WorkingIff(token, net, k, now);
  }

  lemma {:induction false} GatheredDated(token: string, net: BotNet, n: nat, now: nat)
    requires n <= |Channels| && ProxyDated(net.proxyFeed)
    ensures AllDated(Gathered(token, net, n, now))
  {
    if n > 0 {
      GatheredDated(token, net, n - 1, now);
      var ch := Channels[n - 1];
      BotPostsFrom(token, ch, net.getUpdates(n - 1), net.getFile, now);
      ProxyPostsDated(ch, net.proxyFeed(ProxyUrl(ch)), now);
      DatedAppend(Gathered(token, net, n - 1, now), ChannelRound(token, net, n - 1, now));
    }
  }

  /**
   * The cache a refresh leaves: at most 50 posts, newest first, no two sharing a URL or a
   * description, each the first of its kind among the gathered posts.
   */
  lemma TelegramCache(token: string, net: BotNet, now: nat)
    requires ProxyDated(net.proxyFeed)
    ensures AllDated(Gathered(token, net, |Channels|, now))
    ensures var all := Gathered(token, net, |Channels|, now);
      var cache := Snapshot(SameUrlOrDescription, all, 50);
      && |cache| <= 50
      && |cache| == (if |Dedup(SameUrlOrDescription, all)| <= 50 then |Dedup(SameUrlOrDescription, all)| else 50)
      && SortedByDate(cache)
      && (forall i, j :: 0 <= i < |cache| && 0 <= j < |cache| && i != j ==>
            cache[i].sourceUrl != cache[j].sourceUrl && cache[i].description != cache[j].description)
      && multiset(cache) <= multiset(all)
      && (forall x :: x in cache ==> KeptFrom(SameUrlOrDescription, all, x))
  {
    GatheredDated(token, net, |Channels|, now);
    var all := Gathered(token, net, |Channels|, now);
    SnapshotPairwise(SameUrlOrDescription, all, 50);
    SnapshotFirstSeen(SameUrlOrDescription, all, 50);
  }

  /** The parser object: its token and its cache. */
  class TelegramBotParser {
    /** `process.env.TELEGRAM_BOT_TOKEN`, "" when unset. */
    const botToken: string
    var cache: seq<NewsItem>
    var lastUpdated: Option<int>

    constructor(token: string)
      ensures botToken == token && cache == [] && lastUpdated == None
    {
      botToken := token;
      cache := [];
      lastUpdated := None;
    }

    /** `getChannelPosts(channel)` for the `getUpdates` answer `reply`. */
    method GetChannelPosts(ch: Channel, reply: UpdatesReply, getFile: string -> Option<string>, now: nat) returns (posts: seq<NewsItem>)
      ensures posts == BotPosts(botToken, ch, reply, getFile, now)
    {
      posts := [];
      if reply.UpdatesFailed? {
        return;
      }
      var updates := reply.result;
      ghost var rs := UpdateResults(botToken, ch, updates, getFile, now);
      var i := 0;
      while i < |updates|
        invariant 0 <= i <= |updates|
        invariant posts == Present(rs[..i])
      {
        var update := updates[i];
        PresentStep(rs, i);
        if update.channelPost.Some? && update.channelPost.value.chatUsername == Handle(ch) {
          var post := ParseChannelPost(botToken, ch, update.channelPost.value, getFile, now);
          if post.Some? {
            posts := posts + [post.value];
          }
        }
        i := i + 1;
      }
      assert rs[..i] == rs;
    }

    /** `getChannelPostsViaRSS(channel)` for the proxy answer `reply`. */
    method GetChannelPostsViaRSS(ch: Channel, reply: FeedResult, now: nat) returns (posts: seq<NewsItem>)
      ensures posts == ProxyPosts(ch, reply, now)
    {
      posts := [];
      if reply.FeedFailed? {
        return;
      }
      var items := Take(reply.items, 15);
      ghost var rs := RssResults(ch, items, now);
      var i := 0;
      while i < |items|
        invariant 0 <= i <= |items|
        invariant posts == Present(rs[..i])
      {
        PresentStep(rs, i);
        var post := ParseRssItem(ch, items[i], now);
        if post.Some? {
          posts := posts + [post.value];
        }
        i := i + 1;
      }
      assert rs[..i] == rs;
    }

    /** The channel loop of `fetchTelegramNews`, with its `botApiWorking` flag. */
    method GatherChannels(net: BotNet, now: nat) returns (allPosts: seq<NewsItem>)
      ensures allPosts == Gathered(botToken, net, |Channels|, now)
    {
      allPosts := [];
      var k := 0;
      var botApiWorking := true;
      while k < |Channels|
        invariant 0 <= k <= |Channels|
        invariant botToken != "" ==> botApiWorking == Working(botToken, net, k, now)
        invariant allPosts == Gathered(botToken, net, k, now)
      {
        var posts;
        posts, botApiWorking := ChannelStep(net, k, now, botApiWorking);
        allPosts := allPosts + posts;
        k := k + 1;
      }
    }

    /** One pass of that loop: the proxy alone without a token; with one, the Bot API first
        and the proxy only while `botApiWorking` holds, which drops after the first channel
        neither source had posts for. */
    method ChannelStep(net: BotNet, k: nat, now: nat, botApiWorking: bool) returns (posts: seq<NewsItem>, working: bool)
      requires k < |Channels|
      requires botToken != "" ==> botApiWorking == Working(botToken, net, k, now)
      ensures posts == ChannelRound(botToken, net, k, now)
      ensures botToken != "" ==> working == Working(botToken, net, k + 1, now)
    {
      var ch := Channels[k];
      working := botApiWorking;
      if botToken == "" {
        posts := GetChannelPostsViaRSS(ch, net.proxyFeed(ProxyUrl(ch)), now);
        return;
      }
      posts := GetChannelPosts(ch, net.getUpdates(k), net.getFile, now);
      if |posts| == 0 && botApiWorking {
        posts := GetChannelPostsViaRSS(ch, net.proxyFeed(ProxyUrl(ch)), now);
        if |posts| == 0 {
          working := false;
        }
      }
    }

    /** `fetchTelegramNews()` at instant `now`: the gathered posts, deduplicated by URL or
        description, newest first, at most 50, become the cache. */
    method FetchTelegramNews(net: BotNet, now: nat) returns (posts: seq<NewsItem>)
      modifies this
      requires ProxyDated(net.proxyFeed)
      ensures AllDated(Gathered(botToken, net, |Channels|, now))
      ensures cache == Snapshot(SameUrlOrDescription, Gathered(botToken, net, |Channels|, now), 50)
      ensures lastUpdated == Some(now) && posts == cache
    {
      var allPosts := GatherChannels(net, now);
      GatheredDated(botToken, net, |Channels|, now);
      cache := Snapshot(SameUrlOrDescription, allPosts, 50);
      lastUpdated := Some(now);
      posts := cache;
    }

    /** `getCachedNews()`. */
    function GetCachedNews(): (r: CachedNews)
      reads this
      ensures r.data == cache && r.total == |r.data| && r.lastUpdated == lastUpdated && r.source == "telegram"
    {
      CachedNews(cache, |cache|, lastUpdated, "telegram")
    }

    /** `getStats()`: one counter per channel name, summing to the total, and the number of
        posts with an image, which is at most the total. */
    method GetStats() returns (s: Stats)
      ensures s.total == |cache| && s.lastUpdated == lastUpdated
      ensures s.channels == TallyOf(Keys(BySourceName, cache))
      ensures Total(s.channels) == s.total && s.withImages <= s.total
      ensures forall name :: Lookup(s.channels, name) == Occurrences(Keys(BySourceName, cache), name)
      ensures s.withImages == WithImages(cache)
    {
      var channels := CountBy(BySourceName, cache);
      TallyOfSpec(Keys(BySourceName, cache));
      s := Stats(|cache|, channels, lastUpdated, WithImages(cache));
    }
  }
}
