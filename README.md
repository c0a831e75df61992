# News ingestion of the Nizhny Novgorod news API, in Dafny

This project models the ingestion pipeline of a small Node.js news server for Nizhny Novgorod, and proves its properties. The pipeline takes three kinds of input that have already been fetched:

- RSS feed entries;
- Telegram Bot-API `getUpdates` replies and RSS-proxy feeds;
- scraped Telegram message blocks.

It turns them into normalized news items and filters them by length, language and region. It then deduplicates them first-seen-wins, sorts them newest first and truncates them into a cache. Stats and paging are read from that cache.

Nothing here talks to the network. Each fetch is an input value:

- a feed lookup `url -> FeedResult`;
- a page lookup;
- an `Option` regex capture;
- an ok/fail probe.

The modules follow the program:

| module | file | what it is |
|---|---|---|
| `Wrappers` | wrappers.dfy | `Option` and its `||`-style combinators |
| `Strings` | strings.dfy | the string operations the JavaScript code relies on: trim, slice, `indexOf`, `replace`, `toLowerCase`, number-to-text, the `/[\n\r\t]+/` and `/\s+/` run replacements |
| `Base64` | base64.dfy | `Buffer.from(text).toString('base64')`: UTF-8 encoding, then the alphabet of RFC 4648 section 4, proved to round-trip |
| `Dates` | dates.dfy | `new Date(...)` as an optional millisecond instant, and the relative-date buckets of `formatPublishDate`, `formatTelegramDate` and newsService's `formatDate` |
| `TextFilter` | textfilter.dfy | the helpers that server.js and both Telegram parsers duplicate: `isRussianText`, `extractTitle`, `cleanText` |
| `News` | news.dfy | the news item record, the feed entry and feed result |
| `Aggregation` | aggregation.dfy | the `filter`/`findIndex` dedup, the descending date sort, the `slice(0, n)` snapshot, and the `forEach` tallies behind the stats |
| `Server` | server.dfy | server.js: the `fetchNews` RSS refresh over four regional sources, the region and image decisions, the Bot-API/scraping mode machine, the combined feed |
| `TelegramBot` | telegram_bot.dfy | TelegramBotParser.js: channel posts from `getUpdates`, the rsshub proxy fallback, the per-refresh `botApiWorking` flag |
| `TelegramScrape` | telegram_scrape.dfy | telegramParser.js: message blocks of the `t.me/s/` pages, `parseViews` |
| `NewsService` | news_service.dfy | services/newsService.js with config/sources.js: `parseRSSFeed`, `cleanText`/`cleanDescription`, `extractImageUrl`, `formatDate`, `generateId`, `removeDuplicates`, `updateNewsCache`, `getNews`, `getNewsStats` |

State that the source keeps in objects or in module-level variables is modelled as a class:

- `Server.Server`: `newsCache`, `lastUpdated`, `telegramParser` and `usingBotAPI` of server.js;
- `TelegramBot.TelegramBotParser` and `TelegramScrape.TelegramParser`: `cache` and `lastUpdated`;
- `NewsService.NewsService`: `newsCache` and `lastUpdate` of newsService.js.

The loops that push into arrays are methods with loop invariants. Each is proved equal to a specification function, and the properties are proved about those functions:

- the source loop of `fetchNews`, with its 20-entry scan and 15-item cap;
- the channel loops;
- the `seen`-set filter of `removeDuplicates`;
- the stats counters.

Some behaviour of the JavaScript is written out explicitly:

- JavaScript `\w` is ASCII-only, so the title key of `removeDuplicates` drops Cyrillic letters. Only U+0130 and the Kelvin sign U+212A, whose lower case holds an ASCII letter, contribute to a key from outside ASCII.
- Base64 ids are computed over real UTF-8 bytes.
- `a || b` on strings falls through on `""`.
- `slice` clamps its bounds.
- The `> 0.3` ratio of the language test is proved equal to its integer form `10 * cyrillic > 3 * letters`.

## Model

| member | source | states |
|---|---|---|
| `Strings.TrimStart` | TelegramBotParser.js:304 | the result is a suffix of the input that does not start with whitespace, and everything cut off is whitespace |
| `Strings.TrimEnd` | TelegramBotParser.js:304 | the result is a prefix of the input that does not end with whitespace, and everything cut off is whitespace |
| `Strings.Trim` | services/newsService.js:143 | `trim()` yields a string with no leading or trailing whitespace, no longer than its input |
| `Strings.TrimStartOfTrimmed` | services/newsService.js:143 | trimming the start of a string that does not start with whitespace changes nothing |
| `Strings.TrimEndOfTrimmed` | services/newsService.js:143 | trimming the end of a string that does not end with whitespace changes nothing |
| `Strings.TrimIdempotent` | services/newsService.js:143 | trimming twice is trimming once |
| `Strings.TrimEndKeepsHead` | TelegramBotParser.js:304 | trimming the end of a string that starts outside white space keeps it non-empty with the same first character |
| `Strings.TrimStartAppend` | TelegramBotParser.js:304 | trimming the start of `a + b`, with `b` starting outside white space, trims only `a` |
| `Strings.Take` | server.js:328 | `slice(0, n)` has length `min(|s|, n)` and is a prefix of `s` |
| `Strings.IndexOf` | telegramParser.js:99 | `indexOf(c)` is the first position holding `c`, or -1 exactly when `c` does not occur |
| `Strings.IndexOfAfter` | telegramParser.js:99 | in `x + c + y` with no `c` in `x`, the first `c` is at position `|x|` |
| `Strings.RemoveFirst` | TelegramBotParser.js:83 | `replace('@', '')` removes the first `@` and keeps everything before and after it, and changes nothing when there is no `@` |
| `Strings.ToLower` | server.js:122 | `toLowerCase()` lowers each character on its own; without U+0130 the length is kept and each position is lowered in place |
| `Strings.LowerText` | services/newsService.js:208 | the capital I with dot above (U+0130) lowers to two characters, every other character to one |
| `Strings.LowerMembers` | services/newsService.js:208 | every character of a lowered text is part of the lower case of some input character |
| `Strings.DigitChar` | TelegramBotParser.js:146 | a digit value becomes a character '0'..'9' |
| `Strings.NatToString` | TelegramBotParser.js:146 | a number in a template string is a non-empty run of decimal digits |
| `Strings.NatToStringRoundTrip` | TelegramBotParser.js:146 | reading back the decimal digits of `n` gives `n` |
| `Strings.NatToStringInjective` | TelegramBotParser.js:146 | different numbers print differently |
| `Strings.DigitsThenSeparator` | TelegramBotParser.js:142 | in `digits + '_' + rest`, the digit run and the rest are determined by the text |
| `Strings.ShorterDigitsThenSeparator` | TelegramBotParser.js:142 | the same cancellation, when only the longer side is known to be digits |
| `Strings.DropClass` | TelegramBotParser.js:309-310 | dropping a leading run of a character class leaves a suffix that starts outside the class |
| `Strings.CollapseRuns` | TelegramBotParser.js:309-310 | replacing each run of a class by one space never lengthens the text |
| `Strings.CollapseHead` | TelegramBotParser.js:309-310 | the first character after collapsing is a space exactly when the input starts in the class |
| `Strings.CollapseSpacesSingleSpaced` | TelegramBotParser.js:310 | after `replace(/\s+/g, ' ')` no whitespace character other than a single space remains, and no two spaces are adjacent |
| `Strings.CollapseLineBreaksClean` | TelegramBotParser.js:309 | after `replace(/[\n\r\t]+/g, ' ')` no `\n`, `\r` or `\t` remains |
| `Strings.CollapseChars` | TelegramBotParser.js:309-310 | every character after collapsing is a space or comes from the input |
| `Strings.CollapseSpacesIdentity` | services/newsService.js:142 | collapsing whitespace runs of single-spaced text changes nothing |
| `Strings.CollapseLineBreaksIdentity` | TelegramBotParser.js:309 | collapsing line-break runs of text without line breaks changes nothing |
| `Strings.SingleSpacedPrefix` | TelegramBotParser.js:312 | a prefix (`substring(0, n)`) of single-spaced text is single-spaced |
| `Strings.SingleSpacedSuffix` | TelegramBotParser.js:311 | a suffix of single-spaced text is single-spaced |
| `Strings.TrimSingleSpaced` | TelegramBotParser.js:311 | trimming keeps text single-spaced |
| `Base64.CharOf` | services/newsService.js:135 | no 6-bit value is written as the padding character `=` |
| `Base64.ValueOfCharOf` | services/newsService.js:135 | decoding a character of the alphabet gives back its 6-bit value |
| `Base64.Encode` | server.js:273 | base64 of `n` bytes has `4 * ceil(n / 3)` characters |
| `Base64.GroupRoundTrip` | server.js:273 | the three bytes of a group are recovered from its four sextets |
| `Base64.DecodeOne` | server.js:273 | a one-byte tail (`xx==`) decodes back to its byte |
| `Base64.DecodeTwo` | server.js:273 | a two-byte tail (`xxx=`) decodes back to its bytes |
| `Base64.DecodeThree` | server.js:273 | a full group decodes back to its three bytes |
| `Base64.DecodeEncode` | server.js:273 | decoding the base64 of any byte string gives that byte string back |
| `Base64.DecodeLonger` | server.js:273 | the round trip extends from the tail after the first group to the whole input |
| `Base64.DecodeFirstGroup` | server.js:273 | decoding splits as the first group followed by the rest |
| `Base64.EncodeInjective` | server.js:273 | different byte strings have different base64 |
| `Base64.EncodeAppend` | services/newsService.js:135 | base64 of `a + b` is base64 of `a` followed by base64 of `b` when `|a|` is a multiple of 3 |
| `Base64.EncodePrefix16` | services/newsService.js:135 | the first 16 characters of base64 depend only on the first 12 bytes |
| `Base64.Utf8Char` | server.js:273 | a character is one to four UTF-8 bytes, one byte equal to itself exactly when it is ASCII |
| `Base64.Utf8` | server.js:273 | the UTF-8 of a text has at least one byte per character |
| `Base64.Utf8Append` | server.js:273 | UTF-8 of a concatenation is the concatenation of the UTF-8 |
| `Base64.Utf8CharWidth` | server.js:273 | the lead byte announces the length of its character's encoding |
| `Base64.Utf8CharValue` | server.js:273 | a character's code point is recovered from its UTF-8 bytes |
| `Base64.Utf8CharInjective` | server.js:273 | different characters have different UTF-8 encodings |
| `Base64.Utf8Injective` | server.js:273 | different texts have different UTF-8 encodings |
| `Base64.Utf8Ascii` | services/newsService.js:135 | an ASCII text is its own UTF-8, byte for character |
| `Base64.EncodeText` | server.js:273 | `Buffer.from(text).toString('base64')` decodes back to the UTF-8 of `text` |
| `Base64.EncodeTextInjective` | server.js:273 | different texts get different ids |
| `Dates.Instant` | server.js:393 | `new Date(text)` is a valid instant exactly when the text is a parseable date |
| `Dates.AsDateObject` | TelegramBotParser.js:206 | wrapping in `new Date` keeps the instant and makes the value truthy |
| `Dates.FormatRelative` | server.js:390-406 | `formatPublishDate`; its buckets are stated by `Dates.FormatRelativeBuckets` and its unknown and invalid cases by `Dates.FormatRelativeUnknown` |
| `Dates.FormatRelativeBuckets` | server.js:390-406 | "только что" below one minute (future dates included), N minutes below an hour, N hours below a day, "вчера" for exactly one day, N days below a week, else the calendar date; each N is the floor of the elapsed time |
| `Dates.FormatRelativeUnknown` | server.js:391 | "Неизвестно" exactly for a missing date; an unparseable date gives "Invalid Date" |
| `Dates.HoursThenDays` | services/newsService.js:191-194 | flooring minutes to hours and then to days equals flooring minutes to days |
| `Dates.FormatService` | services/newsService.js:179-203 | `formatDate`; stated against `formatPublishDate` by `Dates.FormatServiceVersusRelative` |
| `Dates.FormatServiceVersusRelative` | services/newsService.js:179-203 | `formatDate` is `formatPublishDate` bucket by bucket, except that an invalid date gives "Неизвестно" instead of "Invalid Date", "Только что" is capitalised, one day old gives "1 дн назад" instead of "вчера", and a date a week old or more is rendered with day, short month and time (`OnDayMonthTime`) instead of as the calendar date (`OnDate`) |
| `TextFilter.CountCyrillic` | server.js:99 | the count of `[а-яё]` letters, case-insensitive, is at most the length |
| `TextFilter.CountLatin` | server.js:100 | the count of `[a-z]` letters, case-insensitive, is at most the length |
| `TextFilter.CountsAppend` | server.js:99-100 | both letter counts add up over concatenation |
| `TextFilter.NoCyrillicCount` | server.js:99 | text without Cyrillic letters counts zero of them |
| `TextFilter.AllCyrillicCount` | server.js:99-100 | all-Cyrillic text counts every character as Cyrillic and none as Latin |
| `TextFilter.IsRussianText` | server.js:97-102 | `isRussianText`; characterised by counts in `TextFilter.RussianByCounts` |
| `TextFilter.RussianByCounts` | server.js:97-102 | `isRussianText` holds exactly when there is a Cyrillic letter and `10 * cyrillic > 3 * (cyrillic + latin)` |
| `TextFilter.RatioAbove` | server.js:101 | for a positive total, the ratio exceeds 0.3 exactly when the integer comparison holds |
| `TextFilter.NotRussianWithoutCyrillic` | server.js:97-102 | text with no Cyrillic letter (the empty text included) is not Russian |
| `TextFilter.RussianWhenAllCyrillic` | server.js:97-102 | non-empty all-Cyrillic text is Russian |
| `TextFilter.RussianConcat` | TelegramBotParser.js:189 | two Russian texts joined by a letter-free separator are Russian |
| `TextFilter.NoLatinCount` | server.js:100 | text without Latin letters counts zero of them |
| `TextFilter.SentenceEnd` | TelegramBotParser.js:299 | the first position from `from` where `[.!?]` is followed by whitespace, or the end |
| `TextFilter.FirstSentence` | TelegramBotParser.js:299-300 | `split(/[.!?]\s+/)[0]` is a prefix containing no sentence break and ends at one (or at the end of the text) |
| `TextFilter.ExtractTitle` | TelegramBotParser.js:297-305 | the title has at most 100 characters, is trimmed, and is "Без заголовка" for empty text |
| `TextFilter.ExtractTitleFirstSentence` | TelegramBotParser.js:297-305 | for `p + ". " + q`, with `p` trimmed, breakless and at most 100 long, the title is `p` |
| `TextFilter.ExtractTitleAt` | TelegramBotParser.js:297-305 | with the first break at `i`, the title is the trimmed segment before it, or the whole text when that segment is empty; a segment over 100 characters gives its first 97 characters and "..." |
| `TextFilter.ExtractTitleSentence` | TelegramBotParser.js:299-300 | a short trimmed sentence ended by '.', '!' or '?' and any white-space character is the title |
| `TextFilter.ExtractTitleLeadingBreak` | TelegramBotParser.js:300 | a break at the start empties the first segment, so `|| text` makes the whole text the title, still opening with the terminator |
| `TextFilter.ExtractTitleNoBreak` | TelegramBotParser.js:299-304 | a breakless text of at most 100 characters is its own title, trimmed |
| `TextFilter.ExtractTitleLong` | TelegramBotParser.js:301-303 | a first segment over 100 characters becomes its first 97 characters and "...", exactly 100 characters |
| `TextFilter.CleanText` | TelegramBotParser.js:307-313 | the cleaned text has at most 500 characters, no line breaks, no two adjacent whitespace characters and no leading whitespace |
| `TextFilter.SingleSpacedNoLineBreaks` | TelegramBotParser.js:309-310 | single-spaced text has no line breaks |
| `TextFilter.CleanTextTwice` | TelegramBotParser.js:307-313 | cleaning again only trims the end: the result is the first clean, or that minus its last character |
| `TextFilter.CleanTextNotIdempotent` | TelegramBotParser.js:307-313 | a 501-character text for which cleaning twice differs from cleaning once, because truncation after trim leaves a trailing space |
| `Aggregation.SubsequenceMembers` | server.js:322-324 | a subsequence is no longer, is a sub-multiset, and its members are members of the original |
| `Aggregation.FindIndex` | server.js:323 | `findIndex` is the first related position, or -1 exactly when none is related |
| `Aggregation.FindIndexFirst` | server.js:322-324 | the filter keeps position `i` exactly when no earlier item is related to it |
| `Aggregation.Dedup` | server.js:322-324 | dedup never lengthens and keeps every item dated when all were |
| `Aggregation.FirstOfKindPrefix` | server.js:322-324 | whether an item is first of its kind depends only on the items up to it |
| `Aggregation.DedupStep` | server.js:322-324 | dedup of `s + [x]` is dedup of `s`, plus `x` when it is first of its kind |
| `Aggregation.DedupSubsequence` | server.js:322-324 | the deduplicated items are an order-preserving subsequence of the input |
| `Aggregation.DedupKeepsFirstOfKind` | server.js:322-324 | every kept item is the first occurrence of its kind in the input |
| `Aggregation.DedupKeepsAllFirsts` | server.js:322-324 | every first occurrence of a kind is kept |
| `Aggregation.DedupKeepsFirstAt` | server.js:322-324 | the first occurrence at a given position is kept |
| `Aggregation.PairwiseAppend` | server.js:322-324 | appending an item unrelated to all kept ones keeps them pairwise unrelated |
| `Aggregation.DedupPairwise` | server.js:322-324 | no two kept items are related: distinct URLs, or distinct URLs and descriptions |
| `Aggregation.DedupKeepsFirst` | TelegramBotParser.js:261-263 | the very first candidate is always kept, in first place |
| `Aggregation.DedupUrlCoverage` | server.js:322-324 | every input URL is represented by some kept item |
| `Aggregation.DedupRelatedPair` | TelegramBotParser.js:261-263 | of two related items only the first survives |
| `Aggregation.DedupChainDrops` | TelegramBotParser.js:261-263 | with the URL-or-description key, `c` is dropped because of `b`, which was itself dropped because of `a`, though `c` is unrelated to `a` |
| `Aggregation.Insert` | server.js:326 | inserting into a dated list adds exactly that item and keeps everything dated |
| `Aggregation.InsertSorted` | server.js:326 | inserting into a list sorted newest first keeps it sorted |
| `Aggregation.SortedCons` | server.js:326 | an item no older than all of a sorted list can precede it |
| `Aggregation.SortByDate` | server.js:326 | the sort is a permutation ordered non-increasing by `rawDate` |
| `Aggregation.PairwiseTail` | server.js:326 | the pairwise-unrelated property passes to the tail |
| `Aggregation.PairwiseCons` | server.js:326 | prepending an item unrelated to all keeps the list pairwise unrelated |
| `Aggregation.InsertPairwise` | server.js:326 | insertion keeps a pairwise-unrelated list pairwise unrelated |
| `Aggregation.SortPairwise` | server.js:326 | sorting keeps the dedup guarantee |
| `Aggregation.Newest` | server.js:326-328 | `sort` newest first and `slice(0, cap)` give exactly `min(cap, n)` items, sorted, drawn from the input, the head of the sorted list |
| `Aggregation.NewestKeepsNewest` | server.js:326-328 | an input item left out by the cut is no newer than any kept item, so the kept ones are the `cap` newest |
| `Aggregation.Snapshot` | server.js:322-328 | dedup, sort and `slice(0, cap)` give exactly `min(cap, n)` items for `n` deduplicated candidates, sorted newest first |
| `Aggregation.SnapshotPrefix` | server.js:326-328 | the snapshot is a prefix of the sorted deduplicated items |
| `Aggregation.SnapshotPairwise` | server.js:322-328 | the snapshot has no two related items |
| `Aggregation.SnapshotFirstSeen` | server.js:322-328 | the snapshot is a sub-multiset of the input, and each item in it is first of its kind |
| `Aggregation.SnapshotKeepsNewest` | server.js:326-328 | any deduplicated item cut by truncation is no newer than every kept item |
| `Aggregation.SnapshotKeepsFirst` | TelegramBotParser.js:261-267 | when truncation cuts nothing, the first candidate is in the cache |
| `Aggregation.Present` | TelegramBotParser.js:116-117 | `if (post) posts.push(post)` keeps the present results, never more than there are |
| `Aggregation.PresentStep` | TelegramBotParser.js:116-117 | one more result adds its post exactly when present |
| `Aggregation.PresentMembers` | TelegramBotParser.js:116-117 | a post is kept exactly when it was among the results |
| `Aggregation.PresentAll` | TelegramBotParser.js:116-117 | when every result is present, all are kept |
| `Aggregation.PresentDated` | TelegramBotParser.js:116-117 | kept posts are dated when the present results are |
| `Aggregation.DatedAppend` | TelegramBotParser.js:255 | `push(...posts)` of dated lists is dated |
| `Aggregation.Bump` | TelegramBotParser.js:346 | `stats[key] = (stats[key] or 0) + 1` adds an entry exactly when `key` had none |
| `Aggregation.Occurrences` | TelegramBotParser.js:346 | the number of keys equal to `key`: at most the number of keys, and 0 exactly when `key` is absent |
| `Aggregation.BumpSpec` | TelegramBotParser.js:346 | a bump keeps names distinct, raises the total and the bumped key's count by one, nothing else |
| `Aggregation.TallyOf` | TelegramBotParser.js:344-347 | the counters of the `forEach` loop; their content is stated by `Aggregation.TallyOfSpec` |
| `Aggregation.TallyOfSpec` | TelegramBotParser.js:344-347 | the counts sum to the number of items, each name's count is its occurrences, and the names are exactly the keys seen |
| `Aggregation.CountBy` | TelegramBotParser.js:344-347 | the `forEach` counter loop builds the tally of the keys |
| `Aggregation.WithImages` | TelegramBotParser.js:353 | at most the number of items, and all of them exactly when every item has an image |
| `Server.CandidateUrls` | server.js:221-227 | five candidate feed URLs, the configured one first |
| `Server.CheckNewsRegion` | server.js:105-134 | `checkNewsRegion` once the page is fetched; decided case by case in `Server.RegionDecision` |
| `Server.RegionDecision` | server.js:105-134 | a decision table, one clause per branch of `checkNewsRegion`: non-`nta_pfo` sources always pass; `nta_pfo` fails closed on fetch error; with a region span it passes iff the lowered region contains "нижний новгород" or "нижегородская"; otherwise iff the page mentions the city |
| `Server.ClassWord` | server.js:150-194 | a site-specific `<img class>` word exists exactly for the four known source ids |
| `Server.SiteOrigin` | server.js:157 | each known site's prefix is an https origin |
| `Server.Absolute` | server.js:154-158 | a path not starting with "http" gets the site prefix; the result always starts with "http" |
| `Server.ExtractImageFromUrl` | server.js:137-209 | a fetch failure gives null; a found image is non-empty and, for a known site, starts with "http" |
| `Server.ImageFromPage` | server.js:150-202 | og:image first, then the site's class image, each made absolute; unknown sites fall back to og:image as is |
| `Server.EntryImage` | server.js:258-270 | a chosen image is never empty |
| `Server.EntryImagePriority` | server.js:258-270 | enclosure url, then the first `<img src>` in content, then the article page only when the entry has a link |
| `Server.NormalizeEntry` | server.js:272-289 | the `newsItem` object of an admitted entry; its fields are stated by `Server.RssItemFields` |
| `Server.RssItemFields` | server.js:272-289 | the id decodes to the link (or a fallback text), the URL and title are the entry's, views lie in [100, 900), the date is the entry's and the source is the configured one |
| `Server.Admitted` | server.js:241-256 | whether an entry passes the language and region tests; `Server.AdmittedItemsStep` shows the scan appends an entry exactly when it is admitted |
| `Server.AdmittedItems` | server.js:241-256 | the admitted entries, no more than the entries, dated when the entries are |
| `Server.AdmittedItemsPrefix` | server.js:241-256 | the items admitted from a prefix of the entries are a prefix of those admitted from all |
| `Server.AdmittedItemsLast` | server.js:241-256 | the items from all but the last entry are a prefix of all |
| `Server.ScanStopped` | server.js:294 | stopping the scan at 15 items or at the end gives the first 15 admitted items |
| `Server.AdmittedItemsStep` | server.js:241-291 | one more entry appends its item exactly when admitted |
| `Server.FeedItems` | server.js:241-295 | what the entry loop emits for one feed; bounded and traced to admitted entries by `Server.FeedItemsFrom` |
| `Server.FeedItemsFrom` | server.js:241-295 | at most 15 items per feed, each the normalization of an admitted entry among the first 20 |
| `Server.AdmittedFrom` | server.js:241-291 | every admitted item comes from an admitted entry |
| `Server.ProcessFeed` | server.js:238-295 | the entry loop with `processedCount` and the early break computes the feed's items |
| `Server.FirstFeed` | server.js:229-308 | the first candidate URL that parses, every earlier one having failed; none when all fail |
| `Server.FetchSource` | server.js:217-317 | the URL-fallback loop returns the items of the first feed that parses, nothing when all fail |
| `Server.CollectedStep` | server.js:217-320 | the source loop appends each source's items in order |
| `Server.CollectSources` | server.js:212-320 | the outer loop of `fetchNews` collects the items of every source in order |
| `Server.RefreshRss` | server.js:212-328 | the refreshed cache is the snapshot of the collected items under the URL key, capped at 100 |
| `Server.CollectedDated` | server.js:217-320 | collected items are dated when the feeds' dates are valid |
| `Server.SourceItemsDated` | server.js:217-317 | one source's items are dated when the feeds' dates are valid |
| `Server.RssCache` | server.js:322-328 | the RSS cache holds exactly `min(100, n)` items for `n` deduplicated candidates, sorted newest first, with pairwise distinct URLs, each the first of its URL |
| `Server.RssCacheCoverage` | server.js:322-328 | when nothing is truncated, every collected URL is in the cache |
| `Server.RssIdsDistinct` | server.js:273 | entries with different links get different ids |
| `Server.StaysOnBotApi` | server.js:352-387 | whether one refresh keeps the Bot API; the mode over many refreshes is stated by `Server.FallbackIsSticky` and `Server.BotApiSurvivesIff` |
| `Server.ModeAfter` | server.js:352-387 | the mode after a sequence of refreshes; absorbing in scraping mode (`Server.FallbackIsSticky`) and characterised by `Server.BotApiSurvivesIff` |
| `Server.FallbackIsSticky` | server.js:352-387 | once on web scraping, refreshes never return to the Bot API |
| `Server.BotApiSurvivesIff` | server.js:352-387 | the Bot API stays in use exactly when every refresh returned a non-empty result |
| `Server.Combined` | server.js:489-491 | exactly `min(100, n)` items of the `n` in both caches, the head of their newest-first order, all of them when there are at most 100 |
| `Server.CombinedKeepsNewest` | server.js:489-491 | an item of either cache left out of the merge is no newer than any item served |
| `Server.CombinedKeepsDuplicates` | server.js:489-491 | an item in both caches appears twice in the combined feed: there is no dedup |
| `Server.Server.constructor` | server.js:21-26 | an empty cache, no update time, no parser, not on the Bot API |
| `Server.Server.FetchNews` | server.js:212-345 | the cache becomes the capped URL-deduplicated snapshot of all sources, `lastUpdated` the refresh time; the Telegram state is untouched |
| `Server.Server.InitializeTelegramParsers` | server.js:28-60 | the Bot API is used exactly when a token is set and `getMe` answered ok; otherwise the scraping parser |
| `Server.Server.FetchTelegramNews` | server.js:348-388 | a non-empty Bot-API result is returned and keeps the mode; an empty or failed one switches to scraping for good and returns the scraper's result, or nothing on error |
| `TelegramBot.ParseChannelPost` | TelegramBotParser.js:129-164 | `parseChannelPost`; its keep condition and fields are stated by `TelegramBot.ChannelPostSpec` |
| `TelegramBot.ChannelPostSpec` | TelegramBotParser.js:129-164 | a post is kept iff its text has at least 10 characters, is Russian, and it carries a `date` that fits a JavaScript Date (a missing one makes `toISOString` throw); then the id decodes to `tg_bot_<channel>_<msg>_<date>`, the URL is `https://t.me/<handle>/<message_id>`, the image is the file URL of the last photo, a zero date shows as "Неизвестно", views fall back to [100, 600) |
| `TelegramBot.PostUrlTail` | TelegramBotParser.js:146 | the post URL is the channel prefix followed by the decimal message id |
| `TelegramBot.PostUrlsDistinct` | TelegramBotParser.js:146 | different message ids give different URLs |
| `TelegramBot.BotIdsDetermine` | TelegramBotParser.js:142 | for dated posts, the only ones kept, equal ids imply equal message ids and dates |
| `TelegramBot.BotIdTextShape` | TelegramBotParser.js:142 | the id text is `tg_bot_` + channel id + `_` + message id + `_` + date, the date rendered as its digits or "undefined" |
| `TelegramBot.BotPosts` | TelegramBotParser.js:61-95 | the posts of one `getUpdates` answer; traced to this chat's channel posts by `TelegramBot.BotPostsFrom` |
| `TelegramBot.BotPostsFrom` | TelegramBotParser.js:61-95 | a failed request gives no posts; otherwise each post comes, in order, from a channel post of that chat's username |
| `TelegramBot.ParseRssItem` | TelegramBotParser.js:186-223 | `parseRSSItem`; its keep condition and fields are stated by `TelegramBot.RssItemSpec` |
| `TelegramBot.RssItemSpec` | TelegramBotParser.js:186-223 | an item is kept iff the title has at least 10 characters and title + ' ' + snippet is Russian; id, URL, bounded title and description, image iff content has an `<img src>`, views in [100, 600) |
| `TelegramBot.ProxyPosts` | TelegramBotParser.js:98-126 | the posts of one proxy answer; bounded and traced to the first 15 entries by `TelegramBot.ProxyPostsFrom` |
| `TelegramBot.ProxyPostsFrom` | TelegramBotParser.js:98-126 | at most 15 posts, none on error, each from one of the first 15 entries |
| `TelegramBot.ProxyPostsDated` | TelegramBotParser.js:98-126 | proxy posts are dated when the entries' dates are valid |
| `TelegramBot.Working` | TelegramBotParser.js:241-257 | `botApiWorking` after the first channels; characterised by `TelegramBot.WorkingIff` |
| `TelegramBot.ProxyConsulted` | TelegramBotParser.js:231-257 | whether the proxy is asked for a channel; characterised by `TelegramBot.ProxyConsultedIff` |
| `TelegramBot.ChannelRound` | TelegramBotParser.js:231-257 | the posts one channel contributes; `TelegramBot.TelegramBotParser.ChannelStep` gives the loop's step in its terms |
| `TelegramBot.Gathered` | TelegramBotParser.js:226-258 | the posts of the first channels, in order; dated by `TelegramBot.GatheredDated` and snapshotted by `TelegramBot.TelegramCache` |
| `TelegramBot.WorkingIff` | TelegramBotParser.js:241-257 | `botApiWorking` holds exactly when no earlier channel had both results empty |
| `TelegramBot.ProxyConsultedIff` | TelegramBotParser.js:231-257 | the proxy is asked for a channel iff there is no token, or its Bot-API result was empty and no earlier channel failed both ways; without a token only the proxy is used |
| `TelegramBot.GivesUpAfterDoubleFailure` | TelegramBotParser.js:241-257 | after a channel failed both ways, a later empty Bot-API result is final |
| `TelegramBot.GatheredDated` | TelegramBotParser.js:226-258 | the gathered posts are dated |
| `TelegramBot.TelegramCache` | TelegramBotParser.js:260-268 | exactly `min(50, n)` posts for `n` deduplicated candidates, sorted newest first, pairwise distinct in URL and description, drawn from the gathered posts, each first of its kind |
| `TelegramBot.TelegramBotParser.constructor` | TelegramBotParser.js:5-44 | an empty cache, no update time, the given token |
| `TelegramBot.TelegramBotParser.GetChannelPosts` | TelegramBotParser.js:61-95 | the update loop computes the channel's posts |
| `TelegramBot.TelegramBotParser.GetChannelPostsViaRSS` | TelegramBotParser.js:98-126 | the proxy loop computes the channel's proxy posts |
| `TelegramBot.TelegramBotParser.GatherChannels` | TelegramBotParser.js:226-258 | the channel loop collects every channel's round in order |
| `TelegramBot.TelegramBotParser.ChannelStep` | TelegramBotParser.js:243-257 | one channel's round, with the `botApiWorking` update |
| `TelegramBot.TelegramBotParser.FetchTelegramNews` | TelegramBotParser.js:226-287 | the cache becomes the 50-item snapshot of the gathered posts under the URL-or-description key, and is returned |
| `TelegramBot.TelegramBotParser.GetCachedNews` | TelegramBotParser.js:334-341 | data is the cache, total its length |
| `TelegramBot.TelegramBotParser.GetStats` | TelegramBotParser.js:343-355 | per-channel counts sum to the total, which is the cache length; `withImages` is at most the total |
| `TelegramScrape.SecondSegment` | telegramParser.js:99 | `split('/')[1]` contains no '/' |
| `TelegramScrape.SecondSegmentOf` | telegramParser.js:99 | the segment after the first '/', and "" when there is none |
| `TelegramScrape.LeadingDigits` | telegramParser.js:161 | the longest run of digits at the start |
| `TelegramScrape.FromFirstDigit` | telegramParser.js:161 | the text from the first digit on, everything skipped being non-digits |
| `TelegramScrape.FractionDigits` | telegramParser.js:161 | the digits of `(?:\.\d+)?` after a dot |
| `TelegramScrape.DivDown` | telegramParser.js:169-174 | `Math.floor` of a non-negative quotient |
| `TelegramScrape.LeadingDigitsOf` | telegramParser.js:161 | the leading digits of `digits + non-digit...` are those digits |
| `TelegramScrape.ParseViews` | telegramParser.js:158-179 | `parseViews`; stated by `TelegramScrape.ViewsWithoutDigits`, `TelegramScrape.ViewsOfCount` and `TelegramScrape.ViewsOfDecimal` |
| `TelegramScrape.ViewsWithoutDigits` | telegramParser.js:158-179 | digit-free or empty text gives a placeholder in [100, 600) |
| `TelegramScrape.ReadWhole` | telegramParser.js:161-175 | a whole number read with its suffix factor |
| `TelegramScrape.FractionOf` | telegramParser.js:161 | the fraction digits after the dot, and what follows them |
| `TelegramScrape.WholeBeforeDot` | telegramParser.js:161 | the whole part ends at the dot |
| `TelegramScrape.ReadViewsParts` | telegramParser.js:161-175 | a decimal number read as whole part, fraction and suffix factor |
| `TelegramScrape.SpacesThenSuffix` | telegramParser.js:161 | `\s*` then the suffix letter |
| `TelegramScrape.SuffixOf` | telegramParser.js:164-175 | K/к multiply by 1000, M/м by 1000000, no suffix by 1 |
| `TelegramScrape.ViewsOfCount` | telegramParser.js:158-179 | `n`, optional spaces and a suffix parse to `n` times the suffix factor |
| `TelegramScrape.ScaledWhole` | telegramParser.js:173-174 | a whole number scales exactly |
| `TelegramScrape.ViewsOfDecimal` | telegramParser.js:158-179 | `w.f` with a suffix parses to the floor of the exact decimal times the factor |
| `TelegramScrape.ParseBlock` | telegramParser.js:66-114 | the post of one message block; its keep condition and fields are stated by `TelegramScrape.BlockSpec` |
| `TelegramScrape.BlockSpec` | telegramParser.js:66-114 | a block is kept iff its trimmed text has at least 10 characters and is Russian; the URL is `https://t.me/<user>/<segment>`, ending in "/" without `data-post`; image iff the style matched |
| `TelegramScrape.ChannelPosts` | telegramParser.js:66-117 | the posts of one page; bounded and traced to the first 15 blocks by `TelegramScrape.ChannelPostsFrom` |
| `TelegramScrape.ChannelPostsFrom` | telegramParser.js:66-117 | at most 15 posts, none on error, each from one of the first 15 blocks |
| `TelegramScrape.ChannelPostsDated` | telegramParser.js:66-117 | posts are dated when the blocks' dates are valid |
| `TelegramScrape.Gathered` | telegramParser.js:205-211 | the posts of the first channels, in order; dated by `TelegramScrape.GatheredDated` and snapshotted by `TelegramScrape.ScrapeCache` |
| `TelegramScrape.GatheredDated` | telegramParser.js:205-211 | the gathered posts are dated |
| `TelegramScrape.ScrapeCache` | telegramParser.js:213-221 | exactly `min(50, n)` posts for `n` deduplicated candidates, sorted newest first, pairwise distinct in URL and description, drawn from the gathered posts, each first of its kind |
| `TelegramScrape.LinklessBlocksCollide` | telegramParser.js:214-216 | two kept blocks without `data-post` share the URL of line 99, so dedup keeps only the first |
| `TelegramScrape.TelegramParser.constructor` | telegramParser.js:6-48 | an empty cache and no update time |
| `TelegramScrape.TelegramParser.ParseChannel` | telegramParser.js:51-123 | the channel's posts, none when the page fails |
| `TelegramScrape.TelegramParser.ParseBlocks` | telegramParser.js:66-114 | the `.each` loop, stopped at index 15, keeps the present parse results |
| `TelegramScrape.TelegramParser.GatherChannels` | telegramParser.js:205-211 | the channel loop collects every channel's posts in order |
| `TelegramScrape.TelegramParser.FetchTelegramNews` | telegramParser.js:201-240 | the cache becomes the 50-item snapshot of the gathered posts under the URL-or-description key, and is returned |
| `TelegramScrape.TelegramParser.GetCachedNews` | telegramParser.js:243-250 | data is the cache, total its length |
| `TelegramScrape.TelegramParser.GetStats` | telegramParser.js:253-265 | per-channel counts sum to the total, which is the cache length; `withImages` is at most the total |
| `NewsService.Filter` | services/newsService.js:41 | `filter` keeps exactly the members that pass, as an order-preserving subsequence, each passing item as often as in the input |
| `NewsService.FilterAll` | services/newsService.js:79 | filtering by a test every member passes changes nothing |
| `NewsService.SubsequenceDated` | services/newsService.js:77-81 | a subsequence of dated items is dated |
| `NewsService.EnabledSources` | services/newsService.js:67 | exactly the enabled sources, in configuration order |
| `NewsService.AllConfiguredEnabled` | config/sources.js:1-44 | all five configured feeds are enabled, so all are parsed |
| `NewsService.NoEntityAtIndex` | services/newsService.js:141 | no entity starts here exactly when the next ';' is at the start or absent |
| `NewsService.NoEntityAtPrefix` | services/newsService.js:141 | the no-entity property survives truncation |
| `NewsService.TagFreeCons` | services/newsService.js:140 | a text is tag-free iff its tail is and a leading '<' has no later '>' |
| `NewsService.TagFreeSlice` | services/newsService.js:140 | a slice of tag-free text is tag-free |
| `NewsService.EntityFreeCons` | services/newsService.js:141 | a text is entity-free iff its tail is and a leading '&' starts no entity |
| `NewsService.EntityFreeSlice` | services/newsService.js:141 | a slice of entity-free text is entity-free |
| `NewsService.StripTags` | services/newsService.js:140 | `replace(/<[^>]*>/g, '')` leaves only input characters and no `<...>` tag |
| `NewsService.ReplaceEntities` | services/newsService.js:141 | `replace(/&[^;]+;/g, ' ')` leaves only input characters and spaces |
| `NewsService.ReplaceEntitiesTagFree` | services/newsService.js:140-141 | replacing entities cannot create a tag |
| `NewsService.ReplaceEntitiesEntityFree` | services/newsService.js:141 | after replacing entities none is left |
| `NewsService.CollapseTagFree` | services/newsService.js:142 | collapsing whitespace cannot create a tag |
| `NewsService.CollapseEntityFree` | services/newsService.js:142 | collapsing whitespace cannot create an entity |
| `NewsService.TrimTagFree` | services/newsService.js:143 | trimming keeps text tag-free and entity-free |
| `NewsService.CleanText` | services/newsService.js:138-144 | the cleaned text has no tag, no entity, no whitespace run and no leading or trailing whitespace |
| `NewsService.StripTagsIdentity` | services/newsService.js:140 | stripping tags from tag-free text changes nothing |
| `NewsService.ReplaceEntitiesIdentity` | services/newsService.js:141 | replacing entities in entity-free text changes nothing |
| `NewsService.CleanTextFixed` | services/newsService.js:138-144 | text that is already tag-free, entity-free, single-spaced and trimmed is its own clean form |
| `NewsService.CleanTextIdempotent` | services/newsService.js:138-144 | cleaning twice is cleaning once |
| `NewsService.CleanDescription` | services/newsService.js:146-149 | the cleaned text when at most 200 long, else its first 200 characters and "..."; never more than 203 |
| `NewsService.ExtractImageUrl` | services/newsService.js:151-177 | a found image URL is non-empty |
| `NewsService.ImageUrlPriority` | services/newsService.js:151-177 | a decision table, one clause per `if` of `extractImageUrl`: media:content, then an `image/` enclosure, then media:thumbnail, then the first `<img src>` of description or content; null exactly when none applies |
| `NewsService.PublishedText` | services/newsService.js:31 | `pubDate` or `isoDate` is missing exactly when both are |
| `NewsService.FormatDate` | services/newsService.js:179-203 | "Неизвестно" exactly for a missing or invalid date; never "вчера", "Invalid Date", the lower-case "только что" or the plain calendar date |
| `NewsService.DayOldItem` | services/newsService.js:191-195 | an item one day old shows "1 дн назад" |
| `NewsService.GenerateId` | services/newsService.js:133-136 | for a present URL, the id is the first at most 16 characters of its base64 |
| `NewsService.IdSeesTwelveBytes` | services/newsService.js:135 | URLs sharing their first 12 UTF-8 bytes get the same id |
| `NewsService.SamePrefixSameId` | services/newsService.js:135 | ASCII URLs sharing their first 12 characters get the same id |
| `NewsService.ShortUrlIdsDistinct` | services/newsService.js:135 | different present URLs of at most 12 bytes get different ids |
| `NewsService.WholeId` | services/newsService.js:135 | a URL of at most 12 bytes keeps its whole base64 as id |
| `NewsService.ToItem` | services/newsService.js:25-41 | the object built for one entry; its validity and view range are stated by `NewsService.ToItemValid` |
| `NewsService.Normalized` | services/newsService.js:25-40 | one item per entry, each with the source's category and name and type "RSS" |
| `NewsService.ParseRssFeed` | services/newsService.js:14-57 | nothing on error; otherwise exactly the valid mapped entries, in order, each titled and linked, with the source's category and name |
| `NewsService.ToItemValid` | services/newsService.js:25-41 | an item is valid iff its cleaned title is not the placeholder and it has a link or guid; views lie in [50, 1050) |
| `NewsService.KeepWordsAndSpaces` | services/newsService.js:208 | `replace(/[^\w\s]/g, '')` keeps exactly the ASCII word characters and whitespace |
| `NewsService.TitleKey` | services/newsService.js:208 | the key holds only ASCII word characters and whitespace |
| `NewsService.LowerKeepsNonWord` | services/newsService.js:208 | lowering a character yields an ASCII word character exactly when it is one, or is U+0130 or the Kelvin sign U+212A |
| `NewsService.NoWordCharsEmptyKey` | services/newsService.js:208 | a title none of whose characters lowers to an ASCII word character (an all-Cyrillic one) has the empty key |
| `NewsService.ToLowerDotted` | services/newsService.js:208 | `n` capitals U+0130 lower to `n` pairs of "i" and a combining dot |
| `NewsService.KeepDotted` | services/newsService.js:208 | deleting non-word characters from those pairs leaves `n` letters "i" |
| `NewsService.DottedCapitalsMakeKey` | services/newsService.js:208 | a title of `n` capitals U+0130 has the key of `n` letters "i", so ten of them make a key long enough to keep |
| `NewsService.LongKeysHaveTitles` | services/newsService.js:208-209 | an item whose key has at least 10 characters has a title |
| `NewsService.KeptBy` | services/newsService.js:205-213 | the kept items are an order-preserving subsequence, each with a key of at least 10 characters |
| `NewsService.KeptByStep` | services/newsService.js:207-211 | one more item is kept exactly when it is admitted |
| `NewsService.RemoveDuplicates` | services/newsService.js:205-213 | the `seen`-set filter keeps exactly the items the specification keeps |
| `NewsService.RemoveDuplicatesStep` | services/newsService.js:207-211 | one step of the filter keeps `seen` equal to the kept keys |
| `NewsService.KeptByDistinct` | services/newsService.js:205-213 | the kept keys are pairwise distinct |
| `NewsService.DistinctAppend` | services/newsService.js:209-210 | appending an unseen key keeps keys distinct |
| `NewsService.CarriesStep` | services/newsService.js:209 | a key occurs in `s + [x]` iff it occurs in `s` or is `x`'s |
| `NewsService.KeysOfAppend` | services/newsService.js:210 | the keys of `p + [x]` are those of `p` and `x`'s |
| `NewsService.SeenKeys` | services/newsService.js:206-211 | a long key is seen exactly when some earlier item carries it |
| `NewsService.KeptIff` | services/newsService.js:205-213 | an item is kept iff its key has at least 10 characters and no earlier item has the same key |
| `NewsService.CyrillicTitleDropped` | services/newsService.js:208-209 | an item whose title has no character that lowers to an ASCII word character (an all-Cyrillic title) is always dropped |
| `NewsService.Collected` | services/newsService.js:64-75 | every collected item is valid |
| `NewsService.CollectedStep` | services/newsService.js:69-75 | the source loop appends each source's items in order |
| `NewsService.ParseRssFeedDated` | services/newsService.js:32 | parsed items are dated when the feeds' dates are not invalid |
| `NewsService.NormalizedDated` | services/newsService.js:32 | mapped items are dated when no entry's date is invalid |
| `NewsService.ToItemDated` | services/newsService.js:32 | a mapped item is dated unless its date is invalid; a missing one falls back to now |
| `NewsService.CollectedDated` | services/newsService.js:61-81 | collected items are dated when the feeds' dates are not invalid |
| `NewsService.CacheOf` | services/newsService.js:78-81 | the cache holds exactly `min(100, n)` items for `n` deduplicated valid items, sorted newest first |
| `NewsService.CacheOfNewest` | services/newsService.js:78-81 | the cache is the first `min(100, n)` items of the deduplicated, validated items sorted newest first |
| `NewsService.CacheOfKeepsNewest` | services/newsService.js:80-81 | a deduplicated valid item left out of the cache is no newer than any cached item |
| `NewsService.DistinctKeysPermutation` | services/newsService.js:80 | sorting keeps the keys pairwise distinct |
| `NewsService.CacheOfWellFormed` | services/newsService.js:78-81 | the cache is well formed, draws from the collected items, and its validity filter is a no-op |
| `NewsService.KeptAreValid` | services/newsService.js:78-79 | every kept item is collected, valid, titled and linked |
| `NewsService.SortedPrefixMembers` | services/newsService.js:80-81 | the first 100 of the sorted items come from the deduplicated items and have distinct keys |
| `NewsService.CollectFeeds` | services/newsService.js:69-75 | the source loop collects the items of all sources in order |
| `NewsService.RefreshCache` | services/newsService.js:61-90 | the cache is built from the enabled sources' items and is well formed |
| `NewsService.Slice` | services/newsService.js:103 | `slice(start, end)` is the clamped range, empty when it starts past the end or ends before it starts |
| `NewsService.SliceAdjacent` | services/newsService.js:103 | adjacent slices join into one |
| `NewsService.CategoryView` | services/newsService.js:95-100 | the items of the category, in order; the whole cache for an absent category or "all" |
| `NewsService.Page` | services/newsService.js:92-106 | at most `limit` items, each in the cache and of the category |
| `NewsService.PagesJoin` | services/newsService.js:103 | consecutive pages join into one larger page |
| `NewsService.WholeCategoryPage` | services/newsService.js:98-103 | a limit covering the cache gives the whole category view |
| `NewsService.NewsService.constructor` | services/newsService.js:11-12 | an empty cache and no update time |
| `NewsService.NewsService.UpdateNewsCache` | services/newsService.js:61-90 | the cache becomes the deduplicated, validated, sorted, capped items of the enabled sources, and `lastUpdate` the refresh time |
| `NewsService.NewsService.GetNews` | services/newsService.js:92-107 | at most `limit` (default 20) items from the cache, each of the category |
| `NewsService.NewsService.GetNewsStats` | services/newsService.js:109-130 | the total is the cache length; source and category counts each sum to it and count each name's occurrences |

## Left out

- Network and libraries: axios, rss-parser, cheerio, `getMe`, `getUpdates` and `getFile` are inputs of the model (feed and page lookups, `Option` captures, probes). Their timeouts, headers and error messages are not modelled.
- Regex scanning of fetched HTML is an input. The og:image, class-image and region-span captures, the city-mention match and the `<img src>` match of entry content arrive as captured values.
- The Express app, CORS, dotenv, `app.listen` and the routes of server.js, and all of routes/news.js: these are HTTP plumbing. routes/news.js is not part of this model, including its `parseInt` of query strings. `NewsService.NewsService.GetNews` therefore takes `nat` limit and offset and ignores the unused `city` argument, like the source.
- Console logging, `setTimeout`/`setInterval` scheduling and the pauses between requests: these have no effect on the data.
- Concurrency: refreshes are modelled as running one at a time, so overlapping refreshes are not modelled.
- `Math.random()` is an input value carried by each entry: a draw that gives views in the stated range, and the text of random id parts.
- Clock reads: one refresh time `now` stands for every `Date.now()` and `new Date()` of a refresh. It feeds the fallback ids (`Server.FallbackIdText`, `TelegramBot.RssIdText`, `TelegramScrape.ScrapeIdText`), every relative date (`Dates.FormatRelative`, `Dates.FormatService`), the `Date.now()` fallback date of `NewsService.ToItem` and the stored update time. In the source the clock moves on during a refresh, and the update time is read only after all fetches finish (server.js:329, TelegramBotParser.js:268, telegramParser.js:221, services/newsService.js:83); the model does not capture that later reads return later instants.
- Date-string parsing: a date is missing, unparseable or a millisecond instant. `toLocaleDateString('ru-RU')` is the opaque result `OnDate(instant)`, and newsService's `toLocaleDateString('ru-RU', {day, month: 'short', hour, minute})` the opaque result `OnDayMonthTime(instant)`; their texts are not modelled.
- `Strings.ToLower`: the ASCII capitals, the Cyrillic block U+0400-U+042F, and the two characters whose lower case holds an ASCII letter (U+0130 and the Kelvin sign U+212A) are lowered; the rest of Unicode case mapping is not modelled. An omitted mapping turns a capital outside those ranges into another letter outside ASCII and outside the lower-case Cyrillic block. Such a letter is deleted from a title key and occurs in neither region phrase, so the omission does not change a key or a region decision.
- `TelegramScrape.ViewsOfDecimal`: the model computes views from the exact decimal, not from `parseFloat`'s binary rounding, so inputs such as "1.005K" may differ by one.
- Sorting with an invalid `rawDate`: the JavaScript comparator then yields NaN and the engine's order is implementation-defined. The sorts require every item to be dated, and the refresh methods require feeds whose dates are valid or, for newsService, not invalid. `Aggregation.SortByDate` is an insertion sort: it states the permutation and the order, not stability among equal dates.
- `undefined` and `""`: feed fields and Telegram texts take `""` for a missing value, since the source only tests them for truthiness or joins them with `||`. A missing Bot-API `date` stays apart as `None`, because `${post.date}` and `post.date * 1000` treat it differently from 0. In `${item.guid || item.link}` the model writes "undefined" when both are empty, while the source writes "" for a link that is present but empty; that text only feeds the base64 id of a proxied post.
- Lengths count characters, not UTF-16 code units: `length < 10`, `substring(0, 97)` and `substring(0, 500)` differ from the source only for characters outside the Basic Multilingual Plane.
- `getUpdates` is a per-channel input: the source sends the same request for every channel, and the model lets the reply differ per channel index.
- `NewsService.ToItemValid`: the model states validity through the cleaned title differing from "Без заголовка". It does not include a proof that an entry without a title is always dropped.
- `NewsService.RemoveDuplicates`: proved for any key function. newsService uses the title key `ByTitle`, which the cache methods pass in.
