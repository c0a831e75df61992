/**
 * Relative publication dates. `formatPublishDate` (server.js) and `formatTelegramDate`
 * (both Telegram parsers) are one function; `formatDate` (services/newsService.js) is a
 * variant without the "yesterday" bucket. Instants are integer milliseconds since the epoch.
 */
module Dates {
  import opened Wrappers

  /** A date as the source receives it: absent (`undefined` or `''`), text that `new Date`
      cannot parse, or a valid instant. */
  datatype DateText = NoDate | BadDate | At(ms: int)

  /** The instant `new Date(text)` denotes; `None` is JavaScript's Invalid Date. */
  function Instant(d: DateText): (r: Option<int>)
    ensures r.Some? <==> d.At?
  {
    if d.At? then Some(d.ms) else None
  }

  /** What `new Date(text)` passes on: a Date object is truthy even when it is invalid. */
  function AsDateObject(d: DateText): (r: DateText)
    ensures !r.NoDate? && Instant(r) == Instant(d)
  {
    if d.NoDate? then BadDate else d
  }

  /** The rendered label; the comments give the text the source produces. */
  datatype Elapsed =
    | Unknown            // "Неизвестно"
    | InvalidDate        // "Invalid Date", from toLocaleDateString on an invalid date
    | JustNow            // "только что"
    | JustNowCapital     // "Только что", newsService's spelling
    | MinutesAgo(n: nat) // "<n> мин назад"
    | HoursAgo(n: nat)   // "<n> ч назад"
    | Yesterday          // "вчера"
    | DaysAgo(n: nat)    // "<n> дн назад"
    | OnDate(ms: int)    // toLocaleDateString('ru-RU') of the instant: the calendar date
    | OnDayMonthTime(ms: int) // toLocaleDateString('ru-RU', {day, month: 'short', hour, minute})

  /** `Math.floor((now - date) / (1000 * 60))`; Dafny's `/` by a positive divisor is floor division. */
  function MinutesSince(ms: int, now: int): int {
    (now - ms) / 60000
  }

  /** `formatPublishDate` / `formatTelegramDate`. */
  function FormatRelative(d: DateText, now: int): Elapsed {
    match d
    case NoDate => Unknown
    case BadDate => InvalidDate
    case At(ms) =>
      var minutes := MinutesSince(ms, now);
      if minutes < 1 then JustNow
      else if minutes < 60 then MinutesAgo(minutes)
      else if minutes < 1440 then HoursAgo(minutes / 60)
      else
        var days := minutes / 1440;
        if days == 1 then Yesterday
        else if days < 7 then DaysAgo(days)
        else OnDate(ms)
  }

  /** `formatDate` of newsService: invalid dates are "unknown" and there is no "yesterday". */
  function FormatService(d: DateText, now: int): Elapsed {
    match d
    case NoDate => Unknown
    case BadDate => Unknown
    case At(ms) =>
      var minutes := MinutesSince(ms, now);
      if minutes < 1 then JustNowCapital
      else if minutes < 60 then MinutesAgo(minutes)
      else
        var hours := minutes / 60;
        if hours < 24 then HoursAgo(hours)
        else
          var days := hours / 24;
          if days < 7 then DaysAgo(days)
          else OnDayMonthTime(ms)
  }

  /**
   * The buckets in terms of the elapsed milliseconds `e = now - ms`: less than a minute
   * (future dates included) is "just now"; then whole minutes below an hour, whole hours
   * below a day, "yesterday" for the second day, whole days below a week, and the date itself.
   */
  lemma FormatRelativeBuckets(ms: int, now: int)
    ensures var r, e := FormatRelative(At(ms), now), now - ms;
      && (r == JustNow <==> e < 60000)
      && (r.MinutesAgo? <==> 60000 <= e < 3600000)
      && (r.MinutesAgo? ==> 1 <= r.n < 60 && r.n * 60000 <= e < r.n * 60000 + 60000)
      && (r.HoursAgo? <==> 3600000 <= e < 86400000)
      && (r.HoursAgo? ==> 1 <= r.n < 24 && r.n * 3600000 <= e < r.n * 3600000 + 3600000)
      && (r == Yesterday <==> 86400000 <= e < 172800000)
      && (r.DaysAgo? <==> 172800000 <= e < 604800000)
      && (r.DaysAgo? ==> 2 <= r.n < 7 && r.n * 86400000 <= e < r.n * 86400000 + 86400000)
      && (r.OnDate? <==> 604800000 <= e)
      && (r.OnDate? ==> r.ms == ms)
  {
    var e := now - ms;
    var m := MinutesSince(ms, now);
    assert m * 60000 <= e < m * 60000 + 60000;
    if m >= 60 {
      var h := m / 60;
      assert h * 60 <= m < h * 60 + 60;
      assert h * 3600000 <= e < h * 3600000 + 3600000;
    }
    if m >= 1440 {
      var d := m / 1440;
      assert d * 1440 <= m < d * 1440 + 1440;
      assert d * 86400000 <= e < d * 86400000 + 86400000;
    }
  }

  /** Only a missing date is "unknown"; an unparsable one shows as "Invalid Date". */
  lemma FormatRelativeUnknown(d: DateText, now: int)
    ensures FormatRelative(d, now) == Unknown <==> d.NoDate?
    ensures FormatRelative(d, now) == InvalidDate <==> d.BadDate?
  {
    if d.At? {
      var m := MinutesSince(d.ms, now);
      if m >= 1440 {
        var days := m / 1440;
        assert FormatRelative(d, now) == (if days == 1 then Yesterday else if days < 7 then DaysAgo(days) else OnDate(d.ms));
      }
    }
  }

  /** `(m / 60) / 24 == m / 1440`: whole hours then whole days is whole days. */
  lemma HoursThenDays(m: int)
    requires m >= 0
    ensures (m / 60) / 24 == m / 1440
  {
    var q, r := m / 1440, m % 1440;
    assert m == q * 1440 + r && 0 <= r < 1440;
    assert m / 60 == q * 24 + r / 60;
  }

  /**
   * newsService's `formatDate` agrees with `formatPublishDate` bucket by bucket except
   * that an invalid date is "unknown" rather than "Invalid Date", "just now" is capitalised,
   * what the latter calls "yesterday" it calls "1 дн назад", and a date a week old or more
   * is shown with day, short month and time rather than as the calendar date.
   */
  lemma FormatServiceVersusRelative(d: DateText, now: int)
    ensures FormatService(d, now) ==
      match FormatRelative(d, now)
      case InvalidDate => Unknown
      case JustNow => JustNowCapital
      case Yesterday => DaysAgo(1)
      case OnDate(ms) => OnDayMonthTime(ms)
      case other => other
  {
    if d.At? {
      var m := MinutesSince(d.ms, now);
      if m >= 60 { HoursThenDays(m); }
    }
  }
}
