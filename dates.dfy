/** Timestamp and display-date resolution for one entry, with the fallback to the current time. */
module Dates {
  import opened Wrappers
  import opened Records

  /** The display date of an entry whose publication time is unknown. */
  const JustNow: string := "Just now"

  const MonthNames: seq<string> :=
    ["Jan", "Feb", "Mar", "Apr", "May", "Jun", "Jul", "Aug", "Sep", "Oct", "Nov", "Dec"]

  /** A number below one hundred written with two decimal digits, as `%H`, `%M` and `%d` do. */
  function TwoDigits(n: int): (r: string)
    requires 0 <= n < 100
    ensures |r| == 2 && '0' <= r[0] <= '9' && '0' <= r[1] <= '9'
  {
    ["0123456789"[n / 10], "0123456789"[n % 10]]
  }

  /** The display format `%H:%M · %b %d` with the C locale's month abbreviations. */
  function FormatDate(d: DateTime): string {
    TwoDigits(d.hour) + ":" + TwoDigits(d.minute) + " \U{B7} " + MonthNames[d.month - 1] + " " + TwoDigits(d.day)
  }

  /** The resolved timestamp and its display date. */
  datatype Stamp = Stamp(timestamp: int, date: string)

  /** Reading and parsing `published`; when it is absent or does not parse, the current time
      `now` with the date "Just now". */
  function ResolveDate(published: Option<Published>, now: int): Stamp {
    match published
    case None => Stamp(now, JustNow)
    case Some(p) =>
      match p.parsed
      case None => Stamp(now, JustNow)
      case Some(dt) => Stamp(dt.epoch, FormatDate(dt))
  }

  /** A formatted date is fourteen characters with ':' third, so never the sentinel. */
  lemma FormatDateIsNotJustNow(d: DateTime)
    ensures |FormatDate(d)| == 14 && FormatDate(d)[2] == ':'
    ensures FormatDate(d) != JustNow
  {
    assert |JustNow| == 8;
  }

  /** The fallback: the date is "Just now" exactly when `published` is absent or does not parse,
      and then the timestamp is `now`; otherwise the timestamp is the parsed one and the date is
      its rendering. The fallback never fails the entry. */
  lemma ResolveDateFallback(published: Option<Published>, now: int)
    ensures var r := ResolveDate(published, now);
      (r.date == JustNow <==> published.None? || published.value.parsed.None?) &&
      (r.date == JustNow ==> r.timestamp == now) &&
      (r.date != JustNow ==>
        r.timestamp == published.value.parsed.value.epoch &&
        r.date == FormatDate(published.value.parsed.value))
  {
    if published.Some? && published.value.parsed.Some? {
      FormatDateIsNotJustNow(published.value.parsed.value);
    }
  }

  /** Scenario: a parsed publication time of 1700000000 is kept, with a formatted date. */
  lemma ParsedDateScenario(published: Published, now: int)
    requires published.parsed.Some? && published.parsed.value.epoch == 1700000000
    ensures ResolveDate(Some(published), now).timestamp == 1700000000
    ensures ResolveDate(Some(published), now).date != JustNow
  {
    ResolveDateFallback(Some(published), now);
  }
}
