/** Relative-time labels for the conversation list ("now", "5m", "2h", "3d"),
    `formatRelativeTime` in extension/contents/lib/utils.ts. The label for
    dates a week old or more is the browser's locale date string, which is
    outside the model; it is represented by the timestamp it formats. */
module Utils {
  import opened Common

  const MinuteMs: int := 60000
  const HourMs: int := 3600000
  const DayMs: int := 86400000

  datatype RelativeTime =
    | JustNow
    | MinutesAgo(minutes: nat)
    | HoursAgo(hours: nat)
    | DaysAgo(days: nat)
    | LocaleDate(timestamp: int)
  {
    /** The text shown for the first four buckets; the locale date has none
        in the model. */
    function Label(): Option<string> {
      match this
      case JustNow => Some("now")
      case MinutesAgo(m) => Some(Decimal(m) + "m")
      case HoursAgo(h) => Some(Decimal(h) + "h")
      case DaysAgo(d) => Some(Decimal(d) + "d")
      case LocaleDate(_) => None
    }
  }

  /** `formatRelativeTime(timestamp)` with the clock reading `now`. JavaScript's
      `Math.floor` of a quotient by a positive constant is Dafny's `/`. Each
      bucket is characterised by the range of `now - timestamp` it covers;
      the ranges are disjoint and together cover every integer. */
  function FormatRelativeTime(now: int, timestamp: int): (r: RelativeTime)
    ensures r.JustNow? <==> now - timestamp < MinuteMs
    ensures r.MinutesAgo? <==> MinuteMs <= now - timestamp < HourMs
    ensures r.MinutesAgo? ==> r.minutes == (now - timestamp) / MinuteMs && 1 <= r.minutes < 60
    ensures r.HoursAgo? <==> HourMs <= now - timestamp < DayMs
    ensures r.HoursAgo? ==> r.hours == (now - timestamp) / HourMs && 1 <= r.hours < 24
    ensures r.DaysAgo? <==> DayMs <= now - timestamp < 7 * DayMs
    ensures r.DaysAgo? ==> r.days == (now - timestamp) / DayMs && 1 <= r.days < 7
    ensures r.LocaleDate? <==> now - timestamp >= 7 * DayMs
    ensures r.LocaleDate? ==> r.timestamp == timestamp
  {
    var diff := now - timestamp;
    var minutes := diff / MinuteMs;
    var hours := diff / HourMs;
    var days := diff / DayMs;
    if minutes < 1 then JustNow
    else if minutes < 60 then MinutesAgo(minutes)
    else if hours < 24 then HoursAgo(hours)
    else if days < 7 then DaysAgo(days)
    else LocaleDate(timestamp)
  }

  /** Every label the model can print is non-empty and ends in its unit
      letter; the count before the unit is the one the bucket holds. */
  lemma LabelShape(now: int, timestamp: int)
    ensures var r := FormatRelativeTime(now, timestamp);
      match r
      case JustNow => r.Label() == Some("now")
      case MinutesAgo(m) => r.Label().Some? && ParseDecimal(r.Label().value[..|r.Label().value| - 1]) == m
                            && r.Label().value[|r.Label().value| - 1] == 'm'
      case HoursAgo(h) => r.Label().Some? && ParseDecimal(r.Label().value[..|r.Label().value| - 1]) == h
                          && r.Label().value[|r.Label().value| - 1] == 'h'
      case DaysAgo(d) => r.Label().Some? && ParseDecimal(r.Label().value[..|r.Label().value| - 1]) == d
                         && r.Label().value[|r.Label().value| - 1] == 'd'
      case LocaleDate(_) => r.Label() == None
  {
    var r := FormatRelativeTime(now, timestamp);
    match r
    case JustNow =>
    case MinutesAgo(m) =>
      assert (Decimal(m) + "m")[..|Decimal(m)|] == Decimal(m);
      ParseDecimalRoundTrip(m);
    case HoursAgo(h) =>
      assert (Decimal(h) + "h")[..|Decimal(h)|] == Decimal(h);
      ParseDecimalRoundTrip(h);
    case DaysAgo(d) =>
      assert (Decimal(d) + "d")[..|Decimal(d)|] == Decimal(d);
      ParseDecimalRoundTrip(d);
    case LocaleDate(_) =>
  }
}
