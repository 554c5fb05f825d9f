/**
 What the zone abbreviations of freshet/ingest/statuspage.py mean, from a table of
 their own, and what that makes of a parsed stamp: its local day, hour and minute in
 a calendar given in closed form.
 */
module TimestampZones {
  import opened Basics
  import opened Timestamps

  /** Abbreviations by their hours east of UTC. */
  const EAST: map<string, int> := map[
    "UTC" := 0, "GMT" := 0, "UT" := 0, "Z" := 0, "WET" := 0,
    "CET" := 1, "WEST" := 1, "CEST" := 2, "EET" := 2, "EEST" := 3, "MSK" := 3,
    "HKT" := 8, "SGT" := 8, "AWST" := 8, "JST" := 9, "KST" := 9,
    "AEST" := 10, "AEDT" := 11, "NZST" := 12, "NZDT" := 13]

  /** Abbreviations by their hours west of UTC. */
  const WEST: map<string, int> := map[
    "BRT" := 3, "ART" := 3, "EDT" := 4, "EST" := 5, "CDT" := 5, "MDT" := 6, "MST" := 7, "PDT" := 7, "PST" := 8]

  /** The zone is listed, with this many hours to add to UTC. */
  predicate Means(zone: string, hours: int) {
    (zone in EAST && hours == EAST[zone]) || (zone in WEST && hours == -WEST[zone])
  }

  lemma EastListed(zone: string)
    requires zone in EAST
    ensures Offset(zone) == Some(EAST[zone])
  {
  }

  lemma WestListed(zone: string)
    requires zone in WEST
    ensures Offset(zone) == Some(-WEST[zone])
  {
  }

  lemma OffsetListed(zone: string)
    requires Offset(zone).Some?
    ensures if Offset(zone).value >= 0 then zone in EAST else zone in WEST
  {
  }

  /** The parser knows exactly the zones of the table, with the offsets of the table. */
  lemma ZonesExactly(zone: string, hours: int)
    ensures Offset(zone) == Some(hours) <==> Means(zone, hours)
  {
    if zone in EAST { EastListed(zone); }
    if zone in WEST { WestListed(zone); }
    if Offset(zone).Some? { OffsetListed(zone); }
  }

  /** Days before a month, the closed form of the calendar: March begins a year whose months have 30.6 days on average. */
  lemma MonthStartClosed(y: int, m: int)
    requires 1 <= m <= 12
    ensures MonthStart(y, m) == (367 * m - 362) / 12 - (if m <= 2 then 0 else if IsLeap(y) then 1 else 2)
    ensures DaysInMonth(y, m) == if m == 2 then (if IsLeap(y) then 29 else 28) else 30 + (m + m / 8) % 2
  {
    MonthStarts(y);
  }

  lemma MonthStarts(y: int)
    ensures var leap := if IsLeap(y) then 1 else 0;
      && MonthStart(y, 1) == 0 && MonthStart(y, 2) == 31 && MonthStart(y, 3) == 59 + leap && MonthStart(y, 4) == 90 + leap
      && MonthStart(y, 5) == 120 + leap && MonthStart(y, 6) == 151 + leap && MonthStart(y, 7) == 181 + leap
      && MonthStart(y, 8) == 212 + leap && MonthStart(y, 9) == 243 + leap && MonthStart(y, 10) == 273 + leap
      && MonthStart(y, 11) == 304 + leap && MonthStart(y, 12) == 334 + leap
  {
  }

  /** The number of the day in the Gregorian calendar, in closed form: 1 January of year 1 is day 0. */
  function GregorianDay(y: int, m: int, d: int): int {
    365 * (y - 1) + (y - 1) / 4 - (y - 1) / 100 + (y - 1) / 400
    + (367 * m - 362) / 12 - (if m <= 2 then 0 else if y % 400 == 0 || (y % 4 == 0 && y % 100 != 0) then 1 else 2) + d - 1
  }

  lemma DayNumberClosed(y: int, m: int, d: int)
    requires 1 <= m <= 12
    ensures DayNumber(y, m, d) == GregorianDay(y, m, d)
  {
    YearStartClosed(y);
    MonthStartClosed(y, m);
    FourCenturyRule(y);
    CenturyRule(y);
  }

  /** The instant that a stamp shows in a zone so many hours east of UTC, in a year. */
  function ShownInstant(s: Stamp, m: int, y: int, hours: int): Time {
    GregorianDay(y, m, s.day) * DAY + (s.hour - hours) * HOUR + s.minute * MINUTE
  }

  predicate Named(s: Stamp, m: int) {
    1 <= m <= 12 && MONTH_NAMES[m - 1] == s.month
  }

  function Reading(s: Stamp, m: int, hours: int, anchor: Time): Time {
    var thisYear := ShownInstant(s, m, Year(anchor), hours);
    if thisYear <= anchor + MINUTE then thisYear else ShownInstant(s, m, Year(anchor) - 1, hours)
  }

  /**
     A parsed stamp in a listed zone is its own local day, hour and minute: of the
     anchor's year, if that is at most a minute after the anchor, and else of the year before.
   */
  lemma StampIsLocalTime(s: Stamp, hours: int, anchor: Time)
    requires ParseWhen(s, anchor).Some? && Means(s.zone, hours)
    ensures exists m :: Named(s, m) && ParseWhen(s, anchor) == Some(Reading(s, m, hours, anchor))
  {
    ZonesExactly(s.zone, hours);
    var f := Looked(s);
    MonthNumberNames(s.month);
    AgeLimitNeverBinds(f, anchor);
    InstantClosed(s, f, Year(anchor));
    InstantClosed(s, f, Year(anchor) - 1);
    assert Named(s, f.month);
  }

  lemma InstantClosed(s: Stamp, f: Shown, y: int)
    requires 1 <= f.month <= 12 && f.day == s.day && f.hour == s.hour && f.minute == s.minute
    ensures Instant(f, y) == ShownInstant(s, f.month, y, f.offset)
  {
    DayNumberClosed(y, f.month, f.day);
  }

  /** A stamp is refused exactly when its month or zone is unknown or its date does not exist where it is looked for. */
  lemma RefusedExactly(s: Stamp, hours: int, m: int, anchor: Time)
    requires Means(s.zone, hours) && Named(s, m)
    ensures ParseWhen(s, anchor).None? <==>
      || s.hour >= 24 || s.minute >= 60 || !Exists(Year(anchor), m, s.day)
      || (ShownInstant(s, m, Year(anchor), hours) > anchor + MINUTE && !Exists(Year(anchor) - 1, m, s.day))
  {
    ZonesExactly(s.zone, hours);
    MonthNamesMatch(m);
    var f := Looked(s);
    InstantClosed(s, f, Year(anchor));
    if Sensible(f, Year(anchor)) { AgeLimitNeverBinds(f, anchor); }
  }

  /** A stamp whose zone or month is on no list is never guessed at. */
  lemma UnlistedIsRefused(s: Stamp, anchor: Time)
    ensures s.month !in MONTH_NAMES || (s.zone !in EAST && s.zone !in WEST) ==> ParseWhen(s, anchor) == None
  {
    if Offset(s.zone).Some? { ZonesExactly(s.zone, Offset(s.zone).value); }
    MonthNumberNames(s.month);
  }

  /** A zone's standard and daylight abbreviations. */
  const DAYLIGHT := map["EST" := "EDT", "MST" := "MDT", "PST" := "PDT", "CET" := "CEST", "EET" := "EEST", "WET" := "WEST",
                        "AEST" := "AEDT", "NZST" := "NZDT"]

  /**
     The same digits in daylight time are an hour earlier than in standard time, exactly
     unless that hour makes the difference between too late this year and not.
   */
  lemma DaylightIsAnHourEarlier(s: Stamp, m: int, hours: int, anchor: Time)
    requires s.zone in DAYLIGHT && Means(s.zone, hours) && Named(s, m)
    requires ParseWhen(s, anchor).Some? && ParseWhen(s.(zone := DAYLIGHT[s.zone]), anchor).Some?
    ensures var t, u := ParseWhen(s, anchor).value, ParseWhen(s.(zone := DAYLIGHT[s.zone]), anchor).value;
      var thisYear := ShownInstant(s, m, Year(anchor), hours);
      u == t - HOUR <==> !(anchor + MINUTE < thisYear <= anchor + MINUTE + HOUR)
  {
    DaylightHours(s.zone, hours);
    var s' := s.(zone := DAYLIGHT[s.zone]);
    ReadingOf(s, m, hours, anchor);
    ReadingOf(s', m, hours + 1, anchor);
    var y := Year(anchor);
    HourLater(s, s', m, y, hours);
    HourLater(s, s', m, y - 1, hours);
    YearApart(s, m, y, hours);
    EarlierReading(ShownInstant(s, m, y, hours), ShownInstant(s, m, y - 1, hours), anchor + MINUTE);
  }

  lemma ReadingOf(s: Stamp, m: int, hours: int, anchor: Time)
    requires ParseWhen(s, anchor).Some? && Means(s.zone, hours) && Named(s, m)
    ensures ParseWhen(s, anchor).value == Reading(s, m, hours, anchor)
  {
    StampIsLocalTime(s, hours, anchor);
    var n :| Named(s, n) && ParseWhen(s, anchor) == Some(Reading(s, n, hours, anchor));
    NamedOnce(s, m, n);
  }

  lemma HourLater(s: Stamp, s': Stamp, m: int, y: int, hours: int)
    requires s' == s.(zone := s'.zone)
    ensures ShownInstant(s', m, y, hours + 1) == ShownInstant(s, m, y, hours) - HOUR
  {
  }

  lemma EarlierReading(thisYear: Time, lastYear: Time, limit: Time)
    requires lastYear < thisYear - DAY
    ensures var later, earlier := if thisYear <= limit then thisYear else lastYear, if thisYear - HOUR <= limit then thisYear - HOUR else lastYear - HOUR;
      earlier == later - HOUR <==> !(limit < thisYear <= limit + HOUR)
  {
  }

  lemma DaylightHours(zone: string, hours: int)
    requires zone in DAYLIGHT && Means(zone, hours)
    ensures Means(DAYLIGHT[zone], hours + 1)
  {
  }

  lemma NamedOnce(s: Stamp, m: int, n: int)
    requires Named(s, m) && Named(s, n)
    ensures m == n
  {
    MonthNamesMatch(m);
    MonthNamesMatch(n);
  }

  lemma YearApart(s: Stamp, m: int, y: int, hours: int)
    requires 1 <= m <= 12
    ensures ShownInstant(s, m, y - 1, hours) < ShownInstant(s, m, y, hours) - DAY
  {
    var f := Shown(m, s.day, s.hour, s.minute, hours);
    InstantYearBefore(f, y);
    InstantClosed(s, f, y);
    InstantClosed(s, f, y - 1);
  }
}
