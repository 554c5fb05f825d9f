/**
 `_parse_when` of freshet/ingest/statuspage.py: a stamp without a year and with
 a zone abbreviation is resolved against the entry's exact revision time.  The
 model starts from the groups the stamp's regular expression yields; the
 calendar is the proleptic Gregorian one of Python's datetime.
 */
module Timestamps {
  import opened Basics

  /** The groups of a matched stamp: at most two digits each for the numbers. */
  datatype Stamp = Stamp(month: string, day: nat, hour: nat, minute: nat, zone: string)

  /** The same with the month and the zone looked up: a month of the year and hours east of UTC. */
  datatype Shown = Shown(month: int, day: int, hour: int, minute: int, offset: int)

  // ----- calendar

  predicate IsLeap(y: int) {
    y % 4 == 0 && (y % 100 != 0 || y % 400 == 0)
  }

  function DaysInYear(y: int): int {
    if IsLeap(y) then 366 else 365
  }

  /** Days from the start of year 1 to the start of the year, counted year by year. */
  function YearStart(y: int): int
    decreases if y < 1 then 2 - y else y
  {
    if y == 1 then 0
    else if y > 1 then YearStart(y - 1) + DaysInYear(y - 1)
    else YearStart(y + 1) - DaysInYear(y)
  }

  function DaysInMonth(y: int, m: int): int {
    if m == 2 then (if IsLeap(y) then 29 else 28)
    else if m == 4 || m == 6 || m == 9 || m == 11 then 30
    else 31
  }

  /** Days from the start of the year to the start of the month. */
  function MonthStart(y: int, m: int): int {
    if m <= 1 then 0 else MonthStart(y, m - 1) + DaysInMonth(y, m - 1)
  }

  predicate Exists(y: int, m: int, d: int) {
    1 <= m <= 12 && 1 <= d <= DaysInMonth(y, m)
  }

  function DayNumber(y: int, m: int, d: int): int {
    YearStart(y) + MonthStart(y, m) + d - 1
  }

  lemma QuotientSteps(n: int)
    ensures n / 4 == (n - 1) / 4 + (if n % 4 == 0 then 1 else 0)
    ensures n / 100 == (n - 1) / 100 + (if n % 100 == 0 then 1 else 0)
    ensures n / 400 == (n - 1) / 400 + (if n % 400 == 0 then 1 else 0)
  {
  }

  lemma CenturyRule(n: int)
    ensures n % 100 == 0 ==> n % 4 == 0
  {
    var q, r := n / 100, n % 100;
    assert n == 100 * q + r;
    if r == 0 { assert n == 4 * (25 * q); }
  }

  lemma FourCenturyRule(n: int)
    ensures n % 400 == 0 ==> n % 100 == 0
  {
    var q, r := n / 400, n % 400;
    assert n == 400 * q + r;
    if r == 0 { assert n == 100 * (4 * q); }
  }

  lemma LeapRule(n: int)
    ensures DaysInYear(n) == 365 + (if n % 4 == 0 then 1 else 0) - (if n % 100 == 0 then 1 else 0)
                                 + (if n % 400 == 0 then 1 else 0)
  {
    CenturyRule(n);
    FourCenturyRule(n);
  }

  lemma NextYear(y: int)
    ensures YearStart(y + 1) == YearStart(y) + DaysInYear(y)
  {
  }

  /** The leap years before a year, by the calendar's rule of 4, 100 and 400. */
  lemma {:induction false} YearStartClosed(y: int)
    ensures YearStart(y) == 365 * (y - 1) + (y - 1) / 4 - (y - 1) / 100 + (y - 1) / 400
    decreases if y < 1 then 2 - y else y
  {
    if y > 1 {
      YearStartClosed(y - 1);
      QuotientSteps(y - 1);
      LeapRule(y - 1);
    } else if y < 1 {
      YearStartClosed(y + 1);
      QuotientSteps(y);
      LeapRule(y);
    }
  }

  lemma {:induction false} YearsApart(y: int, z: int)
    requires y <= z
    ensures YearStart(y) + 365 * (z - y) <= YearStart(z) <= YearStart(y) + 366 * (z - y)
    decreases z - y
  {
    if y < z {
      NextYear(z - 1);
      YearsApart(y, z - 1);
    }
  }

  /** Days before the year lie close to the mean Gregorian year's. */
  lemma YearStartNear(y: int)
    ensures 146097 * (y - 1) - 1000 < 400 * YearStart(y) < 146097 * (y - 1) + 400
  {
    YearStartClosed(y);
  }

  /** The year a day number lies in. */
  function YearOf(day: int): (y: int)
    ensures YearStart(y) <= day < YearStart(y + 1)
  {
    var guess := day * 400 / 146097 + 1;
    YearStartNear(guess - 1);
    YearStartNear(guess);
    YearStartNear(guess + 1);
    YearStartNear(guess + 2);
    if day < YearStart(guess) then guess - 1
    else if day < YearStart(guess + 1) then guess
    else guess + 1
  }

  lemma YearOfUnique(day: int, y: int)
    requires YearStart(y) <= day < YearStart(y + 1)
    ensures YearOf(day) == y
  {
    var z := YearOf(day);
    if z < y { YearsApart(z + 1, y); }
    if y < z { YearsApart(y + 1, z); }
  }

  lemma {:induction false} MonthsApart(y: int, m: int, n: int)
    requires 1 <= m < n
    ensures MonthStart(y, m) + DaysInMonth(y, m) <= MonthStart(y, n)
    decreases n
  {
    if m + 1 < n { MonthsApart(y, m, n - 1); }
  }

  /** Twelve months make a year. */
  lemma YearHasMonths(y: int)
    ensures MonthStart(y, 13) == DaysInYear(y)
  {
    var leap := if IsLeap(y) then 1 else 0;
    assert MonthStart(y, 2) == 31 && MonthStart(y, 3) == 59 + leap && MonthStart(y, 4) == 90 + leap;
    assert MonthStart(y, 5) == 120 + leap && MonthStart(y, 6) == 151 + leap && MonthStart(y, 7) == 181 + leap;
    assert MonthStart(y, 8) == 212 + leap && MonthStart(y, 9) == 243 + leap && MonthStart(y, 10) == 273 + leap;
    assert MonthStart(y, 11) == 304 + leap && MonthStart(y, 12) == 334 + leap;
  }

  function MonthFrom(y: int, dayOfYear: int, m: int): (r: int)
    requires 1 <= m <= 12 && MonthStart(y, m) <= dayOfYear < MonthStart(y, 13)
    ensures m <= r <= 12 && MonthStart(y, r) <= dayOfYear < MonthStart(y, r + 1)
    decreases 12 - m
  {
    if m == 12 || dayOfYear < MonthStart(y, m + 1) then m else MonthFrom(y, dayOfYear, m + 1)
  }

  datatype Date = Date(year: int, month: int, day: int)

  /** The date of a day number. */
  function DateOf(n: int): (date: Date)
    ensures Exists(date.year, date.month, date.day) && DayNumber(date.year, date.month, date.day) == n
  {
    var y := YearOf(n);
    var dayOfYear := n - YearStart(y);
    NextYear(y);
    YearHasMonths(y);
    var m := MonthFrom(y, dayOfYear, 1);
    Date(y, m, dayOfYear - MonthStart(y, m) + 1)
  }

  lemma DayInYear(y: int, m: int, d: int)
    requires Exists(y, m, d)
    ensures YearStart(y) <= DayNumber(y, m, d) < YearStart(y + 1)
  {
    MonthsApart(y, m, 13);
    YearHasMonths(y);
    NextYear(y);
    if m > 1 { MonthsApart(y, 1, m); }
  }

  /** No two dates have the same day number. */
  lemma DateUnique(y: int, m: int, d: int)
    requires Exists(y, m, d)
    ensures DateOf(DayNumber(y, m, d)) == Date(y, m, d)
  {
    var n := DayNumber(y, m, d);
    DayInYear(y, m, d);
    YearOfUnique(n, y);
    var date := DateOf(n);
    assert date.year == y;
    if date.month < m { MonthsApart(y, date.month, m); }
    if m < date.month { MonthsApart(y, m, date.month); }
  }

  // ----- resolving what a stamp shows

  predicate Sensible(f: Shown, y: int) {
    Exists(y, f.month, f.day) && 0 <= f.hour < 24 && 0 <= f.minute < 60
  }

  /** The instant of a local day, hour and minute. */
  function At(day: int, hour: int, minute: int, offset: int): Time {
    day * DAY + hour * HOUR + minute * MINUTE - offset * HOUR
  }

  /** The instant shown, in the given year, in microseconds since the start of year 1 UTC. */
  function Instant(f: Shown, y: int): Time {
    At(DayNumber(y, f.month, f.day), f.hour, f.minute, f.offset)
  }

  function Year(t: Time): int {
    YearOf(t / DAY)
  }

  function FreshEnough(t: Time, anchor: Time): Option<Time> {
    if t < anchor - 400 * DAY then None else Some(t)
  }

  /** This year, or if that is later than the revision by more than a minute, the year before. */
  function Resolve(f: Shown, anchor: Time): Option<Time> {
    if !Sensible(f, Year(anchor)) then None
    else if Instant(f, Year(anchor)) <= anchor + MINUTE then FreshEnough(Instant(f, Year(anchor)), anchor)
    else if !Sensible(f, Year(anchor) - 1) then None
    else FreshEnough(Instant(f, Year(anchor) - 1), anchor)
  }

  // ----- displaying an instant

  function Local(t: Time, offset: int): Time { t + offset * HOUR }

  function Hour(local: Time): nat { local % DAY / HOUR }

  function Minute(local: Time): nat { local % DAY % HOUR / MINUTE }

  /** What a status page shows of an instant in a zone. */
  function Display(t: Time, offset: int): Shown {
    var date := DateOf(Local(t, offset) / DAY);
    Shown(date.month, date.day, Hour(Local(t, offset)), Minute(Local(t, offset)), offset)
  }

  function LocalYear(t: Time, offset: int): int {
    Year(Local(t, offset))
  }

  predicate Listed(offset: int) {
    -8 <= offset <= 13
  }

  /** A time built from a day, hour and minute has that day, hour and minute. */
  lemma JoinTime(day: int, hour: int, minute: int, offset: int)
    requires 0 <= hour < 24 && 0 <= minute < 60
    ensures var t := At(day, hour, minute, offset);
      var local := t + offset * HOUR;
      local / DAY == day && Hour(local) == hour && Minute(local) == minute && t % MINUTE == 0
  {
    var local := day * DAY + hour * HOUR + minute * MINUTE;
    var tod := hour * HOUR + minute * MINUTE;
    assert 0 <= tod < DAY;
    assert local / DAY == day && local % DAY == tod;
    assert tod / HOUR == hour && tod % HOUR == minute * MINUTE;
    assert At(day, hour, minute, offset) == (day * 1440 + hour * 60 + minute - offset * 60) * MINUTE;
  }

  /** Splitting a time into day, hour and minute loses nothing but the seconds. */
  lemma SplitTime(t: Time, offset: int)
    requires t % MINUTE == 0
    ensures var local := t + offset * HOUR;
      Hour(local) < 24 && Minute(local) < 60 && At(local / DAY, Hour(local), Minute(local), offset) == t
  {
    var minutes := t / MINUTE + offset * 60;
    var day, hour, minute := minutes / 1440, minutes % 1440 / 60, minutes % 1440 % 60;
    assert At(day, hour, minute, offset) == t;
    JoinTime(day, hour, minute, offset);
  }

  lemma AtInDay(day: int, hour: int, minute: int, offset: int)
    requires 0 <= hour < 24 && 0 <= minute < 60 && -8 <= offset <= 13
    ensures day * DAY - 13 * HOUR <= At(day, hour, minute, offset) < day * DAY + 32 * HOUR
  {
  }

  lemma YearOfDate(y: int, m: int, d: int)
    requires Exists(y, m, d)
    ensures YearOf(DayNumber(y, m, d)) == y
  {
    DayInYear(y, m, d);
    YearOfUnique(DayNumber(y, m, d), y);
  }

  /** A displayed instant, read in its own local year, is the instant. */
  lemma InstantOfDisplay(t: Time, offset: int)
    requires t % MINUTE == 0
    ensures var f := Display(t, offset);
      Sensible(f, LocalYear(t, offset)) && Instant(f, LocalYear(t, offset)) == t
  {
    var date := DateOf(Local(t, offset) / DAY);
    SplitTime(t, offset);
    YearOfDate(date.year, date.month, date.day);
  }

  /** Whatever year a stamp is read in, that instant displays as the stamp and lies in that local year. */
  lemma DisplayOfInstant(f: Shown, y: int)
    requires Sensible(f, y)
    ensures var t := Instant(f, y);
      Display(t, f.offset) == f && LocalYear(t, f.offset) == y && t % MINUTE == 0
  {
    JoinTime(DayNumber(y, f.month, f.day), f.hour, f.minute, f.offset);
    DateUnique(y, f.month, f.day);
    YearOfDate(y, f.month, f.day);
  }

  /** Read in a year, a stamp falls within that year, give or take the zone. */
  lemma InstantInYear(f: Shown, y: int)
    requires Sensible(f, y) && Listed(f.offset)
    ensures YearStart(y) * DAY - 13 * HOUR <= Instant(f, y) < YearStart(y + 1) * DAY + 8 * HOUR
  {
    DayInYear(y, f.month, f.day);
    AtInDay(DayNumber(y, f.month, f.day), f.hour, f.minute, f.offset);
  }

  lemma MonthStartLeap(y: int, m: int)
    requires 1 <= m <= 12
    ensures MonthStart(2001, m) <= MonthStart(y, m) <= MonthStart(2001, m) + 1
  {
    if m > 1 { MonthStartLeap(y, m - 1); }
    assert m <= 2 ==> MonthStart(y, m) == MonthStart(2001, m);
  }

  /** The same date a year apart. */
  lemma InstantYearBefore(f: Shown, y: int)
    requires 1 <= f.month <= 12
    ensures Instant(f, y) - 367 * DAY <= Instant(f, y - 1) <= Instant(f, y) - 364 * DAY
  {
    NextYear(y - 1);
    MonthStartLeap(y, f.month);
    MonthStartLeap(y - 1, f.month);
  }

  /** The 400-day limit never rejects what the year rules accept. */
  lemma AgeLimitNeverBinds(f: Shown, anchor: Time)
    requires Sensible(f, Year(anchor)) && Listed(f.offset)
    ensures Resolve(f, anchor)
         == if Instant(f, Year(anchor)) <= anchor + MINUTE then Some(Instant(f, Year(anchor)))
            else if Sensible(f, Year(anchor) - 1) then Some(Instant(f, Year(anchor) - 1))
            else None
  {
    InstantInYear(f, Year(anchor));
    NextYear(Year(anchor));
    InstantYearBefore(f, Year(anchor));
  }

  // ----- the tables

  const MONTH_NAMES := ["Jan", "Feb", "Mar", "Apr", "May", "Jun", "Jul", "Aug", "Sep", "Oct", "Nov", "Dec"]

  function MonthNumber(name: string): (m: Option<int>)
    ensures m.Some? ==> 1 <= m.value <= 12
  {
    if name == "Jan" then Some(1) else if name == "Feb" then Some(2) else if name == "Mar" then Some(3)
    else if name == "Apr" then Some(4) else if name == "May" then Some(5) else if name == "Jun" then Some(6)
    else if name == "Jul" then Some(7) else if name == "Aug" then Some(8) else if name == "Sep" then Some(9)
    else if name == "Oct" then Some(10) else if name == "Nov" then Some(11) else if name == "Dec" then Some(12)
    else None
  }

  /** Hours east of UTC of the zones that mean one offset worldwide. */
  function Offset(zone: string): (offset: Option<int>)
    ensures offset.Some? ==> Listed(offset.value)
  {
    if zone in {"UTC", "GMT", "UT", "Z", "WET"} then Some(0)
    else if zone in {"CET", "WEST"} then Some(1)
    else if zone in {"CEST", "EET"} then Some(2)
    else if zone in {"EEST", "MSK"} then Some(3)
    else if zone in {"HKT", "SGT", "AWST"} then Some(8)
    else if zone in {"JST", "KST"} then Some(9)
    else if zone == "AEST" then Some(10)
    else if zone == "AEDT" then Some(11)
    else if zone == "NZST" then Some(12)
    else if zone == "NZDT" then Some(13)
    else if zone in {"BRT", "ART"} then Some(-3)
    else if zone == "EDT" then Some(-4)
    else if zone in {"EST", "CDT"} then Some(-5)
    else if zone == "MDT" then Some(-6)
    else if zone in {"MST", "PDT"} then Some(-7)
    else if zone == "PST" then Some(-8)
    else None
  }

  lemma MonthNamesMatch(m: int)
    requires 1 <= m <= 12
    ensures MonthNumber(MONTH_NAMES[m - 1]) == Some(m)
  {
  }

  lemma MonthNumberNames(name: string)
    ensures MonthNumber(name).Some? ==> MONTH_NAMES[MonthNumber(name).value - 1] == name
  {
  }

  function ParseWhen(s: Stamp, anchor: Time): Option<Time> {
    if MonthNumber(s.month).None? || Offset(s.zone).None? then None
    else Resolve(Looked(s), anchor)
  }

  function Looked(s: Stamp): Shown
    requires MonthNumber(s.month).Some? && Offset(s.zone).Some?
  {
    Shown(MonthNumber(s.month).value, s.day, s.hour, s.minute, Offset(s.zone).value)
  }

  /** The text of what is shown. */
  function Written(f: Shown, zone: string): Stamp
    requires 1 <= f.month <= 12 && f.day >= 0 && f.hour >= 0 && f.minute >= 0
  {
    Stamp(MONTH_NAMES[f.month - 1], f.day, f.hour, f.minute, zone)
  }

  function Render(t: Time, zone: string): Stamp
    requires Offset(zone).Some?
  {
    Written(Display(t, Offset(zone).value), zone)
  }

  lemma LookedOfRender(t: Time, zone: string)
    requires Offset(zone).Some?
    ensures var s := Render(t, zone);
      MonthNumber(s.month).Some? && s.zone == zone && Looked(s) == Display(t, Offset(zone).value)
  {
    MonthNamesMatch(Display(t, Offset(zone).value).month);
  }

  // ----- theorems

  lemma ResolvedDisplays(f: Shown, anchor: Time)
    requires Listed(f.offset) && Resolve(f, anchor).Some?
    ensures var t := Resolve(f, anchor).value;
      Display(t, f.offset) == f && t % MINUTE == 0
      && Year(anchor) - 1 <= LocalYear(t, f.offset) <= Year(anchor)
  {
    AgeLimitNeverBinds(f, anchor);
    DisplayOfInstant(f, Year(anchor));
    if Sensible(f, Year(anchor) - 1) { DisplayOfInstant(f, Year(anchor) - 1); }
  }

  /** A resolved stamp is never an invented time: in its zone it displays as the stamp, this year or the last. */
  lemma ParsedShowsTheStamp(s: Stamp, anchor: Time)
    requires ParseWhen(s, anchor).Some?
    ensures var t := ParseWhen(s, anchor).value;
      Offset(s.zone).Some? && Render(t, s.zone) == s && t % MINUTE == 0
      && Year(anchor) - 1 <= LocalYear(t, Offset(s.zone).value) <= Year(anchor)
  {
    ResolvedDisplays(Looked(s), anchor);
    MonthNumberNames(s.month);
  }

  /** Of two readings of a stamp, at most the one in the instant's own local year is the instant. */
  lemma OwnYear(t: Time, offset: int, y: int)
    requires t % MINUTE == 0
    ensures var f := Display(t, offset);
      Sensible(f, y) ==> (Instant(f, y) == t <==> LocalYear(t, offset) == y)
    ensures LocalYear(t, offset) == y ==> Sensible(Display(t, offset), y)
  {
    var f := Display(t, offset);
    InstantOfDisplay(t, offset);
    if Sensible(f, y) { DisplayOfInstant(f, y); }
  }

  /** The years a displayed instant can be resolved to. */
  lemma ResolvedYears(t: Time, offset: int, anchor: Time)
    requires t % MINUTE == 0 && Listed(offset)
    ensures var f := Display(t, offset);
      var y := Year(anchor);
      Resolve(f, anchor) == Some(t) <==>
        || (LocalYear(t, offset) == y && t <= anchor + MINUTE)
        || (LocalYear(t, offset) == y - 1 && Sensible(f, y) && Instant(f, y) > anchor + MINUTE)
  {
    var f, y := Display(t, offset), Year(anchor);
    OwnYear(t, offset, y);
    OwnYear(t, offset, y - 1);
    if Sensible(f, y) {
      AgeLimitNeverBinds(f, anchor);
    } else {
      assert Resolve(f, anchor) == None;
    }
  }

  /**
     Exactly which instants survive being shown without their year: those of
     the anchor's UTC year that are at most a minute after the anchor, and those of
     the year before whose date also exists this year and is still to come.
   */
  lemma RoundTrip(t: Time, zone: string, anchor: Time)
    requires Offset(zone).Some? && t % MINUTE == 0
    ensures var offset := Offset(zone).value;
      var f, y := Display(t, offset), Year(anchor);
      ParseWhen(Render(t, zone), anchor) == Some(t) <==>
        || (LocalYear(t, offset) == y && t <= anchor + MINUTE)
        || (LocalYear(t, offset) == y - 1 && Sensible(f, y) && Instant(f, y) > anchor + MINUTE)
  {
    LookedOfRender(t, zone);
    ResolvedYears(t, Offset(zone).value, anchor);
  }

  lemma FirstOfYear(y: int, m: int, d: int)
    requires Exists(y, m, d) && DayNumber(y, m, d) <= YearStart(y)
    ensures m == 1 && d == 1
  {
    if m > 1 { MonthsApart(y, 1, m); }
  }

  lemma DayAfter(t: Time, offset: int, anchor: Time)
    requires Listed(offset) && t <= anchor + MINUTE
    ensures Local(t, offset) / DAY <= anchor / DAY + 1
  {
    assert Local(t, offset) < (anchor / DAY + 2) * DAY;
  }

  lemma DisplayedAhead(t: Time, offset: int, anchor: Time)
    requires Listed(offset) && t % MINUTE == 0 && t <= anchor + MINUTE
    requires LocalYear(t, offset) == Year(anchor) + 1
    ensures var f := Display(t, offset);
      f.month == 1 && f.day == 1 && Instant(f, Year(anchor) + 1) == t
  {
    var date := DateOf(Local(t, offset) / DAY);
    InstantOfDisplay(t, offset);
    YearOfDate(date.year, date.month, date.day);
    DayAfter(t, offset, anchor);
    FirstOfYear(Year(anchor) + 1, date.month, date.day);
  }

  lemma NewYearApart(f: Shown, y: int)
    requires f.month == 1 && f.day == 1
    ensures Instant(f, y) == Instant(f, y + 1) - DaysInYear(y) * DAY
  {
    NextYear(y);
    assert DayNumber(y + 1, 1, 1) == DayNumber(y, 1, 1) + DaysInYear(y);
  }

  /**
     East of UTC, and in UTC itself in the last minute of a year, the local year
     can be ahead of the anchor's: such a stamp, on 1 January, is resolved a
     whole year early.
   */
  lemma NewYearAheadOfUtcIsAYearEarly(t: Time, zone: string, anchor: Time)
    requires Offset(zone).Some? && t % MINUTE == 0 && t <= anchor + MINUTE
    requires LocalYear(t, Offset(zone).value) == Year(anchor) + 1
    ensures ParseWhen(Render(t, zone), anchor) == Some(t - DaysInYear(Year(anchor)) * DAY)
    ensures Render(t, zone).month == "Jan" && Render(t, zone).day == 1
  {
    var offset := Offset(zone).value;
    LookedOfRender(t, zone);
    ResolvedAYearEarly(t, offset, anchor);
  }

  lemma ResolvedAYearEarly(t: Time, offset: int, anchor: Time)
    requires Listed(offset) && t % MINUTE == 0 && t <= anchor + MINUTE
    requires LocalYear(t, offset) == Year(anchor) + 1
    ensures Display(t, offset).month == 1 && Display(t, offset).day == 1
    ensures Resolve(Display(t, offset), anchor) == Some(t - DaysInYear(Year(anchor)) * DAY)
  {
    var f := Display(t, offset);
    DisplayedAhead(t, offset, anchor);
    NewYearApart(f, Year(anchor));
    assert Sensible(f, Year(anchor));
    AgeLimitNeverBinds(f, anchor);
  }

  lemma LeapYearsApart(y: int)
    requires IsLeap(y - 1)
    ensures !IsLeap(y)
  {
    assert y % 4 == 1;
  }

  lemma LeapDayRefused(t: Time, offset: int, anchor: Time)
    requires t % MINUTE == 0 && LocalYear(t, offset) == Year(anchor) - 1
    requires Display(t, offset).month == 2 && Display(t, offset).day == 29
    ensures Resolve(Display(t, offset), anchor) == None
  {
    InstantOfDisplay(t, offset);
    LeapYearsApart(Year(anchor));
  }

  /** A 29 February of last year is refused for any anchor of this year: the year tried first has no such date. */
  lemma LeapDayOfLastYearIsRefused(t: Time, zone: string, anchor: Time)
    requires Offset(zone).Some? && t % MINUTE == 0 && LocalYear(t, Offset(zone).value) == Year(anchor) - 1
    requires Display(t, Offset(zone).value).month == 2 && Display(t, Offset(zone).value).day == 29
    ensures ParseWhen(Render(t, zone), anchor) == None
  {
    LookedOfRender(t, zone);
    LeapDayRefused(t, Offset(zone).value, anchor);
  }
}
