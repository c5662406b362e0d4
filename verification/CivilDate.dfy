/**
 HTTP dates: the closed-form conversion of a day count to a Gregorian date, against the calendar that goes
 one day at a time, and the IMF-fixdate text against a parser of section 7.1.1.1 of RFC 7231.
 */
module CivilDate {
  import opened Common
  import opened Text

  /** Division as the source's signed integers do it, rounding toward zero. */
  function TruncatedDiv(a: int, b: int): int
    requires b > 0
  {
    if a >= 0 then a / b else -(-a / b)
  }

  datatype Date = Date(year: int, month: int, day: int)

  function CivilFromDays(days: int): Date {
    var z := days + 719_468;
    var era := TruncatedDiv(if z >= 0 then z else z - 146_096, 146_097);
    var doe := z - era * 146_097;
    var yoe := YearOfEra(doe);
    var doy := doe - (365 * yoe + yoe / 4 - yoe / 100);
    var mp := (5 * doy + 2) / 153;
    var d := doy - (153 * mp + 2) / 5 + 1;
    var m := if mp < 10 then mp + 3 else mp - 9;
    Date(if m <= 2 then yoe + era * 400 + 1 else yoe + era * 400, m, d)
  }

  function YearOfEra(doe: int): int {
    (doe - doe / 1460 + doe / 36_524 - doe / 146_096) / 365
  }

  // ---------------------------------------------------------------------------------------------
  // The calendar, one day at a time
  // ---------------------------------------------------------------------------------------------

  predicate IsLeap(year: int) {
    year % 4 == 0 && (year % 100 != 0 || year % 400 == 0)
  }

  function DaysInMonth(year: int, month: int): int {
    if month == 2 then (if IsLeap(year) then 29 else 28)
    else if month == 4 || month == 6 || month == 9 || month == 11 then 30
    else 31
  }

  predicate ValidDate(d: Date) {
    1 <= d.month <= 12 && 1 <= d.day <= DaysInMonth(d.year, d.month)
  }

  function NextDay(d: Date): Date {
    if d.day < DaysInMonth(d.year, d.month) then d.(day := d.day + 1)
    else if d.month < 12 then Date(d.year, d.month + 1, 1)
    else Date(d.year + 1, 1, 1)
  }

  // ---------------------------------------------------------------------------------------------
  // The inverse, and the bounds
  // ---------------------------------------------------------------------------------------------

  /** The first day of a year of the era, counted from March. */
  function YearStart(yoe: int): int {
    365 * yoe + yoe / 4 - yoe / 100
  }

  /** The first day of a month of the year, counted from March. */
  function MonthStart(mp: int): int {
    (153 * mp + 2) / 5
  }

  function DaysFromCivil(d: Date): int {
    var y := if d.month <= 2 then d.year - 1 else d.year;
    var mp := if d.month > 2 then d.month - 3 else d.month + 9;
    y / 400 * 146_097 + YearStart(y % 400) + MonthStart(mp) + d.day - 1 - 719_468
  }

  /** The truncating division with its correction is the floor. */
  lemma EraIsFloor(z: int)
    ensures TruncatedDiv(if z >= 0 then z else z - 146_096, 146_097) == z / 146_097
  {
  }

  /** Within a century `c` of the era, day `r` of it falls in year `k` of it. */
  lemma YearOfCentury(c: int, r: int)
    requires 0 <= c <= 3 && 0 <= r < 36_524
    ensures var k := (r - (r + 24 * c) / 1460) / 365;
            0 <= k <= 99 && 365 * k + k / 4 <= r && (r < 365 * (k + 1) + (k + 1) / 4 || k == 99)
  {
    var q, t := (r + 24 * c) / 1460, (r + 24 * c) % 1460;
    assert r == 1460 * q + t - 24 * c && 0 <= q <= 25;
    var u := t - q - 24 * c;
    var e := if u < 0 then -1 else if u < 365 then 0 else if u < 730 then 1 else if u < 1095 then 2 else 3;
    assert 365 * e <= u && (u < 365 * (e + 1) || e == 3);
    QuotientIs(r - q, 365, 4 * q + e);
    var k := 4 * q + e;
    if e < 0 {
      QuotientIs(k, 4, q - 1);
      QuotientIs(k + 1, 4, q);
    } else {
      QuotientIs(k, 4, q);
      QuotientIs(k + 1, 4, if e == 3 then q + 1 else q);
    }
  }

  lemma QuotientIs(a: int, b: int, q: int)
    requires b == 365 || b == 4 || b == 1460 || b == 100
    requires q * b <= a < q * b + b
    ensures a / b == q
  {
    if b == 365 {
    } else if b == 4 {
    } else if b == 1460 {
    }
  }

  /** The closed form takes the century and the year of the century apart. */
  lemma YearOfEraInCentury(c: int, r: int)
    requires 0 <= c <= 3 && 0 <= r < 36_524
    ensures YearOfEra(36_524 * c + r) == 100 * c + (r - (r + 24 * c) / 1460) / 365
  {
    var q, t := (r + 24 * c) / 1460, (r + 24 * c) % 1460;
    assert r + 24 * c == 1460 * q + t;
    var k, s := (r - q) / 365, (r - q) % 365;
    assert r - q == 365 * k + s;
    var doe := 36_524 * c + r;
    QuotientIs(doe, 1460, 25 * c + q);
    assert doe / 36_524 == c && doe / 146_096 == 0;
    QuotientIs(doe - (25 * c + q) + c, 365, 100 * c + k);
  }

  /** The year the closed form picks is the one whose days contain the day: the bounds on `yoe` and `doy`. */
  lemma YearOfEraBounds(doe: int)
    requires 0 <= doe < 146_097
    ensures var yoe := YearOfEra(doe);
            0 <= yoe < 400 && YearStart(yoe) <= doe && (doe < YearStart(yoe + 1) || yoe == 399)
  {
    if doe < 146_096 {
      var c, r := doe / 36_524, doe % 36_524;
      YearOfEraInCentury(c, r);
      YearOfCentury(c, r);
      var k := (r - (r + 24 * c) / 1460) / 365;
      CenturyStart(c, k);
      CenturyStart(c, k + 1);
      hide YearOfEra, YearStart;
    }
  }

  lemma CenturyStart(c: int, k: int)
    requires 0 <= c <= 3 && 0 <= k <= 100
    ensures k < 100 ==> YearStart(100 * c + k) == 36_524 * c + 365 * k + k / 4
    ensures k == 100 ==> YearStart(100 * c + k) == 36_524 * (c + 1)
  {
    var m := if k == 100 then c + 1 else c;
    QuotientIs(100 * c + k, 100, m);
    assert (100 * c + k) / 4 == 25 * c + k / 4;
  }

  lemma MonthBounds(doy: int)
    requires 0 <= doy <= 365
    ensures var mp := (5 * doy + 2) / 153;
            0 <= mp <= 11 && MonthStart(mp) <= doy < MonthStart(mp + 1)
  {
  }

  /** Days of a March-based year of the era: one more before a leap February. */
  lemma YearLength(era: int, yoe: int)
    requires 0 <= yoe < 400
    ensures yoe < 399 ==> YearStart(yoe + 1) == YearStart(yoe) + (if IsLeap(era * 400 + yoe + 1) then 366 else 365)
    ensures yoe == 399 ==> IsLeap(era * 400 + yoe + 1)
    ensures 0 <= YearStart(yoe) <= 145_731 && YearStart(399) == 145_731
  {
    LeapInEra(era, yoe + 1);
    Carry(yoe, 4);
    Carry(yoe, 100);
    YearStartMonotone(yoe, 399);
    hide IsLeap;
  }

  lemma LeapInEra(era: int, n: int)
    requires 0 < n <= 400
    ensures IsLeap(era * 400 + n) <==> n % 4 == 0 && (n % 100 != 0 || n == 400)
  {
    Remainder4(era * 100, n);
    Remainder100(era * 4, n);
    Remainder400(era, n);
  }

  lemma Remainder4(k: int, n: nat)
    ensures (k * 4 + n) % 4 == n % 4
  {
    assert k * 4 + n == (k + n / 4) * 4 + n % 4;
  }

  lemma Remainder100(k: int, n: nat)
    ensures (k * 100 + n) % 100 == n % 100
  {
    assert k * 100 + n == (k + n / 100) * 100 + n % 100;
  }

  lemma Remainder400(k: int, n: nat)
    ensures (k * 400 + n) % 400 == n % 400
  {
    assert k * 400 + n == (k + n / 400) * 400 + n % 400;
  }

  lemma Carry(n: int, b: int)
    requires n >= 0 && (b == 4 || b == 100)
    ensures (n + 1) / b == n / b + (if (n + 1) % b == 0 then 1 else 0)
  {
    if b == 4 {
    } else {
    }
  }

  /** The pieces of a day count: era, year of the era from March, and day of that year. */
  datatype Split = Split(era: int, yoe: int, doy: int)

  function SplitDays(days: int): Split {
    var z := days + 719_468;
    var yoe := YearOfEra(z % 146_097);
    Split(z / 146_097, yoe, z % 146_097 - YearStart(yoe))
  }

  /** The month and day of a day of the March-based year. */
  function DateOf(p: Split): Date {
    var mp := (5 * p.doy + 2) / 153;
    var m := if mp < 10 then mp + 3 else mp - 9;
    Date(p.era * 400 + p.yoe + (if m <= 2 then 1 else 0), m, p.doy - MonthStart(mp) + 1)
  }

  lemma CivilIsDateOfSplit(days: int)
    ensures CivilFromDays(days) == DateOf(SplitDays(days))
  {
    var z := days + 719_468;
    EraIsFloor(z);
    hide YearOfEra, TruncatedDiv;
  }

  predicate ValidSplit(p: Split) {
    0 <= p.yoe < 400 && 0 <= p.doy < (if IsLeap(p.era * 400 + p.yoe + 1) then 366 else 365)
  }

  lemma SplitDaysValid(days: int)
    ensures ValidSplit(SplitDays(days))
  {
    var z := days + 719_468;
    YearOfEraBounds(z % 146_097);
    YearLength(z / 146_097, YearOfEra(z % 146_097));
    hide YearOfEra, YearStart, IsLeap;
  }

  /** The day of the year is in the month found for it, and the date is a real one. */
  lemma DateOfValid(p: Split)
    requires ValidSplit(p)
    ensures ValidDate(DateOf(p))
  {
    MonthBounds(p.doy);
    hide IsLeap;
    var mp := (5 * p.doy + 2) / 153;
    MonthTable(mp);
  }

  lemma MonthTable(mp: int)
    requires 0 <= mp <= 11
    ensures MonthStart(mp + 1) - MonthStart(mp)
         == (if mp == 1 || mp == 3 || mp == 6 || mp == 8 || mp == 11 then 30 else 31)
    ensures MonthStart(11) == 337
  {
  }

  lemma DaysOfDateOf(p: Split)
    requires ValidSplit(p)
    ensures DaysFromCivil(DateOf(p)) == p.era * 146_097 + YearStart(p.yoe) + p.doy - 719_468
  {
    MonthBounds(p.doy);
    hide YearStart, IsLeap, MonthStart;
    var y := p.era * 400 + p.yoe;
    assert y / 400 == p.era && y % 400 == p.yoe;
  }

  /** The closed form is inverted by `DaysFromCivil`, and always yields a date of the calendar. */
  lemma DaysOfCivil(days: int)
    ensures ValidDate(CivilFromDays(days)) && DaysFromCivil(CivilFromDays(days)) == days
  {
    CivilIsDateOfSplit(days);
    SplitDaysValid(days);
    DateOfValid(SplitDays(days));
    DaysOfDateOf(SplitDays(days));
    hide CivilFromDays, DaysFromCivil, YearOfEra, YearStart, DateOf, ValidSplit, ValidDate;
  }

  /** Consecutive dates are consecutive days. */
  lemma DaysOfNextDay(d: Date)
    requires ValidDate(d)
    ensures ValidDate(NextDay(d)) && DaysFromCivil(NextDay(d)) == DaysFromCivil(d) + 1
  {
    if d.day < DaysInMonth(d.year, d.month) {
    } else if d.month == 2 {
      FebruaryEnds(d.year);
    } else if d.month == 12 {
      assert MonthStart(10) == MonthStart(9) + 31;
    } else if d.month == 1 {
      assert MonthStart(11) == MonthStart(10) + 31;
    } else {
      hide YearStart, IsLeap;
      MonthTable(d.month - 3);
    }
  }

  lemma FebruaryEnds(year: int)
    ensures (year - 1) / 400 * 146_097 + YearStart((year - 1) % 400) + (if IsLeap(year) then 366 else 365)
         == year / 400 * 146_097 + YearStart(year % 400)
  {
    var era, yoe := (year - 1) / 400, (year - 1) % 400;
    assert year == era * 400 + yoe + 1;
    YearLength(era, yoe);
    hide YearStart, IsLeap;
    if yoe < 399 {
      assert year / 400 == era && year % 400 == yoe + 1;
    } else {
      assert year / 400 == era + 1 && year % 400 == 0;
      YearZero();
    }
  }

  lemma YearZero()
    ensures YearStart(0) == 0
  {
  }

  /** Within a month, dates are ordered by day; across months, by day count: so no two dates share a day. */
  lemma DaysInjective(a: Date, b: Date)
    requires ValidDate(a) && ValidDate(b) && DaysFromCivil(a) == DaysFromCivil(b)
    ensures a == b
  {
    SplitOf(a);
    SplitOf(b);
    var p, q := DateSplit(a), DateSplit(b);
    SplitUnique(p, q);
    hide DaysFromCivil, DateSplit, DateOf, ValidDate, ValidSplit, YearStart;
  }

  function DateSplit(d: Date): Split {
    var y := if d.month <= 2 then d.year - 1 else d.year;
    Split(y / 400, y % 400, MonthStart(if d.month > 2 then d.month - 3 else d.month + 9) + d.day - 1)
  }

  lemma SplitOf(d: Date)
    requires ValidDate(d)
    ensures ValidSplit(DateSplit(d)) && DateOf(DateSplit(d)) == d
    ensures DaysFromCivil(d)
         == DateSplit(d).era * 146_097 + YearStart(DateSplit(d).yoe) + DateSplit(d).doy - 719_468
  {
    hide IsLeap, YearStart;
    var mp := if d.month > 2 then d.month - 3 else d.month + 9;
    var doy := MonthStart(mp) + d.day - 1;
    MonthTable(mp);
    MonthOfDay(mp, doy);
    var y := if d.month <= 2 then d.year - 1 else d.year;
    assert y == y / 400 * 400 + y % 400;
    if mp < 11 {
      assert doy < 337;
    }
  }

  /** A day of the year determines its month. */
  lemma MonthOfDay(mp: int, doy: int)
    requires 0 <= mp <= 11 && MonthStart(mp) <= doy < MonthStart(mp + 1)
    ensures (5 * doy + 2) / 153 == mp
    ensures mp < 11 ==> doy < 337
  {
  }

  lemma SplitUnique(p: Split, q: Split)
    requires ValidSplit(p) && ValidSplit(q)
    requires p.era * 146_097 + YearStart(p.yoe) + p.doy == q.era * 146_097 + YearStart(q.yoe) + q.doy
    ensures p == q
  {
    YearLength(p.era, p.yoe);
    YearLength(q.era, q.yoe);
    hide IsLeap, YearStart;
    assert p.era == q.era;
    if p.yoe < q.yoe {
      YearStartMonotone(p.yoe + 1, q.yoe);
    } else if q.yoe < p.yoe {
      YearStartMonotone(q.yoe + 1, p.yoe);
    }
  }

  lemma YearStartMonotone(a: int, b: int)
    requires 0 <= a <= b
    ensures YearStart(a) <= YearStart(b)
  {
  }

  /** Day 0 is 1 January 1970. */
  lemma Epoch()
    ensures CivilFromDays(0) == Date(1970, 1, 1)
  {
  }

  /**
   The closed form commutes with the calendar: the day after is the next date, for every day count,
   before the epoch as well as after it.
   */
  lemma CivilOfNextDay(days: int)
    ensures CivilFromDays(days + 1) == NextDay(CivilFromDays(days))
  {
    hide CivilFromDays, DaysFromCivil, ValidDate, NextDay;
    DaysOfCivil(days);
    DaysOfCivil(days + 1);
    DaysOfNextDay(CivilFromDays(days));
    DaysInjective(CivilFromDays(days + 1), NextDay(CivilFromDays(days)));
  }

  /** And it reaches every date of the calendar: the inverse is exact on both sides. */
  lemma CivilOfDays(d: Date)
    requires ValidDate(d)
    ensures CivilFromDays(DaysFromCivil(d)) == d
  {
    hide CivilFromDays, DaysFromCivil, ValidDate;
    DaysOfCivil(DaysFromCivil(d));
    DaysInjective(CivilFromDays(DaysFromCivil(d)), d);
  }

  // ---------------------------------------------------------------------------------------------
  // The HTTP date
  // ---------------------------------------------------------------------------------------------

  const WEEKDAYS: seq<string> := ["Thu", "Fri", "Sat", "Sun", "Mon", "Tue", "Wed"]

  const MONTHS: seq<string> :=
    ["Jan", "Feb", "Mar", "Apr", "May", "Jun", "Jul", "Aug", "Sep", "Oct", "Nov", "Dec"]

  /** A number in decimal, padded with zeros to a width. */
  function Padded(n: nat, width: nat): string {
    Zeros(if |Decimal(n)| < width then width - |Decimal(n)| else 0) + Decimal(n)
  }

  /** Weekday, day and month with their separators: always twelve characters. */
  function DayPart(days: nat): string {
    DaysOfCivil(days);
    var date := CivilFromDays(days);
    WEEKDAYS[days % 7] + ", " + Padded(date.day, 2) + " " + MONTHS[date.month - 1] + " "
  }

  /** The time of day with the zone: always thirteen characters. */
  function TimePart(timeOfDay: nat): string {
    " " + Padded(timeOfDay / 3600, 2) + ":" + Padded(timeOfDay % 3600 / 60, 2) + ":" + Padded(timeOfDay % 60, 2)
    + " GMT"
  }

  /** The IMF-fixdate of a time in nanoseconds from the epoch; times before the epoch are the epoch. */
  function FormatHttpDate(nanos: int): string {
    var secs := SecondsOf(nanos);
    YearOfDay(secs / 86_400);
    DayPart(secs / 86_400) + Padded(CivilFromDays(secs / 86_400).year, 4) + TimePart(secs % 86_400)
  }

  function SecondsOf(nanos: int): nat {
    if nanos < 0 then 0 else nanos / 1_000_000_000
  }

  lemma YearOfDay(days: int)
    requires days >= 0
    ensures CivilFromDays(days).year >= 1970
  {
    hide CivilFromDays;
    DaysOfCivil(days);
    if CivilFromDays(days).year < 1970 {
      YearBounds(CivilFromDays(days));
    }
  }

  lemma YearBounds(d: Date)
    requires ValidDate(d) && d.year < 1970
    ensures DaysFromCivil(d) < 0
  {
    SplitOf(d);
    var p := DateSplit(d);
    YearLength(p.era, p.yoe);
    assert p.era * 400 + p.yoe <= 1969;
    assert p.era <= 4;
    if p.era == 4 {
      YearStartMonotone(p.yoe, 369);
    }
  }

  // ---------------------------------------------------------------------------------------------
  // Reading an HTTP date: the names are those of section 7.1.1.1 of RFC 7231
  // ---------------------------------------------------------------------------------------------

  datatype Weekday = Monday | Tuesday | Wednesday | Thursday | Friday | Saturday | Sunday

  function NextWeekday(w: Weekday): Weekday {
    match w
    case Monday => Tuesday
    case Tuesday => Wednesday
    case Wednesday => Thursday
    case Thursday => Friday
    case Friday => Saturday
    case Saturday => Sunday
    case Sunday => Monday
  }

  function PreviousWeekday(w: Weekday): (v: Weekday)
    ensures NextWeekday(v) == w
  {
    match w
    case Monday => Sunday
    case Tuesday => Monday
    case Wednesday => Tuesday
    case Thursday => Wednesday
    case Friday => Thursday
    case Saturday => Friday
    case Sunday => Saturday
  }

  /** The weekday of a day, counted day by day from 1970-01-01, a Thursday. */
  function WeekdayOf(days: int): Weekday
    decreases if days < 0 then -days else days
  {
    if days == 0 then Thursday
    else if days > 0 then NextWeekday(WeekdayOf(days - 1))
    else PreviousWeekday(WeekdayOf(days + 1))
  }

  /** The calendar successor of a day has the next weekday, on either side of the epoch. */
  lemma WeekdayAdvances(days: int)
    ensures WeekdayOf(days + 1) == NextWeekday(WeekdayOf(days))
  {
  }

  function ReadWeekday(s: string): Option<Weekday> {
    match s
    case "Mon" => Some(Monday)
    case "Tue" => Some(Tuesday)
    case "Wed" => Some(Wednesday)
    case "Thu" => Some(Thursday)
    case "Fri" => Some(Friday)
    case "Sat" => Some(Saturday)
    case "Sun" => Some(Sunday)
    case _ => None
  }

  function ReadMonth(s: string): Option<nat> {
    match s
    case "Jan" => Some(1)
    case "Feb" => Some(2)
    case "Mar" => Some(3)
    case "Apr" => Some(4)
    case "May" => Some(5)
    case "Jun" => Some(6)
    case "Jul" => Some(7)
    case "Aug" => Some(8)
    case "Sep" => Some(9)
    case "Oct" => Some(10)
    case "Nov" => Some(11)
    case "Dec" => Some(12)
    case _ => None
  }

  datatype DayText = DayText(weekday: Weekday, day: nat, month: nat)

  function ParseDayPart(s: string): Option<DayText> {
    if |s| != 12 || s[3..5] != ", " || s[7] != ' ' || s[11] != ' ' then None
    else
      var weekday :- ReadWeekday(s[..3]);
      var day :- Value(s[5..7], 10);
      var month :- ReadMonth(s[8..11]);
      Some(DayText(weekday, day, month))
  }

  function ParseTimePart(s: string): Option<nat> {
    if |s| != 13 || s[0] != ' ' || s[3] != ':' || s[6] != ':' || s[9..] != " GMT" then None
    else
      var hour :- Value(s[1..3], 10);
      var minute :- Value(s[4..6], 10);
      var second :- Value(s[7..9], 10);
      if hour > 23 || minute > 59 || second > 59 then None else Some(hour * 3600 + minute * 60 + second)
  }

  /** A date text put together: the date must exist, and the weekday must be the one of the date. */
  function DateOfText(text: Option<DayText>, year: Option<nat>, time: Option<nat>): Option<int> {
    if text.None? || year.None? || time.None? then None
    else
      var date := Date(year.value, text.value.month, text.value.day);
      var days := DaysFromCivil(date);
      if !ValidDate(date) || text.value.weekday != WeekdayOf(days) then None else Some(days * 86_400 + time.value)
  }

  /** Reads an IMF-fixdate as seconds from the epoch. */
  function ParseHttpDate(s: string): Option<int> {
    if |s| < 29 then None
    else DateOfText(ParseDayPart(s[..12]), Value(s[12..|s| - 13], 10), ParseTimePart(s[|s| - 13..]))
  }

  lemma PaddedText(n: nat, width: nat)
    ensures Value(Padded(n, width), 10) == Some(n)
    ensures |Padded(n, width)| >= width && (width == 2 && n < 100 ==> |Padded(n, width)| == 2)
  {
    NumeralValue(n, 10);
    LeadingZeros(if |Decimal(n)| < width then width - |Decimal(n)| else 0, Decimal(n), 10);
    if n < 100 {
      TwoDigits(n);
    }
    hide Value, Numeral;
  }

  lemma TwoDigits(n: nat)
    requires n < 100
    ensures |Decimal(n)| <= 2
  {
    if n >= 10 {
      assert |Numeral(n / 10, 10)| == 1;
    }
  }

  lemma MonthNames(month: nat)
    requires 1 <= month <= 12
    ensures |MONTHS[month - 1]| == 3 && ReadMonth(MONTHS[month - 1]) == Some(month)
  {
  }

  /** The name picked by the remainder modulo 7 is that of the weekday counted day by day. */
  lemma {:induction false} WeekdayNames(days: nat)
    ensures |WEEKDAYS[days % 7]| == 3 && ReadWeekday(WEEKDAYS[days % 7]) == Some(WeekdayOf(days))
    decreases days
  {
    if days > 0 {
      WeekdayNames(days - 1);
      NamesInOrder((days - 1) % 7);
      assert days % 7 == if (days - 1) % 7 == 6 then 0 else (days - 1) % 7 + 1;
      hide ReadWeekday;
    }
  }

  lemma NamesInOrder(i: nat)
    requires i < 7
    ensures |WEEKDAYS[i]| == 3 && ReadWeekday(WEEKDAYS[i]).Some?
    ensures var j := if i == 6 then 0 else i + 1;
            |WEEKDAYS[j]| == 3 && ReadWeekday(WEEKDAYS[j]) == Some(NextWeekday(ReadWeekday(WEEKDAYS[i]).value))
  {
  }

  lemma DayPartReads(days: nat)
    ensures var date := CivilFromDays(days);
            ParseDayPart(DayPart(days)) == Some(DayText(WeekdayOf(days), date.day, date.month))
  {
    hide CivilFromDays, DaysFromCivil, Value, Padded, ReadMonth, ReadWeekday, WeekdayOf;
    DaysOfCivil(days);
    WeekdayNames(days);
    var date := CivilFromDays(days);
    PaddedText(date.day, 2);
    MonthNames(date.month);
    var w, d, m := WEEKDAYS[days % 7], Padded(date.day, 2), MONTHS[date.month - 1];
    assert |w| == 3;
    var s := DayPart(days);
    assert s[..3] == w && s[3..5] == ", " && s[5..7] == d && s[7] == ' ' && s[8..11] == m && s[11] == ' ';
  }

  lemma TimePartReads(time: nat)
    requires time < 86_400
    ensures ParseTimePart(TimePart(time)) == Some(time)
  {
    hide Value, Padded;
    PaddedText(time / 3600, 2);
    PaddedText(time % 3600 / 60, 2);
    PaddedText(time % 60, 2);
    var h, m, x := Padded(time / 3600, 2), Padded(time % 3600 / 60, 2), Padded(time % 60, 2);
    var s := TimePart(time);
    assert s[1..3] == h && s[3] == ':' && s[4..6] == m && s[6] == ':' && s[7..9] == x && s[9..] == " GMT";
    TimeOfDay(time);
  }

  lemma TimeOfDay(time: nat)
    requires time < 86_400
    ensures time / 3600 <= 23 && time % 3600 / 60 <= 59
    ensures time / 3600 * 3600 + time % 3600 / 60 * 60 + time % 60 == time
  {
    var h, m := time / 3600, time % 3600 / 60;
    assert time == (h * 60 + m) * 60 + time % 3600 % 60;
    assert time % 3600 % 60 == time % 60;
  }

  /** The three parts of a date text are found again by their fixed lengths. */
  lemma PartsApart(d: string, y: string, t: string)
    requires |d| == 12 && |t| == 13 && |y| >= 4
    ensures ParseHttpDate(d + y + t) == DateOfText(ParseDayPart(d), Value(y, 10), ParseTimePart(t))
  {
    hide ParseDayPart, ParseTimePart, Value, DateOfText;
    var s := d + y + t;
    assert s[..12] == d && s[12..|s| - 13] == y && s[|s| - 13..] == t;
  }

  lemma DateTogether(days: nat, time: nat)
    ensures CivilFromDays(days).year >= 0
    ensures var date := CivilFromDays(days);
            var text := DayText(WeekdayOf(days), date.day, date.month);
            DateOfText(Some(text), Some(date.year), Some(time)) == Some(days * 86_400 + time)
  {
    hide CivilFromDays, DaysFromCivil, ValidDate;
    DaysOfCivil(days);
    YearOfDay(days);
  }

  lemma ParseOfParts(days: nat, time: nat)
    requires time < 86_400
    ensures CivilFromDays(days).year >= 0
    ensures ParseHttpDate(DayPart(days) + Padded(CivilFromDays(days).year, 4) + TimePart(time))
         == Some(days * 86_400 + time)
  {
    hide CivilFromDays, DaysFromCivil, Value, Padded, ParseDayPart, ParseTimePart, DayPart, TimePart, ValidDate,
         ParseHttpDate, DateOfText;
    DateTogether(days, time);
    DayPartReads(days);
    TimePartReads(time);
    var y := CivilFromDays(days).year;
    PaddedText(y, 4);
    PartLengths(DayPart(days), TimePart(time));
    PartsApart(DayPart(days), Padded(y, 4), TimePart(time));
  }

  lemma FormatReads(nanos: int)
    ensures ParseHttpDate(FormatHttpDate(nanos)) == Some(SecondsOf(nanos))
  {
    var secs := SecondsOf(nanos);
    hide CivilFromDays, Padded, DayPart, TimePart, ParseHttpDate, SecondsOf;
    ParseOfParts(secs / 86_400, secs % 86_400);
    assert secs / 86_400 * 86_400 + secs % 86_400 == secs;
  }

  /**
   Reading a formatted date gives the same whole second back, or the epoch for times before it, with a date that
   exists and the weekday it fell on.
   */
  lemma ParseOfFormat(nanos: int)
    ensures ParseHttpDate(FormatHttpDate(nanos)) == Some(if nanos < 0 then 0 else nanos / 1_000_000_000)
  {
    FormatReads(nanos);
    hide ParseHttpDate, FormatHttpDate;
  }

  lemma PartLengths(d: string, t: string)
    ensures ParseDayPart(d).Some? ==> |d| == 12
    ensures ParseTimePart(t).Some? ==> |t| == 13
  {
  }
}
