/**
 * Dates from day counts (crates/cli/src/main.rs and crates/daemon/src/ops.rs): the proleptic
 * Gregorian calendar of RFC 3339, section 5.7 and appendix C.
 */
module Calendar {

  datatype Date = Date(year: int, month: int, day: int)

  // ---- The calendar --------------------------------------------------------

  predicate IsLeap(y: int) {
    y % 4 == 0 && (y % 100 != 0 || y % 400 == 0)
  }

  function DaysInMonth(y: int, m: int): int {
    if m == 2 then (if IsLeap(y) then 29 else 28)
    else if m == 4 || m == 6 || m == 9 || m == 11 then 30
    else 31
  }

  predicate ValidDate(d: Date) {
    1 <= d.month <= 12 && 1 <= d.day <= DaysInMonth(d.year, d.month)
  }

  /** The next day. */
  function Tomorrow(d: Date): Date {
    if d.day < DaysInMonth(d.year, d.month) then d.(day := d.day + 1)
    else if d.month < 12 then Date(d.year, d.month + 1, 1)
    else Date(d.year + 1, 1, 1)
  }

  // ---- Counting days -------------------------------------------------------

  /** Days before January 1st of year `y`, counted from January 1st of year 0. */
  function BeforeYear(y: int): int {
    365 * y + (y + 3) / 4 - (y + 99) / 100 + (y + 399) / 400
  }

  /** Days before the first of a month, in its year. */
  function BeforeMonth(y: int, m: int): int
    decreases m
  {
    if m <= 1 then 0 else BeforeMonth(y, m - 1) + DaysInMonth(y, m - 1)
  }

  /** Days before a date, counted from January 1st of year 0. */
  function DaysBefore(d: Date): int {
    BeforeYear(d.year) + BeforeMonth(d.year, d.month) + d.day - 1
  }

  /** Days since 1970-01-01. */
  function DayNumber(d: Date): int {
    DaysBefore(d) - BeforeYear(1970)
  }

  function LeapDay(y: int): int {
    if IsLeap(y) then 1 else 0
  }

  /** The days before each month. */
  lemma MonthTable(y: int)
    ensures BeforeMonth(y, 1) == 0 && BeforeMonth(y, 2) == 31
    ensures forall m :: 3 <= m <= 13 ==> BeforeMonth(y, m) == 59 + LeapDay(y) + (153 * (m - 3) + 2) / 5
  {
    assert BeforeMonth(y, 3) == 59 + LeapDay(y);
    assert BeforeMonth(y, 4) == 90 + LeapDay(y);
    assert BeforeMonth(y, 5) == 120 + LeapDay(y);
    assert BeforeMonth(y, 6) == 151 + LeapDay(y);
    assert BeforeMonth(y, 7) == 181 + LeapDay(y);
    assert BeforeMonth(y, 8) == 212 + LeapDay(y);
    assert BeforeMonth(y, 9) == 243 + LeapDay(y);
    assert BeforeMonth(y, 10) == 273 + LeapDay(y);
    assert BeforeMonth(y, 11) == 304 + LeapDay(y);
    assert BeforeMonth(y, 12) == 334 + LeapDay(y);
    assert BeforeMonth(y, 13) == 365 + LeapDay(y);
  }

  function Ticks(y: int, n: int): int
    requires n > 0
  {
    if y % n == 0 then 1 else 0
  }

  lemma EveryFourth(y: int)
    ensures (y + 4) / 4 - (y + 3) / 4 == Ticks(y, 4)
  {
  }

  lemma EveryHundredth(y: int)
    ensures (y + 100) / 100 - (y + 99) / 100 == Ticks(y, 100)
  {
  }

  lemma EveryFourHundredth(y: int)
    ensures (y + 400) / 400 - (y + 399) / 400 == Ticks(y, 400)
  {
  }

  lemma LeapDayTicks(y: int)
    ensures LeapDay(y) == Ticks(y, 4) - Ticks(y, 100) + Ticks(y, 400)
  {
    if y % 400 == 0 {
      assert y == 100 * (4 * (y / 400));
    }
    if y % 100 == 0 {
      assert y == 4 * (25 * (y / 100));
    }
  }

  /** A year has as many days as its months, 366 if it is a leap year and 365 if not. */
  lemma YearLength(y: int)
    ensures BeforeYear(y + 1) - BeforeYear(y) == BeforeMonth(y, 13) == 365 + LeapDay(y)
  {
    MonthTable(y);
    EveryFourth(y);
    EveryHundredth(y);
    EveryFourHundredth(y);
    LeapDayTicks(y);
  }

  /** Counting follows the calendar. */
  lemma TomorrowCountsOneMore(d: Date)
    requires ValidDate(d)
    ensures ValidDate(Tomorrow(d)) && DayNumber(Tomorrow(d)) == DayNumber(d) + 1
  {
    YearLength(d.year);
  }

  lemma {:induction false} MonthsAdvance(y: int, m: int, n: int)
    requires 1 <= m < n <= 13
    ensures BeforeMonth(y, m) + DaysInMonth(y, m) <= BeforeMonth(y, n)
    decreases n
  {
    if m < n - 1 {
      MonthsAdvance(y, m, n - 1);
    }
  }

  lemma {:induction false} YearsAdvance(y: int, z: int)
    requires y < z
    ensures BeforeYear(y + 1) <= BeforeYear(z)
    decreases z - y
  {
    if y + 1 < z {
      YearsAdvance(y, z - 1);
      YearLength(z - 1);
    }
  }

  /** A date lies in its own year. */
  lemma InItsYear(d: Date)
    requires ValidDate(d)
    ensures BeforeYear(d.year) - BeforeYear(1970) <= DayNumber(d) < BeforeYear(d.year + 1) - BeforeYear(1970)
  {
    MonthsAdvance(d.year, d.month, 13);
    YearLength(d.year);
    assert BeforeMonth(d.year, 1) == 0;
    if d.month > 1 {
      MonthsAdvance(d.year, 1, d.month);
    }
  }

  predicate Earlier(a: Date, b: Date) {
    a.year < b.year || (a.year == b.year && (a.month < b.month || (a.month == b.month && a.day < b.day)))
  }

  lemma YearsDecide(a: Date, b: Date)
    requires ValidDate(a) && ValidDate(b) && a.year < b.year
    ensures DayNumber(a) < DayNumber(b)
  {
    InItsYear(a);
    InItsYear(b);
    YearsAdvance(a.year, b.year);
  }

  lemma MonthsDecide(a: Date, b: Date)
    requires ValidDate(a) && ValidDate(b) && a.year == b.year && a.month < b.month
    ensures DayNumber(a) < DayNumber(b)
  {
    MonthsAdvance(a.year, a.month, b.month);
  }

  /** Earlier dates have smaller numbers. */
  lemma NumbersAscend(a: Date, b: Date)
    requires ValidDate(a) && ValidDate(b) && Earlier(a, b)
    ensures DayNumber(a) < DayNumber(b)
  {
    if a.year < b.year {
      YearsDecide(a, b);
    } else if a.month < b.month {
      MonthsDecide(a, b);
    }
  }

  lemma NumbersIdentify(a: Date, b: Date)
    requires ValidDate(a) && ValidDate(b) && DayNumber(a) == DayNumber(b)
    ensures a == b
  {
    if Earlier(a, b) {
      NumbersAscend(a, b);
    } else if Earlier(b, a) {
      NumbersAscend(b, a);
    }
  }

  // ---- The algorithm -------------------------------------------------------

  /** Division that truncates toward zero. */
  function Truncated(a: int, b: int): int
    requires b > 0
  {
    if a >= 0 then a / b else -(-a / b)
  }

  /** The year within its era of 400 years, which starts on March 1st. */
  function YearOfEra(doe: int): int {
    (doe - doe / 1460 + doe / 36_524 - doe / 146_096) / 365
  }

  /** The date of day `doe` of an era, as the algorithm builds it. */
  function EraDate(era: int, doe: int): Date {
    var yoe := YearOfEra(doe);
    var doy := doe - (365 * yoe + yoe / 4 - yoe / 100);
    MarchDate(yoe + era * 400, doy)
  }

  /** The date of day `doy` of the year that starts on March 1st of year `y`. */
  function MarchDate(y: int, doy: int): Date {
    var mp := (5 * doy + 2) / 153;
    var d := doy - (153 * mp + 2) / 5 + 1;
    var m := if mp < 10 then mp + 3 else mp - 9;
    Date(if m <= 2 then y + 1 else y, m, d)
  }

  function EraOf(z: int): int {
    Truncated(if z >= 0 then z else z - 146_096, 146_097)
  }

  function DayOfEra(z: int): int {
    z - EraOf(z) * 146_097
  }

  function CivilFromDays(days: int): Date {
    var z := days + 719_468;
    EraDate(EraOf(z), DayOfEra(z))
  }

  // ---- Its proof -----------------------------------------------------------

  /** Days of an era before its year `yoe`. */
  function EraDays(yoe: int): int {
    365 * yoe + yoe / 4 - yoe / 100 + yoe / 400
  }

  /** The era is the floored quotient, for negative counts too. */
  lemma EraIsFloor(z: int)
    ensures 0 <= DayOfEra(z) < 146_097 && z == EraOf(z) * 146_097 + DayOfEra(z)
  {
  }

  /** The same facts about quotients `a`, `c`, `e`, `y`, `f`, `h`, `g` given by their bounds. */
  lemma Starts(doe: int, a: int, c: int, e: int, y: int, f: int, h: int, g: int)
    requires 0 <= doe < 146_097 && 1460 * a <= doe < 1460 * a + 1460 && 36_524 * c <= doe < 36_524 * c + 36_524
    requires e == if doe == 146_096 then 1 else 0
    requires 365 * y <= doe - a + c - e < 365 * y + 365
    requires 4 * f <= y < 4 * f + 4 && 100 * h <= y < 100 * h + 100 && 400 * g <= y < 400 * g + 400
    ensures 365 * y + f - h + g <= doe
  {
    assert 0 <= c - e <= 3;
    assert 0 <= y < 400 && g == 0;
    assert h == c - e;
  }

  lemma Ends(doe: int, a: int, c: int, e: int, y: int, f: int, h: int, g: int)
    requires 0 <= doe < 146_097 && 1460 * a <= doe < 1460 * a + 1460 && 36_524 * c <= doe < 36_524 * c + 36_524
    requires e == if doe == 146_096 then 1 else 0
    requires 365 * y - 365 <= doe - a + c - e < 365 * y
    requires 4 * f <= y < 4 * f + 4 && 100 * h <= y < 100 * h + 100 && 400 * g <= y < 400 * g + 400
    ensures doe < 365 * y + f - h + g
  {
    assert 0 <= c - e <= 3;
    assert 0 < y <= 400;
    assert g == if y == 400 then 1 else 0;
    assert h == c - e || y == 100 * (c - e) + 100;
  }

  lemma YearStarts(doe: int)
    requires 0 <= doe < 146_097
    ensures EraDays(YearOfEra(doe)) <= doe
  {
    var y := YearOfEra(doe);
    Starts(doe, doe / 1460, doe / 36_524, doe / 146_096, y, y / 4, y / 100, y / 400);
  }

  lemma YearEnds(doe: int)
    requires 0 <= doe < 146_097
    ensures doe < EraDays(YearOfEra(doe) + 1)
  {
    var y := YearOfEra(doe) + 1;
    Ends(doe, doe / 1460, doe / 36_524, doe / 146_096, y, y / 4, y / 100, y / 400);
  }

  lemma YearInEra(doe: int)
    requires 0 <= doe < 146_097
    ensures 0 <= YearOfEra(doe) < 400
  {
  }

  /** The month that starts in March and the day in it, from the day of such a year. */
  lemma MonthIsRight(doy: int, y: int)
    requires 0 <= doy <= 365 && (doy == 365 ==> IsLeap(y + 1))
    ensures var d := MarchDate(y, doy);
            ValidDate(d) && DaysBefore(d) == BeforeYear(y) + BeforeMonth(y, 3) + doy
  {
    var mp := (5 * doy + 2) / 153;
    MonthTable(y);
    MonthTable(y + 1);
    YearLength(y);
    assert 0 <= mp <= 11;
  }

  /** Counting eras of 400 years from March 1st of year 0 agrees with counting years. */
  lemma EraStart(era: int, yoe: int)
    requires 0 <= yoe < 400
    ensures var y := yoe + era * 400;
            BeforeYear(y) + BeforeMonth(y, 3) == era * 146_097 + EraDays(yoe) + 60
  {
    var y := yoe + era * 400;
    MonthTable(y);
    YearOfEras(era, yoe);
  }

  lemma NextQuotients(y: int)
    ensures (y + 4) / 4 == y / 4 + 1 && (y + 100) / 100 == y / 100 + 1 && (y + 400) / 400 == y / 400 + 1
  {
  }

  lemma FirstEra(yoe: int)
    ensures BeforeYear(yoe) + LeapDay(yoe) == EraDays(yoe) + 1
  {
    EveryFourth(yoe);
    EveryHundredth(yoe);
    EveryFourHundredth(yoe);
    LeapDayTicks(yoe);
    NextQuotients(yoe);
  }

  lemma YearOfEras(era: int, yoe: int)
    ensures var y := yoe + era * 400; BeforeYear(y) + LeapDay(y) == era * 146_097 + EraDays(yoe) + 1
  {
    FirstEra(yoe);
    ErasRepeat(era, yoe);
  }

  /** The calendar repeats every 400 years. */
  lemma ErasRepeat(era: int, yoe: int)
    ensures var y := yoe + era * 400; BeforeYear(y) == BeforeYear(yoe) + era * 146_097 && (IsLeap(y) <==> IsLeap(yoe))
  {
    var y := yoe + era * 400;
    FourthsRepeat(era, yoe);
    HundredthsRepeat(era, yoe);
    FourHundredthsRepeat(era, yoe);
  }

  lemma FourthsRepeat(era: int, yoe: int)
    ensures var y := yoe + era * 400; (y + 3) / 4 == (yoe + 3) / 4 + era * 100 && y % 4 == yoe % 4
  {
    var y := yoe + era * 400;
    assert y + 3 == 4 * ((yoe + 3) / 4 + era * 100) + (yoe + 3) % 4;
    assert y == 4 * (yoe / 4 + era * 100) + yoe % 4;
  }

  lemma HundredthsRepeat(era: int, yoe: int)
    ensures var y := yoe + era * 400; (y + 99) / 100 == (yoe + 99) / 100 + era * 4 && y % 100 == yoe % 100
  {
    var y := yoe + era * 400;
    assert y + 99 == 100 * ((yoe + 99) / 100 + era * 4) + (yoe + 99) % 100;
    assert y == 100 * (yoe / 100 + era * 4) + yoe % 100;
  }

  lemma FourHundredthsRepeat(era: int, yoe: int)
    ensures var y := yoe + era * 400; (y + 399) / 400 == (yoe + 399) / 400 + era && y % 400 == yoe % 400
  {
  }

  /** A year that starts in March has the leap day of the next one. */
  lemma EraYearLength(yoe: int)
    ensures EraDays(yoe + 1) - EraDays(yoe) == 365 + LeapDay(yoe + 1)
  {
    FourthTicks(yoe);
    HundredthTicks(yoe);
    FourHundredthTicks(yoe);
    LeapDayTicks(yoe + 1);
  }

  lemma FourthTicks(k: int)
    ensures (k + 1) / 4 - k / 4 == Ticks(k + 1, 4)
  {
  }

  lemma HundredthTicks(k: int)
    ensures (k + 1) / 100 - k / 100 == Ticks(k + 1, 100)
  {
  }

  lemma FourHundredthTicks(k: int)
    ensures (k + 1) / 400 - k / 400 == Ticks(k + 1, 400)
  {
  }

  lemma LastDayIsLeap(era: int, yoe: int)
    requires 0 <= yoe < 400 && EraDays(yoe + 1) - EraDays(yoe) > 365
    ensures IsLeap(yoe + era * 400 + 1)
  {
    EraYearLength(yoe);
    ErasRepeat(era, yoe + 1);
  }

  lemma DateInYear(era: int, yoe: int, doy: int, d: Date)
    requires 0 <= yoe < 400 && 0 <= doy < EraDays(yoe + 1) - EraDays(yoe) && d == MarchDate(yoe + era * 400, doy)
    ensures ValidDate(d) && DaysBefore(d) == era * 146_097 + EraDays(yoe) + 60 + doy
  {
    EraYearLength(yoe);
    if doy == 365 {
      LastDayIsLeap(era, yoe);
    }
    MonthIsRight(doy, yoe + era * 400);
    EraStart(era, yoe);
  }

  lemma YearParts(doe: int) returns (yoe: int, doy: int)
    requires 0 <= doe < 146_097
    ensures 0 <= yoe < 400 && 0 <= doy < EraDays(yoe + 1) - EraDays(yoe) && doe == EraDays(yoe) + doy
    ensures forall era :: EraDate(era, doe) == MarchDate(yoe + era * 400, doy)
  {
    YearStarts(doe);
    YearEnds(doe);
    YearInEra(doe);
    yoe := YearOfEra(doe);
    doy := doe - EraDays(yoe);
    assert yoe / 400 == 0;
  }

  lemma DateIsExact(era: int, doe: int, d: Date)
    requires 0 <= doe < 146_097 && d == EraDate(era, doe)
    ensures ValidDate(d) && DaysBefore(d) == era * 146_097 + doe + 60
  {
    var yoe, doy := YearParts(doe);
    DateInYear(era, yoe, doy, d);
  }

  lemma EpochYear()
    ensures BeforeYear(1970) == 719_528
  {
  }

  lemma NumberFromParts(d: Date, days: int)
    requires DaysBefore(d) == days + 719_528
    ensures DayNumber(d) == days
  {
    EpochYear();
  }

  /** Every day number has a valid date, and counting that date's days gives the number back. */
  lemma CivilIsExact(days: int)
    ensures ValidDate(CivilFromDays(days)) && DayNumber(CivilFromDays(days)) == days
  {
    var z := days + 719_468;
    EraIsFloor(z);
    DateIsExact(EraOf(z), DayOfEra(z), CivilFromDays(days));
    NumberFromParts(CivilFromDays(days), days);
  }

  /** The other way round: every valid date is the one its number stands for. */
  lemma DayNumberIsInverted(d: Date)
    requires ValidDate(d)
    ensures CivilFromDays(DayNumber(d)) == d
  {
    CivilIsExact(DayNumber(d));
    NumbersIdentify(CivilFromDays(DayNumber(d)), d);
  }

  /** One day later is the calendar's next day, for every day. */
  lemma NextDayIsTomorrow(days: int)
    ensures CivilFromDays(days + 1) == Tomorrow(CivilFromDays(days))
  {
    CivilIsExact(days);
    CivilIsExact(days + 1);
    TomorrowCountsOneMore(CivilFromDays(days));
    NumbersIdentify(CivilFromDays(days + 1), Tomorrow(CivilFromDays(days)));
  }

  /** Day 0 is 1970-01-01. */
  lemma EpochIsDayZero()
    ensures CivilFromDays(0) == Date(1970, 1, 1)
  {
    assert DayNumber(Date(1970, 1, 1)) == 0;
    DayNumberIsInverted(Date(1970, 1, 1));
  }

  // ---- Times of day --------------------------------------------------------

  datatype Minute = Minute(date: Date, hour: int, minute: int)

  /** The date, hour and minute of a unix timestamp, which may be negative. */
  function UnixMinute(secs: int): Minute {
    var rem := secs % 86_400;
    Minute(CivilFromDays(secs / 86_400), rem / 3600, rem % 3600 / 60)
  }

  /** The minute that is printed is the one the second lies in, before the epoch too. */
  lemma MinuteHoldsSecond(secs: int)
    ensures var t := UnixMinute(secs);
            && ValidDate(t.date) && 0 <= t.hour < 24 && 0 <= t.minute < 60
            && DayNumber(t.date) * 86_400 + t.hour * 3600 + t.minute * 60 <= secs
            && secs < DayNumber(t.date) * 86_400 + t.hour * 3600 + t.minute * 60 + 60
  {
    CivilIsExact(secs / 86_400);
    SplitDay(secs, secs / 86_400, secs % 86_400);
  }

  lemma SplitDay(secs: int, day: int, rem: int)
    requires secs == day * 86_400 + rem && 0 <= rem < 86_400
    ensures var (hour, minute) := (rem / 3600, rem % 3600 / 60);
            && 0 <= hour < 24 && 0 <= minute < 60
            && day * 86_400 + hour * 3600 + minute * 60 <= secs < day * 86_400 + hour * 3600 + minute * 60 + 60
  {
  }
}
