/** The civil-date arithmetic behind every stored timestamp. */
module Calendar {

  datatype Civil = Civil(year: int, month: int, day: int)

  datatype Stamp = Stamp(date: Civil, hour: int, minute: int, second: int)

  const SECONDS_PER_DAY := 86_400

  /** Year of the 400-year era that day doe falls in; years and eras start on 1 March. */
  function EraYear(doe: int): int {
    (doe - doe / 1_460 + doe / 36_524 - doe / 146_096) / 365
  }

  /** Calendar date of day doy of the year that starts on 1 March. */
  function MarchDate(y: int, doy: int): Civil {
    var mp := (5 * doy + 2) / 153;
    var d := doy - (153 * mp + 2) / 5 + 1;
    var m := if mp < 10 then mp + 3 else mp - 9;
    Civil(if m <= 2 then y + 1 else y, m, d)
  }

  /** Civil-from-days; day 0 is 1970-01-01. */
  function CivilFromDays(days: int): Civil {
    var z := days + 719_468;
    var era := z / 146_097;
    var doe := z % 146_097;
    var yoe := EraYear(doe);
    MarchDate(yoe + era * 400, doe - (365 * yoe + yoe / 4 - yoe / 100))
  }

  function StampFromSeconds(secs: int): Stamp {
    var daySecs := secs % SECONDS_PER_DAY;
    Stamp(CivilFromDays(secs / SECONDS_PER_DAY), daySecs / 3_600, daySecs % 3_600 / 60, daySecs % 60)
  }

  // ---- The calendar itself, counted from 0001-01-01 ----

  predicate IsLeapYear(year: int) {
    year % 4 == 0 && (year % 100 == 0 ==> year % 400 == 0)
  }

  function DaysInMonth(year: int, month: int): int
    requires 1 <= month <= 12
  {
    if month == 2 then (if IsLeapYear(year) then 29 else 28)
    else if month in {4, 6, 9, 11} then 30
    else 31
  }

  predicate ValidCivil(c: Civil) {
    1 <= c.month <= 12 && 1 <= c.day <= DaysInMonth(c.year, c.month)
  }

  function DaysBeforeYear(year: int): int {
    var y := year - 1;
    365 * y + y / 4 - y / 100 + y / 400
  }

  function DaysBeforeMonth(year: int, month: int): int
    requires 1 <= month <= 12
  {
    if month == 1 then 0 else DaysBeforeMonth(year, month - 1) + DaysInMonth(year, month - 1)
  }

  function DaysFromCivil(c: Civil): int
    requires 1 <= c.month <= 12
  {
    DaysBeforeYear(c.year) + DaysBeforeMonth(c.year, c.month) + c.day - 1 - 719_162
  }

  /** A day of the 400-year era splits into century, four-year cycle and day of the cycle. */
  lemma SplitEra(doe: int) returns (c: int, k: int, s: int)
    requires 0 <= doe < 146_096
    ensures 0 <= c <= 3 && 0 <= k <= 24 && 0 <= s <= 1_460
    ensures doe == 36_524 * c + 1_461 * k + s
    ensures k == 24 ==> s < 1_460
    ensures doe / 36_524 == c && doe / 146_096 == 0
    ensures doe / 1_460 == 25 * c + k + (k + s + 24 * c) / 1_460
  {
    c := doe / 36_524;
    var r := doe % 36_524;
    k, s := r / 1_461, r % 1_461;
    assert doe == 1_460 * (25 * c + k) + (k + s + 24 * c);
  }

  /** The division by 365 lands in the right year of the cycle: the correction f is one only near its end. */
  lemma YearOfCycle(c: int, k: int, s: int, f: int, j: int)
    requires 0 <= c <= 3 && 0 <= k <= 24 && 0 <= s <= 1_460
    requires k == 24 ==> s < 1_460
    requires f == (k + s + 24 * c) / 1_460
    requires j == (s - f) / 365
    ensures 0 <= j <= 3
    ensures 365 * j <= s
    ensures s < 365 * (j + 1) || (j == 3 && s == 1_460)
  {
    if k + s + 24 * c < 1_460 {
      assert f == 0;
    } else {
      assert f == 1 && s >= 1_364;
    }
  }

  lemma YearCounts(c: int, k: int, j: int)
    requires 0 <= c <= 3 && 0 <= k <= 24 && 0 <= j <= 3
    ensures var yoe := 100 * c + 4 * k + j;
            && yoe / 4 == 25 * c + k && yoe / 100 == c && 0 <= yoe < 400
            && (yoe + 1) / 4 == 25 * c + k + (if j == 3 then 1 else 0)
            && (yoe + 1) / 100 == c + (if k == 24 && j == 3 then 1 else 0)
            && (yoe + 1) / 400 == (if c == 3 && k == 24 && j == 3 then 1 else 0)
  {
  }

  lemma Division365(q: int, r: int)
    ensures (365 * q + r) / 365 == q + r / 365
  {
  }

  /** The whole computation in terms of the parts. */
  lemma EraYearOfParts(doe: int, c: int, k: int, s: int)
    requires doe == 36_524 * c + 1_461 * k + s
    requires doe / 36_524 == c && doe / 146_096 == 0
    requires doe / 1_460 == 25 * c + k + (k + s + 24 * c) / 1_460
    ensures EraYear(doe) == 100 * c + 4 * k + (s - (k + s + 24 * c) / 1_460) / 365
  {
    var f := (k + s + 24 * c) / 1_460;
    Division365(100 * c + 4 * k, s - f);
    assert doe - doe / 1_460 + doe / 36_524 - doe / 146_096 == 365 * (100 * c + 4 * k) + (s - f);
  }

  /** Days of the era before its year y. */
  function EraDays(y: int): int {
    365 * y + y / 4 - y / 100 + y / 400
  }

  lemma EraDaysOfYear(yoe: int)
    requires 0 <= yoe < 400
    ensures EraDays(yoe) == 365 * yoe + yoe / 4 - yoe / 100
  {
  }

  lemma EraDaysOfParts(c: int, k: int, j: int)
    requires 0 <= c <= 3 && 0 <= k <= 24 && 0 <= j <= 3
    ensures var yoe := 100 * c + 4 * k + j;
            && 0 <= yoe < 400
            && EraDays(yoe) == 365 * yoe + 24 * c + k
            && EraDays(yoe + 1) == 365 * (yoe + 1) + 24 * c + k + (if j == 3 then 1 else 0)
                                   - (if k == 24 && j == 3 then 1 else 0) + (if c == 3 && k == 24 && j == 3 then 1 else 0)
  {
    YearCounts(c, k, j);
    EraDaysOfYear(100 * c + 4 * k + j);
  }

  lemma YearOfEra(doe: int, yoe: int)
    requires 0 <= doe < 146_097
    requires yoe == EraYear(doe)
    ensures 0 <= yoe < 400
    ensures EraDays(yoe) <= doe < EraDays(yoe + 1)
  {
    if doe < 146_096 {
      var c, k, s := SplitEra(doe);
      var f := (k + s + 24 * c) / 1_460;
      var j := (s - f) / 365;
      YearOfCycle(c, k, s, f, j);
      EraDaysOfParts(c, k, j);
      EraYearOfParts(doe, c, k, s);
      hide EraYear, EraDays;
      assert yoe == 100 * c + 4 * k + j;
    } else {
      assert doe == 146_096 && EraYear(146_096) == 399;
    }
  }

  /** The month table of the March-based year, and where each month starts. */
  lemma MonthOfYear(year: int, doy: int)
    requires 0 <= doy <= 365
    requires doy == 365 ==> IsLeapYear(year + 1)
    ensures var c := MarchDate(year, doy);
            && ValidCivil(c)
            && c.year == (if c.month <= 2 then year + 1 else year)
            && DaysBeforeMonth(c.year, c.month) + c.day - 1 == (if c.month <= 2 then doy - 306 else DaysBeforeMonth(year, 3) + doy)
  {
    var mp := (5 * doy + 2) / 153;
    MonthStarts(year);
    MonthStarts(year + 1);
    assert mp in {0, 1, 2, 3, 4, 5, 6, 7, 8, 9, 10, 11};
  }

  lemma MonthStarts(year: int)
    ensures var leap := if IsLeapYear(year) then 1 else 0;
            forall m {:trigger DaysBeforeMonth(year, m)} | 1 <= m <= 12 ::
              DaysBeforeMonth(year, m) == [0, 31, 59, 90, 120, 151, 181, 212, 243, 273, 304, 334][m - 1] + if m > 2 then leap else 0
  {
    var leap := if IsLeapYear(year) then 1 else 0;
    assert DaysBeforeMonth(year, 1) == 0;
    assert DaysBeforeMonth(year, 2) == 31;
    assert DaysBeforeMonth(year, 3) == 59 + leap;
    assert DaysBeforeMonth(year, 4) == 90 + leap;
    assert DaysBeforeMonth(year, 5) == 120 + leap;
    assert DaysBeforeMonth(year, 6) == 151 + leap;
    assert DaysBeforeMonth(year, 7) == 181 + leap;
    assert DaysBeforeMonth(year, 8) == 212 + leap;
    assert DaysBeforeMonth(year, 9) == 243 + leap;
    assert DaysBeforeMonth(year, 10) == 273 + leap;
    assert DaysBeforeMonth(year, 11) == 304 + leap;
    assert DaysBeforeMonth(year, 12) == 334 + leap;
  }

  lemma Carry4(n: int)
    ensures n / 4 - (n - 1) / 4 == if n % 4 == 0 then 1 else 0
  {
  }

  lemma Carry100(n: int)
    ensures n / 100 - (n - 1) / 100 == if n % 100 == 0 then 1 else 0
  {
  }

  lemma Carry400(n: int)
    ensures n / 400 - (n - 1) / 400 == if n % 400 == 0 then 1 else 0
  {
  }

  lemma CenturyDivides(n: int)
    ensures n % 400 == 0 ==> n % 100 == 0
    ensures n % 100 == 0 ==> n % 4 == 0
  {
    if n % 100 == 0 {
      Division4(25 * (n / 100), 0);
    }
    if n % 400 == 0 {
      Division100(4 * (n / 400), 0);
    }
  }

  lemma YearLength(year: int)
    ensures DaysBeforeYear(year + 1) == DaysBeforeYear(year) + 365 + if IsLeapYear(year) then 1 else 0
  {
    Carry4(year);
    Carry100(year);
    Carry400(year);
    CenturyDivides(year);
  }

  /** Days up to 1 March of a year, on the scale whose day 0 is 0000-03-01. */
  function DaysBeforeMarch(year: int): int {
    365 * year + year / 4 - year / 100 + year / 400
  }

  lemma MarchFirst(year: int)
    ensures DaysBeforeYear(year) + DaysBeforeMonth(year, 3) - 719_162 == DaysBeforeMarch(year) - 719_468
  {
    YearLength(year);
    MonthStarts(year);
  }

  lemma MarchDateCounts(year: int, doy: int)
    requires 0 <= doy <= 365
    requires doy == 365 ==> IsLeapYear(year + 1)
    ensures ValidCivil(MarchDate(year, doy))
    ensures DaysFromCivil(MarchDate(year, doy)) == DaysBeforeMarch(year) + doy - 719_468
  {
    MonthOfYear(year, doy);
    MarchFirst(year);
    YearLength(year);
    MonthStarts(year);
  }

  /** The civil-from-days computation, with the two intermediate quantities it passes through. */
  lemma ViaMarchDate(days: int) returns (year: int, doy: int)
    ensures 0 <= doy <= 365
    ensures doy == 365 ==> IsLeapYear(year + 1)
    ensures DaysBeforeMarch(year) + doy == days + 719_468
    ensures CivilFromDays(days) == MarchDate(year, doy)
  {
    hide EraYear, EraDays, MarchDate, DaysBeforeMarch, IsLeapYear, CivilFromDays;
    var era, doe, yoe := ByEra(days);
    year, doy := yoe + era * 400, doe - EraDays(yoe);
    YearOfEra(doe, yoe);
    LeapDayOfMarchYear(yoe, era, doy);
    MarchOfEra(yoe, era);
  }

  lemma ByEra(days: int) returns (era: int, doe: int, yoe: int)
    ensures days + 719_468 == 146_097 * era + doe && 0 <= doe < 146_097 && yoe == EraYear(doe)
    ensures CivilFromDays(days) == MarchDate(yoe + era * 400, doe - EraDays(yoe))
  {
    era, doe := (days + 719_468) / 146_097, (days + 719_468) % 146_097;
    yoe := EraYear(doe);
    YearOfEra(doe, yoe);
    hide EraYear, MarchDate;
    EraDaysOfYear(yoe);
  }

  lemma MarchOfEra(yoe: int, era: int)
    requires 0 <= yoe < 400
    ensures DaysBeforeMarch(yoe + era * 400) == 146_097 * era + EraDays(yoe)
  {
    Periodic(yoe, era);
  }

  /** Every day number is a real date, and counting the days up to that date gives it back. */
  lemma DateOfEveryDay(days: int)
    ensures ValidCivil(CivilFromDays(days))
    ensures DaysFromCivil(CivilFromDays(days)) == days
  {
    var year, doy := ViaMarchDate(days);
    MarchDateCounts(year, doy);
  }

  lemma LeapDayOfMarchYear(yoe: int, era: int, doy: int)
    requires 0 <= yoe < 400
    requires doy + EraDays(yoe) < EraDays(yoe + 1)
    ensures doy <= 365
    ensures doy == 365 ==> IsLeapYear(yoe + era * 400 + 1)
  {
    var next := yoe + 1;
    Carry4(next);
    Carry100(next);
    Carry400(next);
    CenturyDivides(next);
    Periodic(next, era);
  }

  lemma Division4(q: int, r: int)
    requires 0 <= r < 4
    ensures (4 * q + r) / 4 == q && (4 * q + r) % 4 == r
  {
  }

  lemma Division100(q: int, r: int)
    requires 0 <= r < 100
    ensures (100 * q + r) / 100 == q && (100 * q + r) % 100 == r
  {
  }

  lemma Division400(q: int, r: int)
    requires 0 <= r < 400
    ensures (400 * q + r) / 400 == q && (400 * q + r) % 400 == r
  {
  }

  lemma Periodic(n: int, era: int)
    ensures IsLeapYear(n + 400 * era) == IsLeapYear(n)
    ensures (n + 400 * era) / 4 == n / 4 + 100 * era
    ensures (n + 400 * era) / 100 == n / 100 + 4 * era
    ensures (n + 400 * era) / 400 == n / 400 + era
  {
    Division4(n / 4 + 100 * era, n % 4);
    assert n + 400 * era == 4 * (n / 4 + 100 * era) + n % 4;
    Division100(n / 100 + 4 * era, n % 100);
    assert n + 400 * era == 100 * (n / 100 + 4 * era) + n % 100;
    Division400(n / 400 + era, n % 400);
    assert n + 400 * era == 400 * (n / 400 + era) + n % 400;
  }

  // ---- Counting days respects the order of dates, so it has an inverse ----

  predicate Before(a: Civil, b: Civil) {
    || a.year < b.year
    || (a.year == b.year && a.month < b.month)
    || (a.year == b.year && a.month == b.month && a.day < b.day)
  }

  lemma {:induction false} LaterYears(a: int, b: int)
    requires a <= b
    ensures DaysBeforeYear(a) <= DaysBeforeYear(b)
    decreases b - a
  {
    if a < b {
      YearLength(a);
      LaterYears(a + 1, b);
    }
  }

  lemma EarlierDateCountsLess(a: Civil, b: Civil)
    requires ValidCivil(a) && ValidCivil(b) && Before(a, b)
    ensures DaysFromCivil(a) < DaysFromCivil(b)
  {
    MonthStarts(a.year);
    if a.year < b.year {
      MonthStarts(b.year);
      YearLength(a.year);
      LaterYears(a.year + 1, b.year);
    }
  }

  /** The other half of the bijection: every real date is the date of exactly one day number. */
  lemma DayOfEveryDate(c: Civil)
    requires ValidCivil(c)
    ensures CivilFromDays(DaysFromCivil(c)) == c
  {
    var back := CivilFromDays(DaysFromCivil(c));
    DateOfEveryDay(DaysFromCivil(c));
    if Before(back, c) {
      EarlierDateCountsLess(back, c);
    } else if Before(c, back) {
      EarlierDateCountsLess(c, back);
    }
  }

  function NextDay(c: Civil): Civil
    requires ValidCivil(c)
  {
    if c.day < DaysInMonth(c.year, c.month) then c.(day := c.day + 1)
    else if c.month < 12 then Civil(c.year, c.month + 1, 1)
    else Civil(c.year + 1, 1, 1)
  }

  lemma NextDayCountsOneMore(c: Civil)
    requires ValidCivil(c)
    ensures ValidCivil(NextDay(c))
    ensures DaysFromCivil(NextDay(c)) == DaysFromCivil(c) + 1
  {
    MonthStarts(c.year);
    YearLength(c.year);
  }

  lemma DateAt(days: int, c: Civil)
    requires ValidCivil(c) && DaysFromCivil(c) == days
    ensures CivilFromDays(days) == c
  {
    DayOfEveryDate(c);
  }

  lemma EpochIsDayZero()
    ensures CivilFromDays(0) == Civil(1970, 1, 1)
  {
    assert 719_468 / 146_097 == 4 && 719_468 % 146_097 == 135_080;
    assert EraYear(135_080) == 369;
    assert MarchDate(1969, 306) == Civil(1970, 1, 1);
    hide EraYear, MarchDate;
  }

  /** With the epoch, the step to the next day determines the whole conversion. */
  lemma CalendarAdvancesDayByDay(days: int, c: Civil)
    requires c == CivilFromDays(days)
    ensures ValidCivil(c) && CivilFromDays(days + 1) == NextDay(c)
  {
    DateOfEveryDay(days);
    NextDayCountsOneMore(c);
    DateAt(days + 1, NextDay(c));
  }

  // ---- Dates with a time of day ----

  predicate ValidStamp(t: Stamp) {
    ValidCivil(t.date) && 0 <= t.hour < 24 && 0 <= t.minute < 60 && 0 <= t.second < 60
  }

  function SecondsFromStamp(t: Stamp): int
    requires ValidStamp(t)
  {
    SECONDS_PER_DAY * DaysFromCivil(t.date) + 3_600 * t.hour + 60 * t.minute + t.second
  }

  lemma TimeOfDay(daySecs: int)
    requires 0 <= daySecs < SECONDS_PER_DAY
    ensures 0 <= daySecs / 3_600 < 24
    ensures daySecs == 3_600 * (daySecs / 3_600) + 60 * (daySecs % 3_600 / 60) + daySecs % 60
  {
    assert daySecs % 60 == daySecs % 3_600 % 60 by {
      assert daySecs == 60 * (60 * (daySecs / 3_600) + daySecs % 3_600 / 60) + daySecs % 3_600 % 60;
    }
  }

  lemma StampOfEverySecond(secs: int)
    ensures ValidStamp(StampFromSeconds(secs))
    ensures SecondsFromStamp(StampFromSeconds(secs)) == secs
  {
    DateOfEveryDay(secs / SECONDS_PER_DAY);
    TimeOfDay(secs % SECONDS_PER_DAY);
  }

  lemma SplitSeconds(days: int, daySecs: int)
    requires 0 <= daySecs < SECONDS_PER_DAY
    ensures (SECONDS_PER_DAY * days + daySecs) / SECONDS_PER_DAY == days
    ensures (SECONDS_PER_DAY * days + daySecs) % SECONDS_PER_DAY == daySecs
  {
  }

  lemma SplitDay(h: int, m: int, s: int)
    requires 0 <= h < 24 && 0 <= m < 60 && 0 <= s < 60
    ensures var t := 3_600 * h + 60 * m + s; t / 3_600 == h && t % 3_600 / 60 == m && t % 60 == s
  {
    var t := 3_600 * h + 60 * m + s;
    assert t == 60 * (60 * h + m) + s;
    assert t / 3_600 == h && t % 3_600 == 60 * m + s;
  }

  lemma SecondOfEveryStamp(t: Stamp)
    requires ValidStamp(t)
    ensures StampFromSeconds(SecondsFromStamp(t)) == t
  {
    hide CivilFromDays, DaysFromCivil;
    var daySecs := 3_600 * t.hour + 60 * t.minute + t.second;
    DayOfEveryDate(t.date);
    SplitSeconds(DaysFromCivil(t.date), daySecs);
    SplitDay(t.hour, t.minute, t.second);
  }

  lemma StampAt(secs: int, t: Stamp)
    requires ValidStamp(t) && SecondsFromStamp(t) == secs
    ensures StampFromSeconds(secs) == t
  {
    SecondOfEveryStamp(t);
  }

  predicate StampBefore(a: Stamp, b: Stamp) {
    || Before(a.date, b.date)
    || (a.date == b.date && a.hour < b.hour)
    || (a.date == b.date && a.hour == b.hour && a.minute < b.minute)
    || (a.date == b.date && a.hour == b.hour && a.minute == b.minute && a.second < b.second)
  }

  lemma StampOrderIsTimeOrder(s: int, t: int)
    ensures StampBefore(StampFromSeconds(s), StampFromSeconds(t)) <==> s < t
  {
    var a, b := StampFromSeconds(s), StampFromSeconds(t);
    StampOfEverySecond(s);
    StampOfEverySecond(t);
    if Before(a.date, b.date) {
      EarlierDateCountsLess(a.date, b.date);
    } else if Before(b.date, a.date) {
      EarlierDateCountsLess(b.date, a.date);
    }
  }
}
