/** Local calendar arithmetic on millisecond timestamps, as JavaScript's `Date` does it in a
    time zone without daylight-saving changes. Days are counted from 1970-01-01 and months
    follow the proleptic Gregorian calendar. */
module Calendar {

  const MsPerDay: int := 86_400_000

  /** The calendar date of `t` as a day count (`toDateString` compares exactly this). */
  function DayOf(t: int): int {
    t / MsPerDay
  }

  /** `setHours(0, 0, 0, 0)`: midnight at the start of the day of `t`. */
  function StartOfDay(t: int): (r: int)
    ensures r % MsPerDay == 0
    ensures r <= t < r + MsPerDay
    ensures DayOf(r) == DayOf(t)
  {
    DayOf(t) * MsPerDay
  }

  /** `d.setDate(d.getDate() - n)`: the same time of day, `n` calendar days earlier. */
  function MinusDays(t: int, n: int): (r: int)
    ensures DayOf(r) == DayOf(t) - n
    ensures r - StartOfDay(r) == t - StartOfDay(t)
  {
    t - n * MsPerDay
  }

  datatype CivilDate = CivilDate(year: int, month: int, day: int)

  /** The civil date of a day count; `month` counts from 0 like `getMonth`. */
  function CivilFromDays(days: int): CivilDate {
    CivilInEra((days + 719468) / 146097, (days + 719468) % 146097)
  }

  /** The civil date of day `doe` of era `era`; eras are 400 years long and start on 1 March of
      a year divisible by 400. */
  function CivilInEra(era: int, doe: int): CivilDate {
    var yoe := YoeOf(doe);
    var doy := doe - YearStart(yoe);
    var mp := (5 * doy + 2) / 153;
    CivilDate(era * 400 + yoe + (if mp >= 10 then 1 else 0),
              if mp < 10 then mp + 2 else mp - 10,
              doy - MonthStart(mp) + 1)
  }

  /** The day count of a civil date; like JavaScript's MakeDay, a month outside 0..11 moves
      the year and a day of month past the month's end runs on into the next month. */
  function DaysFromCivil(year: int, month: int, day: int): int {
    var y := ShiftedYear(year + month / 12, month % 12);
    (y / 400) * 146097 + YearStart(y % 400) + MonthStart(ShiftedMonth(month % 12)) + day - 1 - 719468
  }

  /** Day 0 is 1 January 1970, the origin of JavaScript's time value, and timestamp 0 is in
      January 1970. */
  lemma Epoch()
    ensures DaysFromCivil(1970, 0, 1) == 0 && CivilFromDays(0) == CivilDate(1970, 0, 1)
  {
    var d := DaysFromCivil(1970, 0, 1);
    assert d == 0 by {
      assert ShiftedYear(1970, 0) == 1969 && 1969 / 400 == 4 && 1969 % 400 == 369;
      assert YearStart(369) == 134774 && MonthStart(ShiftedMonth(0)) == 306;
    }
    CivilRoundTrip(1970, 0, 1);
  }

  /** Every timestamp of the first day, midnight included, is on 1 January 1970. */
  lemma EpochTimestamp(t: int)
    requires 0 <= t < MsPerDay
    ensures CivilFromDays(DayOf(t)) == CivilDate(1970, 0, 1)
  {
    assert DayOf(t) == 0;
    Epoch();
  }

  /** 29 February 2024 is day 19782. */
  lemma LeapDay2024()
    ensures DaysFromCivil(2024, 1, 29) == 19782 && CivilFromDays(19782) == CivilDate(2024, 1, 29)
  {
    var d := DaysFromCivil(2024, 1, 29);
    assert d == 19782 by {
      assert ShiftedYear(2024, 1) == 2023 && 2023 / 400 == 5 && 2023 % 400 == 23;
      assert YearStart(23) == 8400 && MonthStart(ShiftedMonth(1)) == 337;
    }
    CivilRoundTrip(2024, 1, 29);
  }

  /** `getMonth()`, from 0 (January) to 11. */
  function MonthOf(t: int): int {
    CivilFromDays(DayOf(t)).month
  }

  /** `getFullYear()`. */
  function YearOf(t: int): int {
    CivilFromDays(DayOf(t)).year
  }

  /** `d.setMonth(d.getMonth() - n)`: same day of month and time of day, `n` months earlier,
      with JavaScript's overflow into the following month when that day does not exist. */
  function MinusMonths(t: int, n: int): int {
    MonthsBack(CivilFromDays(DayOf(t)), n) * MsPerDay + (t - StartOfDay(t))
  }

  /** The day count of the same day of the month `n` months before `date`; a day past the end of
      that month runs on into the next. */
  function MonthsBack(date: CivilDate, n: int): int {
    DaysFromCivil(date.year, date.month - n, date.day)
  }

  // The civil-date algorithms count years from 1 March of an era of 400 years (146097 days);
  // the definitions and lemmas below take them apart step by step.

  /** Leap years of the proleptic Gregorian calendar. */
  predicate IsLeap(year: int) {
    year % 4 == 0 && (year % 100 != 0 || year % 400 == 0)
  }

  /** The length of month `month` (0 = January) of `year`. */
  function DaysInMonth(year: int, month: int): int
    requires 0 <= month < 12
  {
    if month == 1 then (if IsLeap(year) then 29 else 28)
    else if month == 3 || month == 5 || month == 8 || month == 10 then 30
    else 31
  }

  /** The day of its era on which year `yoe` of the era starts (years start on 1 March). */
  function YearStart(yoe: int): int {
    365 * yoe + yoe / 4 - yoe / 100
  }

  /** The year of the era of day `doe` of the era, as the algorithm computes it. */
  function YoeOf(doe: int): int {
    (doe - doe / 1460 + doe / 36524 - doe / 146096) / 365
  }

  /** Whether year `yoe` of the era holds a 29 February (the one at its end). */
  predicate LeapInEra(yoe: int) {
    (yoe + 1) % 4 == 0 && ((yoe + 1) % 100 != 0 || yoe == 399)
  }

  /** The number of days of year `yoe` of the era. */
  function YearLength(yoe: int): int {
    if LeapInEra(yoe) then 366 else 365
  }

  /** `x / k` is the `n` with `k * n <= x < k * (n + 1)`. */
  lemma DivUnique(x: int, k: int, n: int)
    requires k > 0 && k * n <= x < k * n + k
    ensures x / k == n
  {
    var d := x / k;
    assert x == k * d + x % k;
    if d < n {
      MulGap(k, d, n);
    } else if n < d {
      MulGap(k, n, d);
    }
  }

  /** Multiples of `k` are at least `k` apart. */
  lemma MulGap(k: int, a: int, b: int)
    requires k > 0 && a < b
    ensures k * a + k <= k * b
  {
    var e := b - a;
    assert e >= 1;
    assert k * b == k * a + k * e;
    assert k * e >= k;
  }

  /** A year of the era split into centuries, four-year cycles and years. */
  lemma Step1(yoe: int) returns (c: int, q: int, r: int)
    requires 0 <= yoe < 400
    ensures yoe == 100 * c + 4 * q + r && 0 <= c < 4 && 0 <= q < 25 && 0 <= r < 4
    ensures YearStart(yoe) == 36524 * c + 1461 * q + 365 * r
  {
    c := yoe / 100;
    q := (yoe % 100) / 4;
    r := yoe % 4;
    assert yoe == 100 * c + 4 * q + r;
    DivUnique(yoe, 4, 25 * c + q);
  }

  /** Only the last year of a four-year cycle has a 366th day, and not at the end of a
      century other than the era's last. */
  lemma Step2(yoe: int, doy: int, c: int, q: int, r: int)
    requires 0 <= yoe < 400 && 0 <= doy < YearLength(yoe)
    requires yoe == 100 * c + 4 * q + r && 0 <= c < 4 && 0 <= q < 25 && 0 <= r < 4
    ensures doy == 365 ==> r == 3 && (q != 24 || c == 3)
  {
  }

  /** `YoeOf` recovers the year of the era from any day of that year. */
  lemma YoeInverse(yoe: int, doy: int)
    requires 0 <= yoe < 400 && 0 <= doy < YearLength(yoe)
    ensures YoeOf(YearStart(yoe) + doy) == yoe
  {
    var c, q, r := Step1(yoe);
    Step2(yoe, doy, c, q, r);
    var doe := YearStart(yoe) + doy;
    var w := 24 * c + q + 365 * r + doy;
    var b := if w >= 1460 then 1 else 0;
    DivUnique(doe, 1460, 25 * c + q + b);
    var last := if doe == 146096 then 1 else 0;
    DivUnique(doe, 146096, last);
    DivUnique(doe, 36524, c + last);
    DivUnique(365 * yoe + doy - b, 365, yoe);
  }

  /** Consecutive years of the era start one year length apart. */
  lemma YearStep(k: int)
    requires 0 <= k < 399
    ensures YearStart(k + 1) == YearStart(k) + YearLength(k)
  {
    DivStep(k, 4);
    DivStep(k, 100);
    if (k + 1) % 100 == 0 {
      ModFactor(k + 1, 25, 4);
    }
  }

  /** Counting up by one raises the quotient exactly when the count becomes a multiple. */
  lemma DivStep(x: int, k: int)
    requires k > 0
    ensures (x + 1) / k == x / k + (if (x + 1) % k == 0 then 1 else 0)
  {
    var q, r := x / k, x % k;
    assert x == k * q + r && 0 <= r < k;
    if r + 1 == k {
      assert x + 1 == k * (q + 1);
      DivUnique(x + 1, k, q + 1);
      ModShift(0, k, q + 1);
    } else {
      DivUnique(x + 1, k, q);
      ModShift(r + 1, k, q);
    }
  }

  /** A multiple of `a * b` is a multiple of `b`. */
  lemma ModFactor(x: int, a: int, b: int)
    requires b > 0 && a > 0 && x % (a * b) == 0
    ensures x % b == 0
  {
    var q := x / (a * b);
    assert x == (a * b) * q;
    assert x == b * (a * q);
    ModShift(0, b, a * q);
  }

  /** Every day of the era lies in the year `YoeOf` names. */
  lemma {:induction false} FindYear(doe: int, k: int)
    requires 0 <= k <= 399 && YearStart(k) <= doe < 146097
    ensures var y := YoeOf(doe);
      0 <= y < 400 && YearStart(y) <= doe < YearStart(y) + YearLength(y)
    decreases 399 - k
  {
    if k < 399 {
      YearStep(k);
    }
    if k == 399 || doe < YearStart(k + 1) {
      YoeInverse(k, doe - YearStart(k));
    } else {
      FindYear(doe, k + 1);
    }
  }

  /** The day of the year on which month `mp` starts, counting months from March. */
  function MonthStart(mp: int): int {
    (153 * mp + 2) / 5
  }

  /** The length of month `mp`, counting months from March. */
  function MonthLength(mp: int, leap: bool): int {
    if mp == 11 then (if leap then 29 else 28)
    else if mp == 1 || mp == 3 || mp == 6 || mp == 8 then 30
    else 31
  }

  /** The month formula recovers the month from any of its days. */
  lemma MonthInverse(mp: int, d: int, leap: bool)
    requires 0 <= mp < 12 && 1 <= d <= MonthLength(mp, leap)
    ensures (5 * (MonthStart(mp) + d - 1) + 2) / 153 == mp
  {
    DivUnique(5 * (MonthStart(mp) + d - 1) + 2, 153, mp);
  }

  /** Every day of the year lies in the month the month formula names. */
  lemma {:induction false} FindMonth(doy: int, leap: bool, k: int)
    requires 0 <= k < 12 && MonthStart(k) <= doy < (if leap then 366 else 365)
    ensures var mp := (5 * doy + 2) / 153;
      0 <= mp < 12 && MonthStart(mp) <= doy < MonthStart(mp) + MonthLength(mp, leap)
    decreases 12 - k
  {
    if k == 11 || doy < MonthStart(k + 1) {
      MonthInverse(k, doy - MonthStart(k) + 1, leap);
    } else {
      FindMonth(doy, leap, k + 1);
    }
  }

  /** Adding a multiple of `k` does not change the remainder modulo `k`. */
  lemma ModShift(x: int, k: int, n: int)
    requires k > 0
    ensures (k * n + x) % k == x % k
  {
    assert x == k * (x / k) + x % k;
    assert k * n + k * (x / k) == k * (n + x / k);
    DivUnique(k * n + x, k, n + x / k);
  }

  /** The calendar year that ends year `yoe` of era `era` is leap exactly when that year of the
      era holds a 29 February. */
  lemma LeapShift(era: int, yoe: int)
    requires 0 <= yoe < 400
    ensures IsLeap(era * 400 + yoe + 1) == LeapInEra(yoe)
  {
    ModShift(yoe + 1, 4, era * 100);
    ModShift(yoe + 1, 100, era * 4);
    ModShift(yoe + 1, 400, era);
    assert 4 * (era * 100) == era * 400 && 100 * (era * 4) == era * 400 && 400 * era == era * 400;
  }

  /** The year counted from 1 March that holds month `month` (0..11) of `year`. */
  function ShiftedYear(year: int, month: int): int {
    if month <= 1 then year - 1 else year
  }

  /** Month `month` (0 = January) counted from March. */
  function ShiftedMonth(month: int): int {
    if month >= 2 then month - 2 else month + 10
  }

  /** `DaysFromCivil` of a month in 0..11 in terms of the era decomposition. */
  lemma DaysFromCivilParts(year: int, month: int, day: int)
    requires 0 <= month < 12
    ensures var y := ShiftedYear(year, month);
      DaysFromCivil(year, month, day)
        == (y / 400) * 146097 + YearStart(y % 400) + MonthStart(ShiftedMonth(month)) + day - 1 - 719468
  {
    assert month / 12 == 0 && month % 12 == month;
  }

  /** Decoding a day of an era given by a year of the era, a month and a day. */
  lemma CivilInEraAt(era: int, yoe: int, mp: int, d: int)
    requires 0 <= yoe < 400 && 0 <= mp < 12 && 1 <= d <= MonthLength(mp, LeapInEra(yoe))
    ensures CivilInEra(era, YearStart(yoe) + MonthStart(mp) + d - 1)
      == CivilDate(era * 400 + yoe + (if mp >= 10 then 1 else 0), if mp < 10 then mp + 2 else mp - 10, d)
  {
    var doe := YearStart(yoe) + MonthStart(mp) + d - 1;
    var doy := MonthStart(mp) + d - 1;
    assert doy < YearLength(yoe);
    YoeInverse(yoe, doy);
    assert YearStart(yoe) + doy == doe;
    assert YoeOf(doe) == yoe;
    assert doe - YearStart(YoeOf(doe)) == doy;
    MonthInverse(mp, d, LeapInEra(yoe));
    assert (5 * (doe - YearStart(YoeOf(doe))) + 2) / 153 == mp;
    assert doe - YearStart(YoeOf(doe)) - MonthStart((5 * (doe - YearStart(YoeOf(doe))) + 2) / 153) + 1 == d;
  }

  /** Decoding a day count built from an era, a year of the era, a month and a day. */
  lemma CivilFromDaysAt(days: int, era: int, yoe: int, mp: int, d: int)
    requires 0 <= yoe < 400 && 0 <= mp < 12 && 1 <= d <= MonthLength(mp, LeapInEra(yoe))
    requires days + 719468 == era * 146097 + YearStart(yoe) + MonthStart(mp) + d - 1
    ensures CivilFromDays(days)
      == CivilDate(era * 400 + yoe + (if mp >= 10 then 1 else 0), if mp < 10 then mp + 2 else mp - 10, d)
  {
    var doe := YearStart(yoe) + MonthStart(mp) + d - 1;
    assert MonthStart(mp) + d - 1 < YearLength(yoe);
    YearBound(yoe);
    DivUnique(days + 719468, 146097, era);
    assert (days + 719468) % 146097 == doe;
    CivilInEraAt(era, yoe, mp, d);
  }

  /** Decoding the day count of a valid date gives back that date. */
  lemma CivilRoundTrip(year: int, month: int, day: int)
    requires 0 <= month < 12 && 1 <= day <= DaysInMonth(year, month)
    ensures CivilFromDays(DaysFromCivil(year, month, day)) == CivilDate(year, month, day)
  {
    var y := ShiftedYear(year, month);
    var era := y / 400;
    var yoe := y % 400;
    var mp := ShiftedMonth(month);
    LeapShift(era, yoe);
    DaysFromCivilParts(year, month, day);
    CivilFromDaysAt(DaysFromCivil(year, month, day), era, yoe, mp, day);
  }

  /** The years of an era fit in its 146097 days. */
  lemma YearBound(yoe: int)
    requires 0 <= yoe < 400
    ensures 0 <= YearStart(yoe) && YearStart(yoe) + YearLength(yoe) <= 146097
  {
  }

  /** Encoding a date given by an era, a year of the era, a month and a day. */
  lemma DaysFromCivilAt(year: int, month: int, d: int, era: int, yoe: int, mp: int)
    requires 0 <= yoe < 400 && 0 <= mp < 12
    requires year == era * 400 + yoe + (if mp >= 10 then 1 else 0)
    requires month == if mp < 10 then mp + 2 else mp - 10
    ensures DaysFromCivil(year, month, d) == era * 146097 + YearStart(yoe) + MonthStart(mp) + d - 1 - 719468
    ensures DaysInMonth(year, month) == MonthLength(mp, LeapInEra(yoe))
  {
    assert ShiftedYear(year, month) == era * 400 + yoe;
    assert ShiftedMonth(month) == mp;
    LeapShift(era, yoe);
    DaysFromCivilParts(year, month, d);
    DivUnique(era * 400 + yoe, 400, era);
  }

  /** Every day count decodes to a valid date whose day count it is. */
  lemma DaysRoundTrip(days: int)
    ensures var c := CivilFromDays(days);
      0 <= c.month < 12 && 1 <= c.day <= DaysInMonth(c.year, c.month)
      && DaysFromCivil(c.year, c.month, c.day) == days
  {
    var era := (days + 719468) / 146097;
    var doe := (days + 719468) % 146097;
    FindYear(doe, 0);
    var yoe := YoeOf(doe);
    var doy := doe - YearStart(yoe);
    FindMonth(doy, LeapInEra(yoe), 0);
    var mp := (5 * doy + 2) / 153;
    var c := CivilFromDays(days);
    assert c == CivilInEra(era, doe);
    DaysFromCivilAt(c.year, c.month, c.day, era, yoe, mp);
  }

  /** The day of the month enters the day count linearly. */
  lemma DaysFromCivilDay(year: int, month: int, day: int)
    ensures DaysFromCivil(year, month, day) == DaysFromCivil(year, month, 1) + day - 1
  {
  }

  /** A month outside 0..11 is the month `month % 12` of the year `year + month / 12`. */
  lemma MonthNormalize(year: int, month: int, day: int)
    ensures DaysFromCivil(year, month, day) == DaysFromCivil(year + month / 12, month % 12, day)
  {
    assert (month % 12) / 12 == 0 && (month % 12) % 12 == month % 12;
  }

  /** The first of the next month comes `DaysInMonth` days after the first of this month. */
  lemma MonthStep(year: int, month: int)
    requires 0 <= month < 12
    ensures DaysFromCivil(year, month + 1, 1) == DaysFromCivil(year, month, 1) + DaysInMonth(year, month)
  {
    var y := ShiftedYear(year, month);
    var era := y / 400;
    var yoe := y % 400;
    if month == 11 {
      MonthStepDecember(year, era, yoe);
    } else if month == 1 {
      MonthStepFebruary(year, era, yoe);
    } else {
      MonthStepWithinYear(year, month, era, yoe);
    }
  }

  /** `MonthStep` for the months that do not end a year counted from 1 March or from 1 January. */
  lemma MonthStepWithinYear(year: int, month: int, era: int, yoe: int)
    requires 0 <= month < 12 && month != 1 && month != 11
    requires 0 <= yoe < 400 && ShiftedYear(year, month) == era * 400 + yoe
    ensures DaysFromCivil(year, month + 1, 1) == DaysFromCivil(year, month, 1) + DaysInMonth(year, month)
  {
    var mp := ShiftedMonth(month);
    DaysFromCivilAt(year, month, 1, era, yoe, mp);
    DaysFromCivilAt(year, month + 1, 1, era, yoe, mp + 1);
    MonthStartStep(mp, LeapInEra(yoe));
  }

  /** Consecutive months counted from March start one month length apart. */
  lemma MonthStartStep(mp: int, leap: bool)
    requires 0 <= mp < 11
    ensures MonthStart(mp + 1) == MonthStart(mp) + MonthLength(mp, leap)
  {
    DivUnique(153 * mp + 2, 5, MonthStart(mp));
  }

  /** `MonthStep` for December, which moves to the next calendar year. */
  lemma MonthStepDecember(year: int, era: int, yoe: int)
    requires 0 <= yoe < 400 && year == era * 400 + yoe
    ensures DaysFromCivil(year, 12, 1) == DaysFromCivil(year, 11, 1) + 31
  {
    DaysFromCivilAt(year, 11, 1, era, yoe, 9);
    assert MonthStart(9) == 275 && MonthStart(10) == 306;
    MonthNormalize(year, 12, 1);
    DaysFromCivilAt(year + 1, 0, 1, era, yoe, 10);
  }

  /** `MonthStep` for February, which ends a year counted from 1 March. */
  lemma MonthStepFebruary(year: int, era: int, yoe: int)
    requires 0 <= yoe < 400 && year - 1 == era * 400 + yoe
    ensures DaysFromCivil(year, 2, 1) == DaysFromCivil(year, 1, 1) + DaysInMonth(year, 1)
  {
    DaysFromCivilAt(year, 1, 1, era, yoe, 11);
    assert MonthStart(11) == 337 && MonthStart(0) == 0;
    if yoe < 399 {
      YearStep(yoe);
      DaysFromCivilAt(year, 2, 1, era, yoe + 1, 0);
    } else {
      assert YearStart(399) == 145731;
      DaysFromCivilAt(year, 2, 1, era + 1, 0, 0);
    }
  }

  /** Moving on one month from the first of month `k` adds the length of month `k`. */
  lemma MonthAdvance(year: int, k: int)
    ensures DaysFromCivil(year, k + 1, 1) == DaysFromCivil(year, k, 1) + DaysInMonth(year + k / 12, k % 12)
  {
    MonthAdvanceAt(year, k, k / 12, k % 12);
  }

  /** `MonthAdvance` with the quotient and remainder of `k` by 12 given. */
  lemma MonthAdvanceAt(year: int, k: int, q: int, m: int)
    requires 0 <= m < 12 && k == 12 * q + m
    ensures DaysFromCivil(year, k + 1, 1) == DaysFromCivil(year, k, 1) + DaysInMonth(year + q, m)
  {
    var y := year + q;
    MonthAt(year, k, y, m);
    MonthStep(y, m);
    if m == 11 {
      MonthAt(year, k + 1, y + 1, 0);
      MonthAt(y, 12, y + 1, 0);
    } else {
      MonthAt(year, k + 1, y, m + 1);
    }
  }

  /** Month `k` of `year` is month `m` of year `y` when `k == 12 * (y - year) + m`. */
  lemma MonthAt(year: int, k: int, y: int, m: int)
    requires 0 <= m < 12 && k == 12 * (y - year) + m
    ensures DaysFromCivil(year, k, 1) == DaysFromCivil(y, m, 1)
  {
    DivUnique(k, 12, y - year);
    MonthNormalize(year, k, 1);
    assert year + k / 12 == y && k % 12 == m;
  }

  /** The next month starts on a later day. */
  lemma NextMonthLater(year: int, k: int)
    ensures DaysFromCivil(year, k, 1) < DaysFromCivil(year, k + 1, 1)
  {
    MonthAdvance(year, k);
    DaysInMonthBound(year + k / 12, k % 12);
  }

  /** Later months start on later days. */
  lemma {:induction false} MonthsIncrease(year: int, j: int, k: int)
    requires j < k
    ensures DaysFromCivil(year, j, 1) < DaysFromCivil(year, k, 1)
    decreases k - j
  {
    NextMonthLater(year, k - 1);
    if j < k - 1 {
      MonthsIncrease(year, j, k - 1);
    }
  }

  /** The day of a timestamp made of a day count and a time of day is that day count. */
  lemma DayOfComposed(days: int, timeOfDay: int)
    requires 0 <= timeOfDay < MsPerDay
    ensures DayOf(days * MsPerDay + timeOfDay) == days
  {
    DivUnique(days * MsPerDay + timeOfDay, MsPerDay, days);
  }

  /** `MinusMonths` moves to the day `MonthsBack` gives and keeps the time of day. */
  lemma MinusMonthsDay(t: int, n: int)
    ensures DayOf(MinusMonths(t, n)) == MonthsBack(CivilFromDays(DayOf(t)), n)
    ensures MinusMonths(t, n) - StartOfDay(MinusMonths(t, n)) == t - StartOfDay(t)
  {
    DayOfComposed(MonthsBack(CivilFromDays(DayOf(t)), n), t - StartOfDay(t));
  }

  /** An earlier day at the same time of day is an earlier timestamp. */
  lemma ScaleLess(x: int, y: int, timeOfDay: int)
    requires x < y
    ensures x * MsPerDay + timeOfDay < y * MsPerDay + timeOfDay
  {
    MulGap(MsPerDay, x, y);
  }

  /** Going back `n >= 0` months never moves forward in time, and going back at least one month
      always moves back. */
  lemma MinusMonthsEarlier(t: int, n: int)
    requires n >= 0
    ensures MinusMonths(t, n) <= t
    ensures n > 0 ==> MinusMonths(t, n) < t
    ensures n == 0 ==> MinusMonths(t, n) == t
  {
    var c := CivilFromDays(DayOf(t));
    DaysRoundTrip(DayOf(t));
    MonthsBackEarlier(c, n);
    assert t == DayOf(t) * MsPerDay + (t - StartOfDay(t));
    if n > 0 {
      ScaleLess(MonthsBack(c, n), DayOf(t), t - StartOfDay(t));
    }
  }

  /** `n >= 0` months back from a valid date is never a later day, and at least one month back is
      an earlier one. */
  lemma MonthsBackEarlier(date: CivilDate, n: int)
    requires n >= 0
    requires 0 <= date.month < 12 && 1 <= date.day <= DaysInMonth(date.year, date.month)
    ensures MonthsBack(date, n) <= DaysFromCivil(date.year, date.month, date.day)
    ensures n > 0 ==> MonthsBack(date, n) < DaysFromCivil(date.year, date.month, date.day)
    ensures n == 0 ==> MonthsBack(date, n) == DaysFromCivil(date.year, date.month, date.day)
  {
    DaysFromCivilDay(date.year, date.month - n, date.day);
    DaysFromCivilDay(date.year, date.month, date.day);
    if n > 0 {
      MonthsIncrease(date.year, date.month - n, date.month);
    }
  }

  /** Day `day` of month `k` of `year` has the day count of day `day` of month `month` of `y`. */
  lemma DaysAt(year: int, k: int, day: int, y: int, month: int)
    requires 0 <= month < 12 && k == 12 * (y - year) + month
    ensures DaysFromCivil(year, k, day) == DaysFromCivil(y, month, day)
  {
    DaysFromCivilDay(year, k, day);
    MonthAt(year, k, y, month);
    DaysFromCivilDay(y, month, day);
  }

  /** Past the end of month `month` of `y`, the day count runs on into the next month. */
  lemma DaysAtOverflow(year: int, k: int, day: int, y: int, month: int)
    requires 0 <= month < 11 && k == 12 * (y - year) + month
    ensures DaysFromCivil(year, k, day) == DaysFromCivil(y, month + 1, day - DaysInMonth(y, month))
  {
    DaysAt(year, k, day, y, month);
    DaysFromCivilDay(y, month, day);
    MonthStep(y, month);
    DaysFromCivilDay(y, month + 1, day - DaysInMonth(y, month));
  }

  /** `n` months back lands on the same day of the month `n` months earlier when that month has
      it. */
  lemma MonthsBackSameDay(date: CivilDate, n: int)
    requires 1 <= date.day <= DaysInMonth(date.year + (date.month - n) / 12, (date.month - n) % 12)
    ensures CivilFromDays(MonthsBack(date, n))
      == CivilDate(date.year + (date.month - n) / 12, (date.month - n) % 12, date.day)
  {
    MonthSplit(date.month - n);
    MonthsBackLandsOn(date, n, date.year + (date.month - n) / 12, (date.month - n) % 12);
  }

  /** `MonthsBackSameDay` with the target month given as month `m` of year `y`. */
  lemma MonthsBackLandsOn(date: CivilDate, n: int, y: int, m: int)
    requires 0 <= m < 12 && date.month - n == 12 * (y - date.year) + m
    requires 1 <= date.day <= DaysInMonth(y, m)
    ensures CivilFromDays(MonthsBack(date, n)) == CivilDate(y, m, date.day)
  {
    var d := MonthsBack(date, n);
    DaysAt(date.year, date.month - n, date.day, y, m);
    assert d == DaysFromCivil(y, m, date.day);
    CivilRoundTrip(y, m, date.day);
  }

  /** When the month `n` months earlier is too short for the day of the month, the surplus days
      run on into the month after it (30 February is 1 March in a leap year, 2 March otherwise). */
  lemma MonthsBackOverflow(date: CivilDate, n: int)
    requires DaysInMonth(date.year + (date.month - n) / 12, (date.month - n) % 12) < date.day <= 31
    ensures (date.month - n) % 12 < 11
    ensures CivilFromDays(MonthsBack(date, n))
      == CivilDate(date.year + (date.month - n) / 12, (date.month - n) % 12 + 1,
                   date.day - DaysInMonth(date.year + (date.month - n) / 12, (date.month - n) % 12))
  {
    MonthSplit(date.month - n);
    MonthsBackRunsOn(date, n, date.year + (date.month - n) / 12, (date.month - n) % 12);
  }

  /** `MonthsBackOverflow` with the target month given as month `m` of year `y`. */
  lemma MonthsBackRunsOn(date: CivilDate, n: int, y: int, m: int)
    requires 0 <= m < 12 && date.month - n == 12 * (y - date.year) + m
    requires DaysInMonth(y, m) < date.day <= 31
    ensures m < 11
    ensures CivilFromDays(MonthsBack(date, n)) == CivilDate(y, m + 1, date.day - DaysInMonth(y, m))
  {
    DaysInMonthBound(y, 11);
    var d := MonthsBack(date, n);
    var next := m + 1;
    var rest := date.day - DaysInMonth(y, m);
    DaysAtOverflow(date.year, date.month - n, date.day, y, m);
    assert d == DaysFromCivil(y, next, rest);
    CivilRoundTrip(y, next, rest);
  }

  /** Decoded months are in 0..11 and decoded days in 1..31. */
  lemma CivilRange(days: int)
    ensures 0 <= CivilFromDays(days).month < 12 && 1 <= CivilFromDays(days).day <= 31
  {
    DaysRoundTrip(days);
  }

  /** Months have 28 to 31 days. */
  lemma DaysInMonthBound(year: int, month: int)
    requires 0 <= month < 12
    ensures 28 <= DaysInMonth(year, month) <= 31
  {
  }

  /** Quotient and remainder of a month number by 12. */
  lemma MonthSplit(k: int)
    ensures k == 12 * (k / 12) + k % 12 && 0 <= k % 12 < 12
  {
  }

  /** A day count falls in month `month` of `year` exactly when it lies between the first of
      that month and the first of the next. */
  lemma InMonth(days: int, year: int, month: int)
    requires 0 <= month < 12
    ensures CivilFromDays(days).year == year && CivilFromDays(days).month == month
      <==> DaysFromCivil(year, month, 1) <= days < DaysFromCivil(year, month, 1) + DaysInMonth(year, month)
  {
    var c := CivilFromDays(days);
    DaysRoundTrip(days);
    DaysFromCivilDay(c.year, c.month, c.day);
    if DaysFromCivil(year, month, 1) <= days < DaysFromCivil(year, month, 1) + DaysInMonth(year, month) {
      var d := days - DaysFromCivil(year, month, 1) + 1;
      DaysFromCivilDay(year, month, d);
      CivilRoundTrip(year, month, d);
    }
  }
}
