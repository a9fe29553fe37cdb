/** dateParser.js: `parseDateFromDDMMYYYY`, which turns "DD/MM/YYYY" into a
    `Date`, together with the part of the `Date` constructor it relies on:
    the ECMAScript date-only form "YYYY-MM-DD", read as midnight UTC. A
    `Date` is identified with its time value in milliseconds. */
module DateParser {
  import opened Common

  const MsPerDay: int := 86400000

  predicate IsLeapYear(y: int) {
    y % 4 == 0 && (y % 100 != 0 || y % 400 == 0)
  }

  function DaysInYear(y: int): int {
    if IsLeapYear(y) then 366 else 365
  }

  function DaysInMonth(y: int, m: int): (n: int)
    requires 1 <= m <= 12
    ensures 28 <= n <= 31
  {
    if m == 2 then (if IsLeapYear(y) then 29 else 28)
    else if m == 4 || m == 6 || m == 9 || m == 11 then 30
    else 31
  }

  /** ECMAScript's DayFromYear: the day number of 1 January of year `y`,
      counted from 1 January 1970 (`/` on a positive divisor is floor
      division, as the standard's formula requires). */
  function DayFromYear(y: int): int {
    365 * (y - 1970) + (y - 1969) / 4 - (y - 1901) / 100 + (y - 1601) / 400
  }

  /** Days in the months of year `y` before month `m`. */
  function DaysBeforeMonth(y: int, m: int): (n: int)
    requires 1 <= m <= 13
    ensures n >= 0
  {
    if m == 1 then 0 else DaysBeforeMonth(y, m - 1) + DaysInMonth(y, m - 1)
  }

  /** ECMAScript's MakeDay for a month in 1..12 and any day of month: a day
      past the end of the month carries into the next. */
  function DayNumber(y: int, m: int, d: int): int
    requires 1 <= m <= 12
  {
    DayFromYear(y) + DaysBeforeMonth(y, m) + d - 1
  }

  /** The time value of midnight UTC of that day. */
  function TimeValue(y: int, m: int, d: int): int
    requires 1 <= m <= 12
  {
    DayNumber(y, m, d) * MsPerDay
  }

  /** Year, month and day name an actual day of the proleptic Gregorian calendar. */
  predicate IsCalendarDate(y: int, m: int, d: int) {
    1 <= m <= 12 && 1 <= d <= DaysInMonth(y, m)
  }

  /** The text shape "YYYY-MM-DD". */
  predicate IsIsoShape(s: string) {
    |s| == 10 && s[4] == '-' && s[7] == '-'
    && AllDigits(s[..4]) && AllDigits(s[5..7]) && AllDigits(s[8..])
  }

  /** `new Date(iso).getTime()` for the strings `parseDateFromDDMMYYYY`
      builds, as V8 evaluates it: the date-only form with a month from 1 to
      12 and a day from 1 to 31 is accepted, days beyond the month's length
      carrying into the next month; anything else is `NaN`, here `None`. */
  function DateFromIso(iso: string): (t: Option<int>)
    ensures t.Some? ==> IsIsoShape(iso)
    ensures IsIsoShape(iso) ==>
      (t.Some? <==> 1 <= DecimalValue(iso[5..7]) <= 12 && 1 <= DecimalValue(iso[8..]) <= 31)
    ensures t.Some? ==> t.value == TimeValue(DecimalValue(iso[..4]), DecimalValue(iso[5..7]), DecimalValue(iso[8..]))
  {
    if !IsIsoShape(iso) then None
    else
      var y, m, d := DecimalValue(iso[..4]), DecimalValue(iso[5..7]), DecimalValue(iso[8..]);
      if 1 <= m <= 12 && 1 <= d <= 31 then Some(TimeValue(y, m, d)) else None
  }

  /** `/^\d{1,2}$/`. */
  predicate IsDayOrMonthField(s: string) {
    1 <= |s| <= 2 && AllDigits(s)
  }

  /** `/^\d{4}$/`. */
  predicate IsYearField(s: string) {
    |s| == 4 && AllDigits(s)
  }

  /** The intermediate text: year padded to 4, month and day to 2, joined with "-". */
  function IsoString(year: string, month: string, day: string): (iso: string)
    ensures |year| <= 4 && |month| <= 2 && |day| <= 2 ==>
      |iso| == 10 && iso[4] == '-' && iso[7] == '-'
  {
    var y, m, d := PadStart(year, 4, '0'), PadStart(month, 2, '0'), PadStart(day, 2, '0');
    var iso := y + "-" + m + "-" + d;
    assert |year| <= 4 && |month| <= 2 && |day| <= 2 ==> |iso| == 10 && iso[4] == '-' && iso[7] == '-' by {
      if |year| <= 4 && |month| <= 2 && |day| <= 2 {
        DashedSlices(y, m, d);
      }
    }
    iso
  }

  /** For fields that passed the checks the intermediate text has the ISO
      shape, and its fields carry the values of the checked fields. */
  lemma {:induction false} IsoStringFields(year: string, month: string, day: string)
    requires IsYearField(year) && IsDayOrMonthField(month) && IsDayOrMonthField(day)
    ensures var iso := IsoString(year, month, day);
      && IsIsoShape(iso)
      && DecimalValue(iso[..4]) == DecimalValue(year)
      && DecimalValue(iso[5..7]) == DecimalValue(month)
      && DecimalValue(iso[8..]) == DecimalValue(day)
  {
    var y, m, d := PadStart(year, 4, '0'), PadStart(month, 2, '0'), PadStart(day, 2, '0');
    ZeroPadDigits(year, 4);
    ZeroPadDigits(month, 2);
    ZeroPadDigits(day, 2);
    DashedSlices(y, m, d);
  }

  lemma {:induction false} DashedSlices(y: string, m: string, d: string)
    requires |y| == 4 && |m| == 2 && |d| == 2
    ensures var s := y + "-" + m + "-" + d;
      |s| == 10 && s[4] == '-' && s[7] == '-' && s[..4] == y && s[5..7] == m && s[8..] == d
  {
  }

  /** `parseDateFromDDMMYYYY(dateStr)`: the time value of the date, or
      `None` (null) — for a missing or empty input, one that does not split on
      "/" into exactly three parts, parts that after trimming are not 1–2
      digits (day, month) and 4 digits (year), or a month outside 1..12 or a
      day outside 1..31. It never fails otherwise. */
  function ParseDateFromDDMMYYYY(dateStr: Option<string>): (r: Option<int>)
    ensures !Truthy(dateStr) ==> r.None?
    ensures Truthy(dateStr) && |Split(dateStr.value, '/')| != 3 ==> r.None?
    ensures Truthy(dateStr) && |Split(dateStr.value, '/')| == 3 ==>
      var parts := Split(dateStr.value, '/');
      var day, month, year := Trim(parts[0]), Trim(parts[1]), Trim(parts[2]);
      (r.Some? <==>
         IsDayOrMonthField(day) && IsDayOrMonthField(month) && IsYearField(year)
         && 1 <= DecimalValue(month) <= 12 && 1 <= DecimalValue(day) <= 31)
      && (r.Some? ==> r.value == TimeValue(DecimalValue(year), DecimalValue(month), DecimalValue(day)))
  {
    if !Truthy(dateStr) then None
    else
      var parts := Split(dateStr.value, '/');
      if |parts| != 3 then None
      else
        var day, month, year := Trim(parts[0]), Trim(parts[1]), Trim(parts[2]);
        if !IsDayOrMonthField(day) || !IsDayOrMonthField(month) || !IsYearField(year) then None
        else
          IsoStringFields(year, month, day);
          DateFromIso(IsoString(year, month, day))
  }

  /** The "DD/MM/YYYY" rendering of a day, with zero padding. */
  function FormatDDMMYYYY(y: nat, m: nat, d: nat): string {
    PadStart(DecimalString(d), 2, '0') + "/" + PadStart(DecimalString(m), 2, '0') + "/"
    + PadStart(DecimalString(y), 4, '0')
  }

  lemma {:induction false} DigitsHaveNoSeparator(s: string)
    requires AllDigits(s)
    ensures '/' !in s
  {
  }

  /** A padded field of digits is its own trim. */
  lemma {:induction false} DigitsTrimmed(s: string)
    requires AllDigits(s)
    ensures Trim(s) == s
  {
    if s != [] {
      assert IsDigit(s[0]) && IsDigit(s[|s| - 1]);
    }
    TrimFixed(s);
  }

  /** Round trip: every year 0..9999, month 1..12 and day 1..31, written
      as "DD/MM/YYYY", parses to midnight UTC of that day. */
  lemma {:induction false} FormatThenParse(y: nat, m: nat, d: nat)
    requires y <= 9999 && 1 <= m <= 12 && 1 <= d <= 31
    ensures ParseDateFromDDMMYYYY(Some(FormatDDMMYYYY(y, m, d))) == Some(TimeValue(y, m, d))
  {
    var ds, ms, ys := DecimalString(d), DecimalString(m), DecimalString(y);
    var D, M, Y := PadStart(ds, 2, '0'), PadStart(ms, 2, '0'), PadStart(ys, 4, '0');
    ZeroPadDigits(ds, 2);
    ZeroPadDigits(ms, 2);
    ZeroPadDigits(ys, 4);
    DigitsHaveNoSeparator(D);
    DigitsHaveNoSeparator(M);
    DigitsHaveNoSeparator(Y);
    assert |D| == 2 && |M| == 2 && |Y| == 4;
    assert DecimalValue(D) == d && DecimalValue(M) == m && DecimalValue(Y) == y;
    assert FormatDDMMYYYY(y, m, d) == D + "/" + M + "/" + Y;
    ParseFields(D, M, Y);
  }

  /** Three well-formed fields joined with "/" parse by their values. */
  lemma {:induction false} ParseFields(D: string, M: string, Y: string)
    requires IsDayOrMonthField(D) && IsDayOrMonthField(M) && IsYearField(Y)
    ensures ParseDateFromDDMMYYYY(Some(D + "/" + M + "/" + Y)) ==
      if 1 <= DecimalValue(M) <= 12 && 1 <= DecimalValue(D) <= 31
      then Some(TimeValue(DecimalValue(Y), DecimalValue(M), DecimalValue(D)))
      else None
  {
    DigitsHaveNoSeparator(D);
    DigitsHaveNoSeparator(M);
    DigitsHaveNoSeparator(Y);
    SplitThree(D, M, Y);
    DigitsTrimmed(D);
    DigitsTrimmed(M);
    DigitsTrimmed(Y);
  }

  lemma {:induction false} SplitThree(a: string, b: string, c: string)
    requires '/' !in a && '/' !in b && '/' !in c
    ensures Split(a + "/" + b + "/" + c, '/') == [a, b, c]
  {
    assert a + "/" + b + "/" + c == a + ['/'] + (b + ['/'] + c);
    SplitPrefix(a, b + ['/'] + c, '/');
    SplitPrefix(b, c, '/');
    SplitNoSeparator(c, '/');
  }

  /** Successive years: 1 January of `y + 1` comes a year's length after
      1 January of `y`. */
  lemma {:induction false} YearStep(y: int)
    ensures DayFromYear(y + 1) == DayFromYear(y) + DaysInYear(y)
  {
    FloorStep(y - 1969, 4, y);
    FloorStep(y - 1901, 100, y);
    FloorStep(y - 1601, 400, y);
    DivisibilityChain(y);
    assert DayFromYear(y + 1) - DayFromYear(y) ==
      365 + (if y % 4 == 0 then 1 else 0) - (if y % 100 == 0 then 1 else 0) + (if y % 400 == 0 then 1 else 0);
  }

  /** A multiple of 400 is a multiple of 100, and a multiple of 100 one of 4. */
  lemma {:induction false} DivisibilityChain(y: int)
    ensures y % 400 == 0 ==> y % 100 == 0
    ensures y % 100 == 0 ==> y % 4 == 0
  {
    if y % 400 == 0 {
      DivUnique(y, 100, 4 * (y / 400), 0);
    }
    if y % 100 == 0 {
      DivUnique(y, 4, 25 * (y / 100), 0);
    }
  }

  /** `floor((a + 1) / n)` exceeds `floor(a / n)` by one exactly when `n`
      divides `a + 1`, that is, when it divides `y` for `y ≡ a + 1 (mod n)`. */
  lemma {:induction false} FloorStep(a: int, n: int, y: int)
    requires n > 0 && (y - (a + 1)) % n == 0
    ensures (a + 1) / n == a / n + (if y % n == 0 then 1 else 0)
  {
    var q, r := a / n, a % n;
    var k := (y - (a + 1)) / n;
    assert y == n * k + a + 1;
    if r == n - 1 {
      DivUnique(a + 1, n, q + 1, 0);
      DivUnique(y, n, q + 1 + k, 0);
    } else {
      DivUnique(a + 1, n, q, r + 1);
      DivUnique(y, n, q + k, r + 1);
    }
  }

  /** The twelve months fill the year. */
  lemma {:induction false} MonthsFillYear(y: int)
    ensures DaysBeforeMonth(y, 13) == DaysInYear(y)
  {
    var feb := DaysInMonth(y, 2);
    assert DaysBeforeMonth(y, 2) == 31;
    assert DaysBeforeMonth(y, 3) == 31 + feb;
    assert DaysBeforeMonth(y, 4) == 62 + feb;
    assert DaysBeforeMonth(y, 5) == 92 + feb;
    assert DaysBeforeMonth(y, 6) == 123 + feb;
    assert DaysBeforeMonth(y, 7) == 153 + feb;
    assert DaysBeforeMonth(y, 8) == 184 + feb;
    assert DaysBeforeMonth(y, 9) == 215 + feb;
    assert DaysBeforeMonth(y, 10) == 245 + feb;
    assert DaysBeforeMonth(y, 11) == 276 + feb;
    assert DaysBeforeMonth(y, 12) == 306 + feb;
    assert DaysBeforeMonth(y, 13) == 337 + feb;
  }

  lemma {:induction false} DaysBeforeMonthMonotone(y: int, m: int, m': int)
    requires 1 <= m <= m' <= 13
    ensures DaysBeforeMonth(y, m) <= DaysBeforeMonth(y, m')
    decreases m' - m
  {
    if m < m' {
      DaysBeforeMonthMonotone(y, m, m' - 1);
    }
  }

  lemma {:induction false} DayFromYearMonotone(y: int, y': int)
    requires y < y'
    ensures DayFromYear(y) + DaysInYear(y) <= DayFromYear(y')
    decreases y' - y
  {
    YearStep(y);
    if y + 1 < y' {
      DayFromYearMonotone(y + 1, y');
      YearStep(y + 1);
    }
  }

  /** A calendar date's day number lies within its year. */
  lemma {:induction false} DayNumberInYear(y: int, m: int, d: int)
    requires IsCalendarDate(y, m, d)
    ensures DayFromYear(y) <= DayNumber(y, m, d) < DayFromYear(y) + DaysInYear(y)
  {
    DaysBeforeMonthMonotone(y, m + 1, 13);
    MonthsFillYear(y);
  }

  /** Calendar order is time order: of two calendar dates the earlier one
      (by year, then month, then day) has the smaller time value, so the
      parsed values compare as the dates do. */
  lemma {:induction false} CalendarOrderIsTimeOrder(y: int, m: int, d: int, y': int, m': int, d': int)
    requires IsCalendarDate(y, m, d) && IsCalendarDate(y', m', d')
    requires y < y' || (y == y' && m < m') || (y == y' && m == m' && d < d')
    ensures TimeValue(y, m, d) < TimeValue(y', m', d')
  {
    if y < y' {
      DayNumberInYear(y, m, d);
      DayNumberInYear(y', m', d');
      DayFromYearMonotone(y, y');
    } else if m < m' {
      DaysBeforeMonthMonotone(y, m + 1, m');
    }
  }

  /** Days past the end of the month roll over: a day beyond the month's
      length denotes that many days into the next month, so "30/02/2024"
      parses to the same instant as "01/03/2024". */
  lemma {:induction false} DayOverflowRollsOver(y: int, m: int, d: int)
    requires 1 <= m <= 12 && DaysInMonth(y, m) < d
    ensures m < 12 ==> TimeValue(y, m, d) == TimeValue(y, m + 1, d - DaysInMonth(y, m))
    ensures m == 12 ==> TimeValue(y, m, d) == TimeValue(y + 1, 1, d - 31)
  {
    if m == 12 {
      YearStep(y);
      MonthsFillYear(y);
    }
  }

  /** The lenient reading at work: in a leap year "30/02" parses to the
      same instant as "01/03" (so "30/02/2024" is 1 March 2024). */
  lemma {:induction false} FebruaryThirtiethIsMarchFirst(y: nat)
    requires y <= 9999 && IsLeapYear(y)
    ensures ParseDateFromDDMMYYYY(Some(FormatDDMMYYYY(y, 2, 30)))
         == ParseDateFromDDMMYYYY(Some(FormatDDMMYYYY(y, 3, 1)))
  {
    FormatThenParse(y, 2, 30);
    FormatThenParse(y, 3, 1);
    DayOverflowRollsOver(y, 2, 30);
  }
}
