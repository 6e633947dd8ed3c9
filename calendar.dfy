/** Gregorian calendar dates, day arithmetic with month and year rollover, and the two
    textual forms the application uses: "D MMM" (the mock service and its seed data)
    and "DD-MM-YYYY" (the appointment screens and the demo server). */
module Calendar {
  import opened Wrappers
  import opened Text

  datatype Date = Date(year: nat, month: nat, day: nat)

  predicate IsLeapYear(y: nat)
  {
    y % 4 == 0 && (y % 100 != 0 || y % 400 == 0)
  }

  function DaysInMonth(y: nat, m: nat): (n: nat)
    requires 1 <= m <= 12
    ensures 28 <= n <= 31
  {
    if m == 2 then (if IsLeapYear(y) then 29 else 28)
    else if m == 4 || m == 6 || m == 9 || m == 11 then 30
    else 31
  }

  function YearLength(y: nat): nat
  {
    if IsLeapYear(y) then 366 else 365
  }

  predicate ValidDate(d: Date)
  {
    1 <= d.month <= 12 && 1 <= d.day <= DaysInMonth(d.year, d.month)
  }

  /** The calendar day after `d`: what `setDate(getDate() + 1)` does to a JavaScript date. */
  function NextDay(d: Date): (r: Date)
    requires ValidDate(d)
    ensures ValidDate(r)
  {
    if d.day < DaysInMonth(d.year, d.month) then Date(d.year, d.month, d.day + 1)
    else if d.month < 12 then Date(d.year, d.month + 1, 1)
    else Date(d.year + 1, 1, 1)
  }

  /** `n` calendar days after `d`. */
  function AddDays(d: Date, n: nat): (r: Date)
    requires ValidDate(d)
    ensures ValidDate(r)
    decreases n
  {
    if n == 0 then d else AddDays(NextDay(d), n - 1)
  }

  // ---- An independent count of days, the reference for AddDays ----

  function DaysBeforeYear(y: nat): nat
  {
    if y == 0 then 0 else DaysBeforeYear(y - 1) + YearLength(y - 1)
  }

  function DaysBeforeMonth(y: nat, m: nat): nat
    requires 1 <= m <= 13
  {
    if m == 1 then 0 else DaysBeforeMonth(y, m - 1) + DaysInMonth(y, m - 1)
  }

  /** Days elapsed between 1 January of year 0 and `d`. */
  function DayNumber(d: Date): nat
    requires ValidDate(d)
  {
    DaysBeforeYear(d.year) + DaysBeforeMonth(d.year, d.month) + d.day - 1
  }

  lemma MonthsFillYear(y: nat)
    ensures DaysBeforeMonth(y, 13) == YearLength(y)
  {
    var feb := DaysInMonth(y, 2);
    assert DaysBeforeMonth(y, 2) == 31;
    assert DaysBeforeMonth(y, 3) == 31 + feb;
    assert DaysBeforeMonth(y, 4) == 62 + feb;
    assert DaysBeforeMonth(y, 5) == 92 + feb;
    assert DaysBeforeMonth(y, 6) == 123 + feb;
    assert DaysBeforeMonth(y, 7) == 153 + feb;
    assert DaysBeforeMonth(y, 8) == 184 + feb;
    assert DaysBeforeMonth(y, 9) == 215 + feb;
    assert DaysBeforeMonth(y, 10) == 245 + feb;
    assert DaysBeforeMonth(y, 11) == 276 + feb;
    assert DaysBeforeMonth(y, 12) == 306 + feb;
  }

  lemma NextDayNumber(d: Date)
    requires ValidDate(d)
    ensures DayNumber(NextDay(d)) == DayNumber(d) + 1
  {
    if d.day == DaysInMonth(d.year, d.month) && d.month == 12 {
      MonthsFillYear(d.year);
    }
  }

  /** Adding `n` days moves the day count forward by exactly `n`. */
  lemma {:induction false} AddDaysNumber(d: Date, n: nat)
    requires ValidDate(d)
    ensures DayNumber(AddDays(d, n)) == DayNumber(d) + n
    decreases n
  {
    if n > 0 {
      NextDayNumber(d);
      AddDaysNumber(NextDay(d), n - 1);
    }
  }

  lemma {:induction false} DaysBeforeMonthGrows(y: nat, m: nat, k: nat)
    requires 1 <= m < k <= 13
    ensures DaysBeforeMonth(y, k) >= DaysBeforeMonth(y, m) + DaysInMonth(y, m)
    decreases k - m
  {
    if m + 1 < k {
      DaysBeforeMonthGrows(y, m, k - 1);
    }
  }

  lemma {:induction false} DaysBeforeYearGrows(y: nat, k: nat)
    requires y < k
    ensures DaysBeforeYear(k) >= DaysBeforeYear(y) + YearLength(y)
    decreases k - y
  {
    if y + 1 < k {
      DaysBeforeYearGrows(y, k - 1);
    }
  }

  /** The days of a year before a valid date in it are fewer than the year's length. */
  lemma DayOfYearBound(d: Date)
    requires ValidDate(d)
    ensures DaysBeforeMonth(d.year, d.month) + d.day <= YearLength(d.year)
  {
    MonthsFillYear(d.year);
    if d.month < 12 {
      DaysBeforeMonthGrows(d.year, d.month, 13);
    }
  }

  lemma SameYearFromDayNumber(a: Date, b: Date)
    requires ValidDate(a) && ValidDate(b)
    requires DayNumber(a) == DayNumber(b)
    ensures a.year == b.year
  {
    DayOfYearBound(a);
    DayOfYearBound(b);
    if a.year < b.year {
      DaysBeforeYearGrows(a.year, b.year);
    } else if b.year < a.year {
      DaysBeforeYearGrows(b.year, a.year);
    }
  }

  /** Distinct valid dates have distinct day counts, so a date is determined by its count. */
  lemma DayNumberInjective(a: Date, b: Date)
    requires ValidDate(a) && ValidDate(b)
    requires DayNumber(a) == DayNumber(b)
    ensures a == b
  {
    SameYearFromDayNumber(a, b);
    if a.month < b.month {
      DaysBeforeMonthGrows(a.year, a.month, b.month);
    } else if b.month < a.month {
      DaysBeforeMonthGrows(b.year, b.month, a.month);
    }
  }

  /** AddDays is the one valid date whose count is `n` more: two routes to the same
      count land on the same date. */
  lemma AddDaysCharacterized(d: Date, n: nat, r: Date)
    requires ValidDate(d) && ValidDate(r)
    ensures r == AddDays(d, n) <==> DayNumber(r) == DayNumber(d) + n
  {
    AddDaysNumber(d, n);
    if DayNumber(r) == DayNumber(d) + n {
      DayNumberInjective(r, AddDays(d, n));
    }
  }

  lemma {:induction false} AddDaysWithinMonth(d: Date, n: nat)
    requires ValidDate(d) && d.day + n <= DaysInMonth(d.year, d.month)
    ensures AddDays(d, n) == Date(d.year, d.month, d.day + n)
    decreases n
  {
    if n > 0 {
      AddDaysWithinMonth(NextDay(d), n - 1);
    }
  }

  lemma {:induction false} AddDaysSplit(d: Date, a: nat, b: nat)
    requires ValidDate(d)
    ensures AddDays(d, a + b) == AddDays(AddDays(d, a), b)
    decreases a
  {
    if a > 0 {
      AddDaysSplit(NextDay(d), a - 1, b);
    }
  }

  /** The date that follows the last day of `d`'s month. */
  function FirstOfNextMonth(d: Date): Date
  {
    if d.month < 12 then Date(d.year, d.month + 1, 1) else Date(d.year + 1, 1, 1)
  }

  /** Crossing one month end: the overflow lands in the next month. */
  lemma AddDaysPastMonthEnd(d: Date, n: nat)
    requires ValidDate(d)
    requires DaysInMonth(d.year, d.month) < d.day + n <= DaysInMonth(d.year, d.month) + 28
    ensures AddDays(d, n) ==
      var f := FirstOfNextMonth(d);
      Date(f.year, f.month, d.day + n - DaysInMonth(d.year, d.month))
  {
    var dim := DaysInMonth(d.year, d.month);
    var k := dim - d.day;
    AddDaysSplit(d, k, n - k);
    AddDaysWithinMonth(d, k);
    var last := Date(d.year, d.month, dim);
    assert NextDay(last) == FirstOfNextMonth(d);
    AddDaysWithinMonth(FirstOfNextMonth(d), n - k - 1);
  }

  /** A week later in closed form: the same month when it fits, otherwise the first days
      of the next month, and January of the next year after December. */
  lemma AddWeek(d: Date)
    requires ValidDate(d)
    ensures var dim := DaysInMonth(d.year, d.month);
      AddDays(d, 7) ==
        if d.day + 7 <= dim then Date(d.year, d.month, d.day + 7)
        else if d.month < 12 then Date(d.year, d.month + 1, d.day + 7 - dim)
        else Date(d.year + 1, 1, d.day + 7 - dim)
  {
    if d.day + 7 <= DaysInMonth(d.year, d.month) {
      AddDaysWithinMonth(d, 7);
    } else {
      AddDaysPastMonthEnd(d, 7);
    }
  }

  // ---- Month names ----

  const MonthAbbrevs: seq<string> :=
    ["Jan", "Feb", "Mar", "Apr", "May", "Jun", "Jul", "Aug", "Sep", "Oct", "Nov", "Dec"]

  /** The short English month name of month `m` (1 = January). */
  function MonthAbbrev(m: nat): (s: string)
    requires 1 <= m <= 12
    ensures |s| == 3
  {
    MonthAbbrevs[m - 1]
  }

  /** The first month from `m` on whose short name is `s`. */
  function FindMonth(s: string, m: nat): (r: Option<nat>)
    requires 1 <= m <= 13
    ensures r.Some? ==> m <= r.value <= 12 && MonthAbbrev(r.value) == s
    ensures r.None? ==> forall k :: m <= k <= 12 ==> MonthAbbrev(k) != s
    decreases 13 - m
  {
    if m == 13 then None
    else if MonthAbbrev(m) == s then Some(m)
    else FindMonth(s, m + 1)
  }

  /** The month whose short name is `s`, if any: the month word of a date string. */
  function MonthOf(s: string): (r: Option<nat>)
    ensures r.Some? ==> 1 <= r.value <= 12 && MonthAbbrev(r.value) == s
    ensures r.None? ==> forall m :: 1 <= m <= 12 ==> MonthAbbrev(m) != s
  {
    FindMonth(s, 1)
  }

  lemma MonthAbbrevInjective(m: nat, k: nat)
    requires 1 <= m <= 12 && 1 <= k <= 12 && MonthAbbrev(m) == MonthAbbrev(k)
    ensures m == k
  {
  }

  lemma MonthOfAbbrev(m: nat)
    requires 1 <= m <= 12
    ensures MonthOf(MonthAbbrev(m)) == Some(m)
  {
    var r := MonthOf(MonthAbbrev(m));
    MonthAbbrevInjective(r.value, m);
  }

  // ---- "D MMM" ----

  /** `toLocaleDateString('en-GB', { day: 'numeric', month: 'short' })`: "14 Dec". */
  function FormatDayMonth(d: Date): (s: string)
    requires ValidDate(d)
  {
    NatToString(d.day) + " " + MonthAbbrev(d.month)
  }

  /** What the mock service's parse of a "D MMM" string yields in `year`: split at spaces,
      the day is the first piece read by `parseInt`, the month is the second piece, and
      the date is built as "MMM D, YYYY". A day between 1 and 31 that overruns its month
      rolls into the next one, as the JavaScript `Date` constructor does. */
  function ParseDayMonth(s: string, year: nat): (r: Option<Date>)
    ensures r.Some? ==> ValidDate(r.value)
  {
    var parts := Split(s, ' ');
    if |parts| < 2 then None
    else
      var day := ParseNat(parts[0]);
      var month := MonthOf(parts[1]);
      if day.None? || month.None? || !(1 <= day.value <= 31) then None
      else Some(AddDays(Date(year, month.value, 1), day.value - 1))
  }

  /** Rendering a valid date as "D MMM" and reading it back in the same year gives the date. */
  lemma ParseFormatDayMonth(d: Date)
    requires ValidDate(d)
    ensures ParseDayMonth(FormatDayMonth(d), d.year) == Some(d)
  {
    var day := NatToString(d.day);
    DigitsHaveNo(day, ' ');
    SplitPiece(day, ' ', MonthAbbrev(d.month));
    assert FormatDayMonth(d) == day + [' '] + MonthAbbrev(d.month);
    var mm := MonthAbbrev(d.month);
    assert ' ' !in mm by {
      assert mm in MonthAbbrevs;
    }
    SplitNoSeparator(mm, ' ');
    ParseNatOfNatToString(d.day);
    MonthOfAbbrev(d.month);
    AddDaysWithinMonth(Date(d.year, d.month, 1), d.day - 1);
  }

  // ---- "DD-MM-YYYY" ----

  /** `toLocaleDateString('en-GB')` with every '/' replaced by '-': "21-10-2026". */
  function FormatDMY(d: Date): (s: string)
    requires ValidDate(d)
  {
    Pad2(d.day) + "-" + Pad2(d.month) + "-" + NatToString(d.year)
  }

  /** Reading a "DD-MM-YYYY" string: three pieces of digits naming a valid date. */
  function ParseDMY(s: string): (r: Option<Date>)
    ensures r.Some? ==> ValidDate(r.value)
  {
    var parts := Split(s, '-');
    if |parts| != 3 then None
    else
      var day := ParseNat(parts[0]);
      var month := ParseNat(parts[1]);
      var year := ParseNat(parts[2]);
      if day.None? || month.None? || year.None? then None
      else
        var d := Date(year.value, month.value, day.value);
        if ValidDate(d) then Some(d) else None
  }

  /** The day piece of a "DD-MM-YYYY" string. */
  function DayPiece(s: string): string
  {
    Split(s, '-')[0]
  }

  lemma ParseFormatDMY(d: Date)
    requires ValidDate(d)
    ensures ParseDMY(FormatDMY(d)) == Some(d)
    ensures DayPiece(FormatDMY(d)) == Pad2(d.day)
  {
    var dd, mm, yy := Pad2(d.day), Pad2(d.month), NatToString(d.year);
    DigitsHaveNo(dd, '-');
    DigitsHaveNo(mm, '-');
    DigitsHaveNo(yy, '-');
    assert FormatDMY(d) == dd + ['-'] + (mm + ['-'] + yy);
    SplitPiece(dd, '-', mm + ['-'] + yy);
    SplitPiece(mm, '-', yy);
    SplitNoSeparator(yy, '-');
    ParseNatOfPad2(d.day);
    ParseNatOfPad2(d.month);
    ParseNatOfNatToString(d.year);
  }
}
