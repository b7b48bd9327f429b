/**
 * Proleptic Gregorian calendar arithmetic on day numbers (days since
 * 1970-01-01), standing in for dayjs's date handling at a fixed UTC offset,
 * and dayjs's `format('DD-MM-YYYY')`.
 */
module Calendar {
  import opened Text

  datatype Date = Date(year: int, month: int, day: int)

  predicate IsLeapYear(y: int) {
    y % 4 == 0 && (y % 100 != 0 || y % 400 == 0)
  }

  function DaysInYear(y: int): int {
    if IsLeapYear(y) then 366 else 365
  }

  function DaysInMonth(y: int, m: int): int
    requires 1 <= m <= 12
  {
    if m == 2 then (if IsLeapYear(y) then 29 else 28)
    else if m == 4 || m == 6 || m == 9 || m == 11 then 30
    else 31
  }

  /** Days of year `y` before the first of month `m`. */
  function DaysBeforeMonth(y: int, m: int): int
    requires 1 <= m <= 12
  {
    [0, 31, 59, 90, 120, 151, 181, 212, 243, 273, 304, 334][m - 1]
    + (if m > 2 && IsLeapYear(y) then 1 else 0)
  }

  predicate ValidDate(d: Date) {
    1 <= d.month <= 12 && 1 <= d.day <= DaysInMonth(d.year, d.month)
  }

  /** The day number of January 1st of year `y`. */
  function DaysBeforeYear(y: int): int
    decreases if y >= 1970 then y - 1970 else 1970 - y
  {
    if y == 1970 then 0
    else if y > 1970 then DaysBeforeYear(y - 1) + DaysInYear(y - 1)
    else DaysBeforeYear(y + 1) - DaysInYear(y)
  }

  /** The day number of a date. */
  function DaysFromCivil(d: Date): int
    requires 1 <= d.month <= 12
  {
    DaysBeforeYear(d.year) + DaysBeforeMonth(d.year, d.month) + d.day - 1
  }

  lemma DaysBeforeYearStep(y: int)
    ensures DaysBeforeYear(y + 1) == DaysBeforeYear(y) + DaysInYear(y)
  {
  }

  /** The date that is day `doy` (0-based) of year `y`, searching from month `m`. */
  function MonthOf(y: int, doy: int, m: int): (d: Date)
    requires 1 <= m <= 12 && DaysBeforeMonth(y, m) <= doy < DaysInYear(y)
    ensures ValidDate(d) && d.year == y
    ensures DaysBeforeMonth(y, d.month) + d.day - 1 == doy
    decreases 12 - m
  {
    if m == 12 || doy < DaysBeforeMonth(y, m + 1) then Date(y, m, doy - DaysBeforeMonth(y, m) + 1)
    else MonthOf(y, doy, m + 1)
  }

  /** The date `doy` days after January 1st of year `y` (`doy` may lie outside that year). */
  function FromYear(y: int, doy: int): (d: Date)
    ensures ValidDate(d) && DaysFromCivil(d) == DaysBeforeYear(y) + doy
    decreases if doy < 0 then 1 else 0, if doy < 0 then -doy else doy
  {
    if doy < 0 then
      DaysBeforeYearStep(y - 1);
      FromYear(y - 1, doy + DaysInYear(y - 1))
    else if doy >= DaysInYear(y) then
      DaysBeforeYearStep(y);
      FromYear(y + 1, doy - DaysInYear(y))
    else MonthOf(y, doy, 1)
  }

  /** The calendar date of a day number: it is a real date, and it is that day. */
  function CivilFromDays(days: int): (d: Date)
    ensures ValidDate(d) && DaysFromCivil(d) == days
  {
    FromYear(1970, days)
  }

  /** Distinct day numbers fall on distinct dates. */
  lemma CivilFromDaysInjective(a: int, b: int)
    requires CivilFromDays(a) == CivilFromDays(b)
    ensures a == b
  {
  }

  lemma TwoDigits(n: int)
    requires 1 <= n <= 99
    ensures |PadStart(IntToDecimal(n), 2, '0')| == 2
  {
    if n >= 10 {
      assert NatToDecimal(n) == NatToDecimal(n / 10) + [DigitChar(n % 10)];
      assert |NatToDecimal(n / 10)| == 1;
    }
  }

  /** Where the fields of `dd-mm-yy` sit when day and month take two characters each. */
  lemma FieldPositions(dd: string, mm: string, yy: string)
    requires |dd| == 2 && |mm| == 2
    ensures var f := dd + "-" + mm + "-" + yy;
      |f| == 6 + |yy| && f[..2] == dd && f[2] == '-' && f[3..5] == mm && f[5] == '-' && f[6..] == yy
  {
    var f := dd + "-" + mm + "-" + yy;
    assert f == dd + ("-" + (mm + ("-" + yy)));
  }

  /** Day and month of a real date take two characters once padded. */
  lemma DayMonthWidths(d: Date)
    requires ValidDate(d)
    ensures |PadStart(IntToDecimal(d.day), 2, '0')| == 2 && |PadStart(IntToDecimal(d.month), 2, '0')| == 2
  {
    TwoDigits(d.day);
    TwoDigits(d.month);
  }

  lemma YearWidth(y: string)
    ensures |PadStart(y, 4, '0')| >= 4
  {
  }

  /**
   * dayjs's `format('DD-MM-YYYY')`: for a real date, the day and the month as
   * two digits, then the year padded to at least four digits, separated by `-`.
   */
  function FormatDDMMYYYY(d: Date): (s: string)
    ensures ValidDate(d) ==>
      (&& |s| >= 10 && s[2] == '-' && s[5] == '-'
       && s[..2] == PadStart(IntToDecimal(d.day), 2, '0')
       && s[3..5] == PadStart(IntToDecimal(d.month), 2, '0')
       && s[6..] == PadStart(IntToDecimal(d.year), 4, '0'))
  {
    var dd := PadStart(IntToDecimal(d.day), 2, '0');
    var mm := PadStart(IntToDecimal(d.month), 2, '0');
    var yy := PadStart(IntToDecimal(d.year), 4, '0');
    if ValidDate(d) then
      DayMonthWidths(d);
      YearWidth(IntToDecimal(d.year));
      FieldPositions(dd, mm, yy);
      dd + "-" + mm + "-" + yy
    else dd + "-" + mm + "-" + yy
  }

  /**
   * The formatted date is `DD-MM-` followed by the padded year, and it
   * determines the date: distinct valid dates never format alike.
   */
  lemma FormatDDMMYYYYInjective(a: Date, b: Date)
    requires ValidDate(a) && ValidDate(b)
    requires FormatDDMMYYYY(a) == FormatDDMMYYYY(b)
    ensures a == b
  {
    PaddedDecimalInjective(a.day, b.day, 2);
    PaddedDecimalInjective(a.month, b.month, 2);
    PaddedDecimalInjective(a.year, b.year, 4);
  }
}
