/**
 The proleptic Gregorian calendar as ECMAScript's Date computes it (section 21.4.1 of ECMA-262): days are
 numbered from 1970-01-01, and calendar dates and day numbers correspond one to one.
 */
module CivilDays {

  datatype Date = Date(year: int, month: int, day: int)

  predicate IsLeap(y: int) { y % 4 == 0 && (y % 100 != 0 || y % 400 == 0) }

  function DaysInYear(y: int): int { if IsLeap(y) then 366 else 365 }

  /** DayFromYear: the number of the first day of year `y`. */
  function DayFromYear(y: int): int {
    365 * (y - 1970) + (y - 1969) / 4 - (y - 1901) / 100 + (y - 1601) / 400
  }

  function DaysInMonth(y: int, m: int): int {
    if m == 2 then (if IsLeap(y) then 29 else 28)
    else if m in {4, 6, 9, 11} then 30
    else 31
  }

  /** Days of year `y` before its month `m`, for m in 1..13. */
  function DaysBefore(y: int, m: int): int
    requires 1 <= m <= 13
    decreases m
  {
    if m == 1 then 0 else DaysBefore(y, m - 1) + DaysInMonth(y, m - 1)
  }

  predicate IsDate(d: Date) { 1 <= d.month <= 12 && 1 <= d.day <= DaysInMonth(d.year, d.month) }

  function DayOf(d: Date): int
    requires 1 <= d.month <= 12
  {
    DayFromYear(d.year) + DaysBefore(d.year, d.month) + d.day - 1
  }

  // ----- back from a day number -----

  lemma YearLength(y: int)
    ensures DayFromYear(y + 1) == DayFromYear(y) + DaysInYear(y)
  {
    FourYears(y);
    HundredYears(y);
    FourHundredYears(y);
    LeapYearsDivide(y);
  }

  lemma FourYears(y: int)
    ensures (y - 1968) / 4 == (y - 1969) / 4 + if y % 4 == 0 then 1 else 0
  {}

  lemma Hundreds(x: int, q: int)
    requires 100 * q <= x < 100 * q + 100
    ensures x / 100 == q && x % 100 == x - 100 * q
  {}

  lemma HundredYears(y: int)
    ensures (y - 1900) / 100 == (y - 1901) / 100 + if y % 100 == 0 then 1 else 0
  {
    var q := (y - 1900) / 100;
    Hundreds(y, q + 19);
    Hundreds(y - 1901, if y == 100 * (q + 19) then q - 1 else q);
  }

  lemma FourHundreds(x: int, q: int)
    requires 400 * q <= x < 400 * q + 400
    ensures x / 400 == q && x % 400 == x - 400 * q
  {}

  lemma FourHundredYears(y: int)
    ensures (y - 1600) / 400 == (y - 1601) / 400 + if y % 400 == 0 then 1 else 0
  {
    var q := (y - 1600) / 400;
    FourHundreds(y, q + 4);
    FourHundreds(y - 1601, if y == 400 * (q + 4) then q - 1 else q);
  }

  lemma Fours(x: int, q: int)
    requires 4 * q <= x < 4 * q + 4
    ensures x % 4 == x - 4 * q
  {}

  lemma LeapYearsDivide(y: int)
    ensures y % 100 == 0 ==> y % 4 == 0
    ensures y % 400 == 0 ==> y % 100 == 0
  {
    if y % 100 == 0 { Fours(y, 25 * (y / 100)); }
    if y % 400 == 0 { Hundreds(y, 4 * (y / 400)); }
  }

  lemma {:induction false} YearsAreOrdered(y: int, z: int)
    requires y < z
    ensures DayFromYear(y) + DaysInYear(y) <= DayFromYear(z)
    decreases z - y
  {
    YearLength(y);
    if y + 1 < z {
      YearsAreOrdered(y + 1, z);
    }
  }

  /** How far a guess of the year is from a day. */
  function Distance(day: int, guess: int): int {
    if day < DayFromYear(guess) then DayFromYear(guess) - day
    else if day >= DayFromYear(guess + 1) then day - DayFromYear(guess + 1) + 1
    else 0
  }

  lemma NextGuessIsCloser(day: int, guess: int)
    ensures Distance(day, guess) >= 0
    ensures day < DayFromYear(guess) ==> Distance(day, guess - 1) < Distance(day, guess)
    ensures day >= DayFromYear(guess + 1) ==> Distance(day, guess + 1) < Distance(day, guess)
  {
    YearLength(guess - 1);
    YearLength(guess + 1);
  }

  /** The year of a day, searched from a guess. */
  function YearFrom(day: int, guess: int): (y: int)
    ensures DayFromYear(y) <= day < DayFromYear(y + 1)
    decreases Distance(day, guess)
  {
    NextGuessIsCloser(day, guess);
    NextGuessIsCloser(day, guess - 1);
    NextGuessIsCloser(day, guess + 1);
    if day < DayFromYear(guess) then YearFrom(day, guess - 1)
    else if day >= DayFromYear(guess + 1) then YearFrom(day, guess + 1)
    else guess
  }

  /** The month of the day of year `n`, searched from month `m`. */
  function MonthFrom(y: int, n: int, m: int): (r: int)
    requires 1 <= m <= 12 && DaysBefore(y, m) <= n < DaysBefore(y, 13)
    ensures 1 <= r <= 12 && DaysBefore(y, r) <= n < DaysBefore(y, r + 1)
    decreases 12 - m
  {
    if m == 12 || n < DaysBefore(y, m + 1) then m else MonthFrom(y, n, m + 1)
  }

  lemma WholeYear(y: int)
    ensures DaysBefore(y, 13) == DaysInYear(y)
  {
    assert DaysBefore(y, 4) == 90 + if IsLeap(y) then 1 else 0;
    assert DaysBefore(y, 7) == 181 + if IsLeap(y) then 1 else 0;
    assert DaysBefore(y, 10) == 273 + if IsLeap(y) then 1 else 0;
  }

  function DateOf(day: int): (d: Date)
    ensures IsDate(d) && DayOf(d) == day
  {
    var y := YearFrom(day, 1970);
    YearLength(y);
    WholeYear(y);
    var n := day - DayFromYear(y);
    var m := MonthFrom(y, n, 1);
    Date(y, m, n - DaysBefore(y, m) + 1)
  }

  lemma {:induction false} MonthsAreOrdered(y: int, m: int, n: int)
    requires 1 <= m < n <= 13
    ensures DaysBefore(y, m) + DaysInMonth(y, m) <= DaysBefore(y, n)
    decreases n - m
  {
    if m + 1 < n {
      MonthsAreOrdered(y, m, n - 1);
    }
  }

  /** A date stays within its year. */
  lemma DateWithinYear(d: Date)
    requires IsDate(d)
    ensures DayFromYear(d.year) <= DayOf(d) < DayFromYear(d.year) + DaysInYear(d.year)
  {
    WholeYear(d.year);
    MonthsAreOrdered(d.year, d.month, 13);
    DaysBeforeIsNat(d.year, d.month);
  }

  lemma {:induction false} DaysBeforeIsNat(y: int, m: int)
    requires 1 <= m <= 13
    ensures DaysBefore(y, m) >= 0
    decreases m
  {
    if m > 1 { DaysBeforeIsNat(y, m - 1); }
  }

  predicate Earlier(a: Date, b: Date) {
    a.year < b.year || (a.year == b.year && (a.month < b.month || (a.month == b.month && a.day < b.day)))
  }

  /** Day numbers order dates as year, month, day do. */
  lemma DaysOrderDates(a: Date, b: Date)
    requires IsDate(a) && IsDate(b)
    ensures DayOf(a) < DayOf(b) <==> Earlier(a, b)
  {
    EarlierIsLess(a, b);
    EarlierIsLess(b, a);
  }

  lemma EarlierIsLess(a: Date, b: Date)
    requires IsDate(a) && IsDate(b)
    ensures Earlier(a, b) ==> DayOf(a) < DayOf(b)
  {
    if a.year < b.year {
      DateWithinYear(a);
      DateWithinYear(b);
      YearsAreOrdered(a.year, b.year);
    } else if a.year == b.year && a.month < b.month {
      MonthsAreOrdered(a.year, a.month, b.month);
    }
  }

  /** The last day of the month before. */
  function EndOfPrevious(year: int, month: int): Date
    requires 1 <= month <= 12
  {
    if month == 1 then Date(year - 1, 12, 31) else Date(year, month - 1, DaysInMonth(year, month - 1))
  }

  lemma EndOfPreviousIsBefore(year: int, month: int)
    requires 1 <= month <= 12
    ensures IsDate(EndOfPrevious(year, month))
    ensures DayOf(EndOfPrevious(year, month)) == DayOf(Date(year, month, 1)) - 1
  {
    if month == 1 {
      YearLength(year - 1);
      WholeYear(year - 1);
    }
  }

  /** Dates and day numbers correspond one to one. */
  lemma DateOfDayOf(d: Date)
    requires IsDate(d)
    ensures DateOf(DayOf(d)) == d
  {
    DaysOrderDates(d, DateOf(DayOf(d)));
    DaysOrderDates(DateOf(DayOf(d)), d);
  }

  lemma DateOfIs(d: Date, day: int)
    requires IsDate(d) && day == DayOf(d)
    ensures DateOf(day) == d
  {
    DateOfDayOf(d);
  }

  /** MakeDay: a month outside 1..12 carries into the year, a day outside the month just counts on. */
  function MakeDay(year: int, month: int, day: int): int {
    DayOf(Date(year + (month - 1) / 12, (month - 1) % 12 + 1, 1)) + day - 1
  }

  lemma MakeDayOfDate(d: Date)
    requires IsDate(d)
    ensures MakeDay(d.year, d.month, d.day) == DayOf(d)
  {
    assert (d.month - 1) / 12 == 0 && (d.month - 1) % 12 == d.month - 1;
  }
}
