/**
 Calendar dates as text: `toISOString().slice(0, 10)`, what `new Date(...)` reads back, day shifting, and
 string order.  A text that `Date` cannot read, and a date beyond its range, make these functions throw;
 that is None.
 */
module IsoDates {
  import opened Options
  import opened CivilDays

  // ----- decimal digits -----

  predicate IsDigit(c: char) { '0' <= c <= '9' }

  predicate AllDigits(s: string) { forall i :: 0 <= i < |s| ==> IsDigit(s[i]) }

  function DigitValue(c: char): int { c as int - '0' as int }

  function Pow10(n: nat): int { if n == 0 then 1 else 10 * Pow10(n - 1) }

  lemma PowersOfTen()
    ensures Pow10(2) == 100 && Pow10(4) == 10_000 && Pow10(6) == 1_000_000
  {
    assert Pow10(3) == 1000;
  }

  /** The number a digit string spells. */
  function Num(s: string): int { if s == "" then 0 else 10 * Num(s[..|s| - 1]) + DigitValue(s[|s| - 1]) }

  /** The last `width` digits of a number, with leading zeros. */
  function Pad(n: nat, width: nat): (s: string)
    ensures |s| == width && AllDigits(s)
  {
    if width == 0 then "" else Pad(n / 10, width - 1) + [('0' as int + n % 10) as char]
  }

  lemma {:induction false} NumOfPad(n: nat, width: nat)
    requires n < Pow10(width)
    ensures Num(Pad(n, width)) == n
  {
    if width > 0 {
      NumOfPad(n / 10, width - 1);
    }
  }

  lemma {:induction false} PadOfNum(s: string)
    requires AllDigits(s)
    ensures 0 <= Num(s) < Pow10(|s|) && Pad(Num(s), |s|) == s
  {
    if s != "" {
      PadOfNum(s[..|s| - 1]);
    }
  }

  lemma {:induction false} NumFromFront(s: string)
    requires s != ""
    ensures Num(s) == DigitValue(s[0]) * Pow10(|s| - 1) + Num(s[1..])
  {
    if |s| > 1 {
      NumFromFront(s[..|s| - 1]);
      assert s[..|s| - 1][1..] == s[1..][..|s| - 2];
    }
  }

  // ----- string order -----

  /** `a <= b` on strings, by character codes. */
  predicate StrLe(a: string, b: string) {
    a == "" || (b != "" && (a[0] < b[0] || (a[0] == b[0] && StrLe(a[1..], b[1..]))))
  }

  lemma {:induction false} StrLeOfConcat(a: string, b: string, c: string, d: string)
    requires |a| == |b|
    ensures StrLe(a + c, b + d) <==> (if a == b then StrLe(c, d) else StrLe(a, b))
  {
    if a == "" {
      assert a + c == c && b + d == d;
    } else {
      assert (a + c)[1..] == a[1..] + c && (b + d)[1..] == b[1..] + d;
      StrLeOfConcat(a[1..], b[1..], c, d);
      assert a == [a[0]] + a[1..] && b == [b[0]] + b[1..];
    }
  }

  lemma LeadingDigitDecides(x: int, y: int, p: int, u: int, v: int)
    requires x < y && 0 <= u < p && 0 <= v < p
    ensures x * p + u < y * p + v
  {
    var k := y - x - 1;
    assert k * p >= 0;
    assert y * p == (x + 1 + k) * p == x * p + p + k * p;
  }

  /** Digit strings of one length are ordered as the numbers they spell. */
  lemma {:induction false} StrLeOfDigits(a: string, b: string)
    requires |a| == |b| && AllDigits(a) && AllDigits(b)
    ensures StrLe(a, b) <==> Num(a) <= Num(b)
  {
    if a != "" {
      NumFromFront(a);
      NumFromFront(b);
      PadOfNum(a[1..]);
      PadOfNum(b[1..]);
      StrLeOfDigits(a[1..], b[1..]);
      var x, y := DigitValue(a[0]), DigitValue(b[0]);
      if x < y {
        LeadingDigitDecides(x, y, Pow10(|a| - 1), Num(a[1..]), Num(b[1..]));
      } else if y < x {
        LeadingDigitDecides(y, x, Pow10(|a| - 1), Num(b[1..]), Num(a[1..]));
      }
    }
  }

  // ----- dates to text -----

  /** `YYYY-MM-DD`. */
  function Plain(d: Date): string
    requires 0 <= d.year <= 9999 && IsDate(d)
  {
    Pad(d.year, 4) + "-" + Pad(d.month, 2) + "-" + Pad(d.day, 2)
  }

  /** `toISOString().slice(0, 10)` of the start of a day: years outside 0..9999 take a sign and six
      digits, and push the day of the month out of the first ten characters. */
  function TextOf(d: Date): string
    requires IsDate(d)
  {
    if 0 <= d.year <= 9999 then Plain(d)
    else if d.year > 9999 then "+" + Pad(d.year, 6) + "-" + Pad(d.month, 2)
    else "-" + Pad(-d.year, 6) + "-" + Pad(d.month, 2)
  }

  /** TimeClip: a Date holds at most 100,000,000 days either way. */
  predicate InTimeRange(day: int) { -100_000_000 <= day <= 100_000_000 }

  function ToIso(day: int): Option<string> { if InTimeRange(day) then Some(TextOf(DateOf(day))) else None }

  // ----- text to dates -----

  /** The month and day parts after a year: "", "-MM" or "-MM-DD". */
  function ReadMonthDay(year: int, s: string): (r: Option<Date>)
    ensures r.Some? ==> IsDate(r.value)
  {
    if s == "" then Some(Date(year, 1, 1))
    else if |s| == 3 && s[0] == '-' && AllDigits(s[1..]) && 1 <= Num(s[1..]) <= 12 then
      Some(Date(year, Num(s[1..]), 1))
    else if |s| == 6 && s[0] == '-' && s[3] == '-' && AllDigits(s[1..3]) && AllDigits(s[4..])
            && IsDate(Date(year, Num(s[1..3]), Num(s[4..]))) then
      Some(Date(year, Num(s[1..3]), Num(s[4..])))
    else None
  }

  /** The day of `new Date(s + "T00:00:00.000Z")` in the formats of section 21.4.1.32 of ECMA-262. */
  function ReadDate(s: string): (r: Option<Date>)
    ensures r.Some? ==> IsDate(r.value)
  {
    if |s| >= 4 && AllDigits(s[..4]) then ReadMonthDay(Num(s[..4]), s[4..])
    else if |s| >= 7 && s[0] == '+' && AllDigits(s[1..7]) then ReadMonthDay(Num(s[1..7]), s[7..])
    else if |s| >= 7 && s[0] == '-' && AllDigits(s[1..7]) && Num(s[1..7]) != 0 then ReadMonthDay(-Num(s[1..7]), s[7..])
    else None
  }

  /** `YYYY-MM-DD` of a real date. */
  predicate IsIsoDate(s: string) { |s| == 10 && AllDigits(s[..4]) && ReadDate(s).Some? }

  /** The day number of a date text. */
  function DayIn(s: string): int
    requires ReadDate(s).Some?
  {
    DayOf(ReadDate(s).value)
  }

  lemma PlainReads(d: Date)
    requires 0 <= d.year <= 9999 && IsDate(d)
    ensures IsIsoDate(Plain(d)) && ReadDate(Plain(d)) == Some(d)
  {
    var s := Plain(d);
    PowersOfTen();
    NumOfPad(d.year, 4);
    NumOfPad(d.month, 2);
    NumOfPad(d.day, 2);
    assert s[..4] == Pad(d.year, 4);
    var r := s[4..];
    assert r == "-" + Pad(d.month, 2) + "-" + Pad(d.day, 2);
    assert r[0] == '-' && r[3] == '-' && r[1..3] == Pad(d.month, 2) && r[4..] == Pad(d.day, 2);
  }

  /** Every real `YYYY-MM-DD` is the plain text of its date. */
  lemma IsoDateIsPlain(s: string)
    requires IsIsoDate(s)
    ensures var d := ReadDate(s).value; 0 <= d.year <= 9999 && s == Plain(d)
  {
    var r := s[4..];
    var y, m, d := s[..4], r[1..3], r[4..];
    PowersOfTen();
    PadOfNum(y);
    PadOfNum(m);
    PadOfNum(d);
    assert s == y + [r[0]] + m + [r[3]] + d;
  }

  /** Beyond year 9999 only the month survives. */
  lemma LongTextReads(d: Date)
    requires IsDate(d) && (9999 < d.year <= 999_999 || -999_999 <= d.year < 0)
    ensures ReadDate(TextOf(d)) == Some(Date(d.year, d.month, 1))
  {
    var year: nat := if d.year > 9999 then d.year else -d.year;
    var s := TextOf(d);
    PowersOfTen();
    NumOfPad(d.month, 2);
    NumOfPad(year, 6);
    assert s[1..7] == Pad(year, 6);
    var r := s[7..];
    assert r == "-" + Pad(d.month, 2);
    assert r[0] == '-' && r[1..] == Pad(d.month, 2);
    assert s[0] == '+' || s[0] == '-';
    assert !AllDigits(s[..4]) by { assert s[..4][0] == s[0]; }
  }

  // ----- shifting -----

  /** `shiftIsoDate`, and `addDays` of the calendar export. */
  function Shift(s: string, delta: int): Option<string> {
    if ReadDate(s).None? || !InTimeRange(DayIn(s)) then None else ToIso(DayIn(s) + delta)
  }

  function ShiftTwice(s: string, a: int, b: int): Option<string> {
    var t := Shift(s, a);
    if t.None? then None else Shift(t.value, b)
  }

  lemma YearBounds(d: Date)
    requires IsDate(d)
    ensures InTimeRange(DayOf(d)) ==> -999_999 <= d.year <= 999_999
    ensures 0 <= d.year <= 9999 ==> InTimeRange(DayOf(d))
  {
    DateWithinYear(d);
    if d.year > 999_999 { YearsAreOrdered(999_999, d.year); }
    if d.year < -999_999 { YearsAreOrdered(d.year, -999_999); }
    if d.year > 0 { YearsAreOrdered(0, d.year); }
    if d.year < 9999 { YearsAreOrdered(d.year, 9999); }
  }

  /** Where a shift by `a` lands. */
  function Landing(s: string, a: int): Date
    requires ReadDate(s).Some?
  {
    DateOf(DayIn(s) + a)
  }

  lemma ShiftByZero(s: string)
    requires IsIsoDate(s)
    ensures Shift(s, 0) == Some(s)
  {
    IsoDateIsPlain(s);
    DateOfDayOf(ReadDate(s).value);
    YearBounds(ReadDate(s).value);
  }

  /** What is left to shift further: the date landed on, or only its month beyond year 9999. */
  function Readable(d: Date): Date { if 0 <= d.year <= 9999 then d else Date(d.year, d.month, 1) }

  lemma TextReads(d: Date)
    requires IsDate(d) && InTimeRange(DayOf(d))
    ensures ReadDate(TextOf(d)) == Some(Readable(d))
    ensures 0 <= d.year <= 9999 ==> IsIsoDate(TextOf(d))
  {
    YearBounds(d);
    if 0 <= d.year <= 9999 { PlainReads(d); } else { LongTextReads(d); }
  }

  /** Two dates have one text exactly when what is left to read of them is the same. */
  lemma TextsEqualIff(a: Date, b: Date)
    requires IsDate(a) && IsDate(b) && InTimeRange(DayOf(a)) && InTimeRange(DayOf(b))
    ensures TextOf(a) == TextOf(b) <==> Readable(a) == Readable(b)
  {
    TextReads(a);
    TextReads(b);
  }

  lemma ShiftReads(s: string, a: int)
    requires IsIsoDate(s)
    ensures Shift(s, a) == if InTimeRange(DayIn(s) + a) then Some(TextOf(Landing(s, a))) else None
    ensures Shift(s, a).Some? ==> ReadDate(Shift(s, a).value) == Some(Readable(Landing(s, a)))
  {
    IsoDateIsPlain(s);
    YearBounds(ReadDate(s).value);
    if InTimeRange(DayIn(s) + a) {
      TextReads(Landing(s, a));
    }
  }

  /** Shifting by `a` lands where every later shift is exact: within the range of Date, in a year of four
      digits or on the first of a month. */
  predicate LandsExactly(s: string, a: int)
    requires ReadDate(s).Some?
  {
    InTimeRange(DayIn(s) + a) && (0 <= Landing(s, a).year <= 9999 || Landing(s, a).day == 1)
  }

  /**
   Shifting is an action of the integers: two shifts make one, for every second shift, exactly when the
   first lands exactly.
   */
  lemma ShiftIsAnAction(s: string, a: int)
    requires IsIsoDate(s)
    ensures (forall b :: ShiftTwice(s, a, b) == Shift(s, a + b)) <==> LandsExactly(s, a)
  {
    if LandsExactly(s, a) {
      forall b
        ensures ShiftTwice(s, a, b) == Shift(s, a + b)
      {
        ShiftComposes(s, a, b);
      }
    } else {
      var w := Date(2000, 1, 1);
      ShiftLosesDays(s, a, DayOf(w) - DayIn(s) - a, w);
    }
  }

  lemma SameSum(day: int, a: int, b: int, n: int)
    requires n == day + a
    ensures n + b == day + (a + b)
  {}

  lemma ShiftComposes(s: string, a: int, b: int)
    requires IsIsoDate(s) && LandsExactly(s, a)
    ensures ShiftTwice(s, a, b) == Shift(s, a + b)
  {
    var f := Landing(s, a);
    ShiftReads(s, a);
    ShiftReads(s, a + b);
    LaterShift(Shift(s, a).value, f, b);
    SameSum(DayIn(s), a, b, DayOf(f));
  }

  /** Counting on from the first of the month instead of `e` misses the date `w`. */
  lemma MonthStartMisses(e: Date, w: Date, b: int)
    requires IsDate(e) && e.day != 1 && IsDate(w) && 1 <= w.year <= 9999 && DayOf(e) + b == DayOf(w)
    ensures ToIso(DayOf(Date(e.year, e.month, 1)) + b) != Some(TextOf(w))
  {
    MonthStart(e);
    ShortlyBefore(DateOf(DayOf(Date(e.year, e.month, 1)) + b), w);
  }

  lemma ReachesDate(s: string, c: int, w: Date)
    requires IsIsoDate(s) && IsDate(w) && 1 <= w.year <= 9999 && DayIn(s) + c == DayOf(w)
    ensures Shift(s, c) == Some(TextOf(w))
  {
    YearBounds(w);
    ShiftReads(s, c);
    DateOfDayOf(w);
  }

  /** Otherwise the second shift that should reach a date `w` does not. */
  lemma ShiftLosesDays(s: string, a: int, b: int, w: Date)
    requires IsIsoDate(s) && !LandsExactly(s, a) && IsDate(w) && 1 <= w.year <= 9999 && DayIn(s) + a + b == DayOf(w)
    ensures ShiftTwice(s, a, b) != Shift(s, a + b)
  {
    ReachesDate(s, a + b, w);
    ShiftReads(s, a);
    if InTimeRange(DayIn(s) + a) {
      LaterShiftMisses(Shift(s, a).value, Landing(s, a), w, b);
    }
  }

  lemma LaterShiftMisses(t: string, e: Date, w: Date, b: int)
    requires IsDate(e) && e.day != 1 && IsDate(w) && 1 <= w.year <= 9999 && DayOf(e) + b == DayOf(w)
    requires ReadDate(t) == Some(Date(e.year, e.month, 1))
    ensures Shift(t, b) != Some(TextOf(w))
  {
    LaterShift(t, Date(e.year, e.month, 1), b);
    MonthStartMisses(e, w, b);
  }

  lemma LaterShift(t: string, f: Date, b: int)
    requires ReadDate(t) == Some(f)
    ensures Shift(t, b) == if InTimeRange(DayOf(f)) then ToIso(DayOf(f) + b) else None
  {}

  lemma MonthStart(e: Date)
    requires IsDate(e) && e.day != 1
    ensures DayOf(e) - 31 < DayOf(Date(e.year, e.month, 1)) < DayOf(e)
  {}

  /** A day shortly before a date of four digits has another text. */
  lemma ShortlyBefore(d: Date, w: Date)
    requires IsDate(d) && IsDate(w) && 1 <= w.year <= 9999 && DayOf(w) - 31 < DayOf(d) < DayOf(w)
    ensures TextOf(d) != TextOf(w)
  {
    DateWithinYear(d);
    DateWithinYear(w);
    YearsAreOrdered(w.year - 1, w.year);
    if d.year > w.year { YearsAreOrdered(w.year, d.year); }
    if d.year < w.year - 1 { YearsAreOrdered(d.year, w.year - 1); }
    PlainReads(d);
    PlainReads(w);
  }

  /** On years 0..9999 shifting moves the day number by `a`. */
  lemma ShiftMovesDays(s: string, a: int)
    requires IsIsoDate(s) && 0 <= Landing(s, a).year <= 9999
    ensures Shift(s, a).Some? && IsIsoDate(Shift(s, a).value) && DayIn(Shift(s, a).value) == DayIn(s) + a
  {
    YearBounds(Landing(s, a));
    ShiftReads(s, a);
    TextReads(Landing(s, a));
  }

  // ----- order -----

  lemma Reassociate(y: string, m: string, d: string)
    ensures y + "-" + m + "-" + d == y + ("-" + (m + ("-" + d)))
  {}

  /** Dates in text, compared as strings part by part. */
  lemma PlainOrder(d: Date, e: Date)
    requires 0 <= d.year <= 9999 && IsDate(d) && 0 <= e.year <= 9999 && IsDate(e)
    ensures StrLe(Plain(d), Plain(e)) <==> !Earlier(e, d)
  {
    var y, z := Pad(d.year, 4), Pad(e.year, 4);
    var m, n := Pad(d.month, 2), Pad(e.month, 2);
    var p, q := Pad(d.day, 2), Pad(e.day, 2);
    PowersOfTen();
    NumOfPad(d.year, 4);
    NumOfPad(d.month, 2);
    NumOfPad(d.day, 2);
    NumOfPad(e.year, 4);
    NumOfPad(e.month, 2);
    NumOfPad(e.day, 2);
    Reassociate(y, m, p);
    Reassociate(z, n, q);
    StrLeOfConcat(y, z, "-" + (m + ("-" + p)), "-" + (n + ("-" + q)));
    StrLeOfConcat("-", "-", m + ("-" + p), n + ("-" + q));
    StrLeOfConcat(m, n, "-" + p, "-" + q);
    StrLeOfConcat("-", "-", p, q);
    StrLeOfDigits(y, z);
    StrLeOfDigits(m, n);
    StrLeOfDigits(p, q);
  }

  /** String order on `YYYY-MM-DD` is the order of days, and equal days have one text. */
  lemma StringOrderIsDateOrder(a: string, b: string)
    requires IsIsoDate(a) && IsIsoDate(b)
    ensures StrLe(a, b) <==> DayIn(a) <= DayIn(b)
    ensures a == b <==> DayIn(a) == DayIn(b)
  {
    IsoDateIsPlain(a);
    IsoDateIsPlain(b);
    var d, e := ReadDate(a).value, ReadDate(b).value;
    PlainOrder(d, e);
    DaysOrderDates(e, d);
    DateOfDayOf(d);
    DateOfDayOf(e);
  }

  /** String order is total and transitive on all strings. */
  lemma {:induction false} StrLeIsTotal(a: string, b: string)
    ensures StrLe(a, b) || StrLe(b, a)
    ensures StrLe(a, b) && StrLe(b, a) ==> a == b
  {
    if a != "" && b != "" {
      StrLeIsTotal(a[1..], b[1..]);
      assert a == [a[0]] + a[1..] && b == [b[0]] + b[1..];
    }
  }

  lemma {:induction false} StrLeIsTransitive(a: string, b: string, c: string)
    requires StrLe(a, b) && StrLe(b, c)
    ensures StrLe(a, c)
  {
    if a != "" && a[0] == b[0] && b[0] == c[0] {
      StrLeIsTransitive(a[1..], b[1..], c[1..]);
    }
  }

  // ----- the last day of year 9999 -----

  lemma NumOfMore(s: string, c: char)
    ensures Num(s + [c]) == 10 * Num(s) + DigitValue(c)
  {
    assert (s + [c])[..|s|] == s;
  }

  lemma NumOfTwo(a: char, b: char)
    ensures Num([a, b]) == 10 * DigitValue(a) + DigitValue(b)
  {
    NumOfMore([], a);
    NumOfMore([a], b);
    assert [] + [a] == [a] && [a] + [b] == [a, b];
  }

  lemma NumOfFour(a: char, b: char, c: char, d: char)
    ensures Num([a, b, c, d]) == 1000 * DigitValue(a) + 100 * DigitValue(b) + 10 * DigitValue(c) + DigitValue(d)
  {
    NumOfTwo(a, b);
    NumOfMore([a, b], c);
    NumOfMore([a, b] + [c], d);
    assert [a, b] + [c] + [d] == [a, b, c, d];
  }

  lemma LastDayIs(s: string)
    requires s == "9999-12-31"
    ensures IsIsoDate(s) && ReadDate(s) == Some(Date(9999, 12, 31))
  {
    NumOfFour('9', '9', '9', '9');
    NumOfTwo('1', '2');
    NumOfTwo('3', '1');
    var r := s[4..];
    assert s[..4] == ['9', '9', '9', '9'] && r[1..3] == ['1', '2'] && r[4..] == ['3', '1'];
  }

  /** Days after it lie in year 10000. */
  lemma AfterLastDay(s: string, n: nat)
    requires s == "9999-12-31" && 1 <= n <= 31
    ensures ReadDate(s).Some? && InTimeRange(DayIn(s) + n) && Landing(s, n) == Date(10000, 1, n)
  {
    LastDayIs(s);
    AfterDate(s, Date(9999, 12, 31), Date(10000, 1, n));
  }

  lemma AfterDate(s: string, last: Date, next: Date)
    requires ReadDate(s) == Some(last) && last == Date(9999, 12, 31)
    requires next.year == 10000 && next.month == 1 && IsDate(next)
    ensures InTimeRange(DayIn(s) + next.day) && Landing(s, next.day) == next
  {
    LastDayNumber(last, next);
    DateOfDayOf(next);
    YearBounds(last);
  }

  lemma LastDayNumber(last: Date, next: Date)
    requires last == Date(9999, 12, 31) && next.year == 10000 && next.month == 1 && IsDate(next)
    ensures IsDate(last) && DayOf(next) == DayOf(last) + next.day
  {
    YearLength(last.year);
    WholeYear(last.year);
  }

  /** Two days on from 9999-12-31 and two days back is not 9999-12-31. */
  lemma ShiftAcrossTheEnd(s: string, a: int)
    requires s == "9999-12-31" && a == 2
    ensures ReadDate(s).Some? && !LandsExactly(s, a) && ShiftTwice(s, a, -2) != Shift(s, 0)
  {
    LastDayIs(s);
    AfterLastDay(s, a);
    ShiftLosesDays(s, a, -2, Date(9999, 12, 31));
  }
}
