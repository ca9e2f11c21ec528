/**
 Dates found in bid notices: `YYYY-MM-DD` or `YYYY/M/D` anywhere in a text, else a Reiwa date.  The two
 regular expressions are followed by hand, leftmost match first.  A found date counts months and days past
 their end, as `Date.UTC` does.
 */
module JapaneseDates {
  import opened Options
  import opened CivilDays
  import opened IsoDates
  import opened Strings

  datatype Components = Components(year: int, month: int, day: int)

  predicate DigitAt(s: string, i: nat) { i < |s| && IsDigit(s[i]) }

  predicate CharAt(s: string, i: nat, c: char) { i < |s| && s[i] == c }

  predicate IsSeparator(c: char) { c == '-' || c == '/' }

  predicate SeparatorAt(s: string, i: nat) { i < |s| && IsSeparator(s[i]) }

  /** `(\d{4})[-/](\d{1,2})[-/](\d{1,2})` at position i. */
  function IsoMatchAt(s: string, i: nat): Option<Components> {
    if i + 4 < |s| && AllDigits(s[i..i + 4]) && SeparatorAt(s, i + 4) then
      var year := Num(s[i..i + 4]);
      if DigitAt(s, i + 5) && DigitAt(s, i + 6) && SeparatorAt(s, i + 7) then
        IsoDayAt(s, i + 8, year, Num(s[i + 5..i + 7]))
      else if DigitAt(s, i + 5) && SeparatorAt(s, i + 6) then IsoDayAt(s, i + 7, year, Num(s[i + 5..i + 6]))
      else None
    else None
  }

  function IsoDayAt(s: string, i: nat, year: int, month: int): Option<Components> {
    if DigitAt(s, i) && DigitAt(s, i + 1) then Some(Components(year, month, Num(s[i..i + 2])))
    else if DigitAt(s, i) then Some(Components(year, month, Num(s[i..i + 1])))
    else None
  }

  function IsoSearch(s: string, i: nat): Option<Components>
    decreases |s| - i
  {
    if i >= |s| then None
    else if IsoMatchAt(s, i).Some? then IsoMatchAt(s, i)
    else IsoSearch(s, i + 1)
  }

  function SkipSpaces(s: string, i: nat): nat
    decreases |s| - i
  {
    if i < |s| && IsSpace(s[i]) then SkipSpaces(s, i + 1) else i
  }

  datatype Read = NoRead | Read(value: int, next: nat)

  /** `\s*(\d{1,2})` and then the unit character. */
  function NumberBefore(s: string, start: nat, unit: char): Read {
    var i := SkipSpaces(s, start);
    if DigitAt(s, i) && DigitAt(s, i + 1) && CharAt(s, i + 2, unit) then Read(Num(s[i..i + 2]), i + 3)
    else if DigitAt(s, i) && CharAt(s, i + 1, unit) then Read(Num(s[i..i + 1]), i + 2)
    else NoRead
  }

  /** Where `令和` or `R` at position i ends; 0 without it. */
  function EraEnd(s: string, i: nat): nat {
    if CharAt(s, i, '令') && CharAt(s, i + 1, '和') then i + 2 else if CharAt(s, i, 'R') then i + 1 else 0
  }

  /** `\s*(\d{1,2})年\s*(\d{1,2})月\s*(\d{1,2})日` from a position. */
  function NumbersAt(s: string, start: nat): Option<Components> {
    var year := NumberBefore(s, start, '年');
    if year.NoRead? then None else
    var month := NumberBefore(s, year.next, '月');
    if month.NoRead? then None else
    var day := NumberBefore(s, month.next, '日');
    if day.NoRead? then None else Some(Components(2018 + year.value, month.value, day.value))
  }

  /** `(?:令和|R)` and then the numbers, at position i. */
  function WarekiMatchAt(s: string, i: nat): Option<Components> {
    var start := EraEnd(s, i);
    if start == 0 then None else NumbersAt(s, start)
  }

  function WarekiSearch(s: string, i: nat): Option<Components>
    decreases |s| - i
  {
    if i >= |s| then None
    else if WarekiMatchAt(s, i).Some? then WarekiMatchAt(s, i)
    else WarekiSearch(s, i + 1)
  }

  /** `extractDateComponents`. */
  function ExtractDateComponents(s: string): Option<Components> {
    if IsoSearch(s, 0).Some? then IsoSearch(s, 0) else WarekiSearch(s, 0)
  }

  /** `Date.UTC`: two-digit years mean the twentieth century. */
  function UtcDay(c: Components): int {
    MakeDay(if 0 <= c.year <= 99 then 1900 + c.year else c.year, c.month, c.day)
  }

  /** `parseJapaneseDateToDate`, as a day number; the dates it can find are all within Date's range. */
  function ParseJapaneseDate(value: Option<string>): Option<int> {
    if value.None? || value.value == "" then None else
    var c := ExtractDateComponents(value.value);
    if c.None? then None else Some(UtcDay(c.value))
  }

  /** `normalizeDate`. */
  function NormalizeDate(value: Option<string>): Option<string> {
    var day := ParseJapaneseDate(value);
    if day.None? then None else Some(TextOf(DateOf(day.value)))
  }

  // ----- reading what was printed -----

  /** A plain date is found at once, whole. */
  lemma PlainIsFound(d: Date)
    requires 0 <= d.year <= 9999 && IsDate(d)
    ensures ExtractDateComponents(Plain(d)) == Some(Components(d.year, d.month, d.day))
  {
    var s := Plain(d);
    PowersOfTen();
    NumOfPad(d.year, 4);
    NumOfPad(d.month, 2);
    NumOfPad(d.day, 2);
    assert s[0..4] == Pad(d.year, 4) && s[5..7] == Pad(d.month, 2) && s[8..10] == Pad(d.day, 2);
    assert s[5] == Pad(d.month, 2)[0] && s[6] == Pad(d.month, 2)[1];
    assert s[8] == Pad(d.day, 2)[0] && s[9] == Pad(d.day, 2)[1];
  }

  /** Without a second separator there is no ISO date. */
  lemma {:induction false} NoIsoWithout(s: string, i: nat)
    requires forall j, k :: 0 <= j && j + 2 <= k <= j + 3 && k < |s| ==> !IsSeparator(s[j]) || !IsSeparator(s[k])
    ensures IsoSearch(s, i) == None
    decreases |s| - i
  {
    if i < |s| { NoIsoWithout(s, i + 1); }
  }

  lemma {:induction false} NoWarekiWithout(s: string, i: nat)
    requires forall j :: 0 <= j < |s| ==> s[j] != '令' && s[j] != 'R'
    ensures WarekiSearch(s, i) == None
    decreases |s| - i
  {
    if i < |s| { NoWarekiWithout(s, i + 1); }
  }

  /** The text of a year that is not of four digits holds no date that could be found. */
  lemma LongTextIsNotFound(d: Date)
    requires IsDate(d) && (d.year < 0 || d.year > 9999)
    ensures ExtractDateComponents(TextOf(d)) == None
  {
    var s := TextOf(d);
    var year := Pad(if d.year > 9999 then d.year else -d.year, 6);
    var month := Pad(d.month, 2);
    assert |s| == 10 && s[7] == '-';
    forall j | 1 <= j < 7 ensures IsDigit(s[j]) { assert s[j] == year[j - 1]; }
    forall j | 8 <= j < 10 ensures IsDigit(s[j]) { assert s[j] == month[j - 8]; }
    NoIsoWithout(s, 0);
    NoWarekiWithout(s, 0);
  }

  /** Normalising a normalised date changes nothing exactly when its year is 0100 to 9999. */
  lemma NormalizeIsIdempotentIff(value: Option<string>)
    requires NormalizeDate(value).Some?
    ensures NormalizeDate(NormalizeDate(value)) == NormalizeDate(value) <==>
              100 <= DateOf(ParseJapaneseDate(value).value).year <= 9999
  {
    NormalizeAgain(DateOf(ParseJapaneseDate(value).value));
  }

  lemma NormalizeOfFound(s: string, c: Components)
    requires s != "" && ExtractDateComponents(s) == Some(c)
    ensures NormalizeDate(Some(s)) == Some(TextOf(DateOf(UtcDay(c))))
  {}

  lemma NormalizeAgain(d: Date)
    requires IsDate(d)
    ensures NormalizeDate(Some(TextOf(d))) == Some(TextOf(d)) <==> 100 <= d.year <= 9999
  {
    if d.year < 0 || d.year > 9999 {
      LongTextIsNotFound(d);
    } else {
      PlainIsFound(d);
      NormalizeOfFound(TextOf(d), Components(d.year, d.month, d.day));
      if d.year <= 99 {
        CenturyMoved(d);
      } else {
        MakeDayOfDate(d);
        DateOfDayOf(d);
      }
    }
  }

  /** A two-digit year comes back in the twentieth century, as another date. */
  lemma CenturyMoved(d: Date)
    requires IsDate(d) && 0 <= d.year <= 99
    ensures TextOf(DateOf(MakeDay(1900 + d.year, d.month, d.day))) != TextOf(d)
  {
    var day := MakeDay(1900 + d.year, d.month, d.day);
    var e := DateOf(day);
    MonthCarries(1900 + d.year, d.month, d.day);
    DateWithinYear(e);
    if e.year < 1900 + d.year { YearsAreOrdered(e.year, 1900 + d.year); }
    if e.year > 1901 + d.year { YearsAreOrdered(1901 + d.year, e.year); YearLength(1900 + d.year); }
    PlainReads(e);
    PlainReads(d);
  }

  /** The first of a month lies within its year. */
  lemma FirstOfMonthIsBounded(y: int, m: int)
    requires 1 <= m <= 12
    ensures DayFromYear(y) <= DayOf(Date(y, m, 1)) < DayFromYear(y) + DaysInYear(y)
  {
    DaysBeforeIsNat(y, m);
    MonthsAreOrdered(y, m, 13);
    WholeYear(y);
  }

  lemma MonthCarries(y: int, m: int, d: int)
    requires 1 <= m <= 12 && 1 <= d <= 31
    ensures DayFromYear(y) <= MakeDay(y, m, d) < DayFromYear(y + 1) + 31
  {
    FirstOfMonthIsBounded(y, m);
    MakeDayInMonth(y, m, d);
    YearLength(y);
  }

  lemma MakeDayInMonth(y: int, m: int, d: int)
    requires 1 <= m <= 12
    ensures MakeDay(y, m, d) == DayOf(Date(y, m, 1)) + d - 1
  {
    assert (m - 1) / 12 == 0 && (m - 1) % 12 + 1 == m;
  }

  // ----- Reiwa dates -----

  /** How a Reiwa date can be written: the era's name or its letter, and white space before each number. */
  datatype Spelling = Spelling(
    era: string, w1: string, year: string, w2: string, month: string, w3: string, day: string)

  predicate AllSpaces(s: string) { s == "" || (IsSpace(s[0]) && AllSpaces(s[1..])) }

  predicate OneOrTwoDigits(s: string) { 1 <= |s| <= 2 && AllDigits(s) }

  predicate IsSpelling(t: Spelling) {
    && (t.era == "令和" || t.era == "R") && AllSpaces(t.w1) && AllSpaces(t.w2) && AllSpaces(t.w3)
    && OneOrTwoDigits(t.year) && OneOrTwoDigits(t.month) && OneOrTwoDigits(t.day)
  }

  /** White space, a number and its unit, before the rest of a text. */
  function Counted(w: string, n: string, unit: char, rest: string): string { w + n + [unit] + rest }

  /** The three numbers of a date, each before its unit. */
  function Numbers(t: Spelling, rest: string): string {
    Counted(t.w1, t.year, '年', Counted(t.w2, t.month, '月', Counted(t.w3, t.day, '日', rest)))
  }

  /** The spelling before the rest of a text. */
  function Spelled(t: Spelling, rest: string): string {
    t.era + Numbers(t, rest)
  }

  function Meant(t: Spelling): Components { Components(2018 + Num(t.year), Num(t.month), Num(t.day)) }

  lemma {:induction false} SpacesAreSkipped(s: string, i: nat, w: string)
    requires AllSpaces(w) && i + |w| < |s| && s[i..i + |w|] == w && !IsSpace(s[i + |w|])
    ensures SkipSpaces(s, i) == i + |w|
    decreases |w|
  {
    if w != "" {
      assert s[i] == w[0];
      SpacesAreSkipped(s, i + 1, w[1..]);
    }
  }

  /** Where the number, its unit and the rest stand. */
  lemma CountedParts(s: string, i: nat, w: string, n: string, unit: char, rest: string)
    requires i <= |s| && s[i..] == Counted(w, n, unit, rest)
    ensures var k := i + |w|;
            && k + |n| + 1 <= |s|
            && s[i..k] == w && s[k..k + |n|] == n && s[k + |n|] == unit && s[k + |n| + 1..] == rest
  {
    var k := i + |w|;
    var tail := s[i..];
    assert tail[..|w|] == w && tail[|w|..|w| + |n|] == n && tail[|w| + |n|] == unit;
    assert tail[|w| + |n| + 1..] == rest;
    assert s[i..k] == tail[..|w|] && s[k..k + |n|] == tail[|w|..|w| + |n|];
    assert s[k + |n| + 1..] == tail[|w| + |n| + 1..];
  }

  lemma NumberIsRead(s: string, i: nat, k: nat, n: string, unit: char)
    requires SkipSpaces(s, i) == k && OneOrTwoDigits(n) && !IsDigit(unit)
    requires k + |n| < |s| && s[k..k + |n|] == n && s[k + |n|] == unit
    ensures NumberBefore(s, i, unit) == Read(Num(n), k + |n| + 1)
  {
    assert s[k] == n[0];
    if |n| == 2 { assert s[k + 1] == n[1]; }
  }

  lemma DigitIsNoSpace(c: char)
    requires IsDigit(c)
    ensures !IsSpace(c)
  {}

  /** The number and its unit stand at position i of the text. */
  predicate CountedAt(s: string, i: nat, w: string, n: string, unit: char) {
    var k := i + |w|;
    k + |n| < |s| && s[i..k] == w && s[k..k + |n|] == n && s[k + |n|] == unit
  }

  function After(i: nat, w: string, n: string): nat { i + |w| + |n| + 1 }

  lemma CountedReads(s: string, i: nat, w: string, n: string, unit: char)
    requires AllSpaces(w) && OneOrTwoDigits(n) && !IsDigit(unit) && CountedAt(s, i, w, n, unit)
    ensures NumberBefore(s, i, unit) == Read(Num(n), After(i, w, n))
  {
    assert s[i + |w|] == n[0];
    DigitIsNoSpace(n[0]);
    SpacesAreSkipped(s, i, w);
    NumberIsRead(s, i, i + |w|, n, unit);
  }

  lemma CountedStands(s: string, i: nat, w: string, n: string, unit: char, rest: string)
    requires i <= |s| && s[i..] == Counted(w, n, unit, rest)
    ensures CountedAt(s, i, w, n, unit) && After(i, w, n) <= |s| && s[After(i, w, n)..] == rest
  {
    CountedParts(s, i, w, n, unit, rest);
  }

  /** The numbers of a spelling stand in the text, one after the other. */
  predicate NumbersStandAt(s: string, start: nat, t: Spelling) {
    var p := After(start, t.w1, t.year);
    && CountedAt(s, start, t.w1, t.year, '年') && CountedAt(s, p, t.w2, t.month, '月')
    && CountedAt(s, After(p, t.w2, t.month), t.w3, t.day, '日')
  }

  lemma NumbersStand(s: string, start: nat, t: Spelling, rest: string)
    requires start <= |s| && s[start..] == Numbers(t, rest)
    ensures NumbersStandAt(s, start, t)
  {
    var afterMonth := Counted(t.w3, t.day, '日', rest);
    var p := After(start, t.w1, t.year);
    CountedStands(s, start, t.w1, t.year, '年', Counted(t.w2, t.month, '月', afterMonth));
    CountedStands(s, p, t.w2, t.month, '月', afterMonth);
    CountedStands(s, After(p, t.w2, t.month), t.w3, t.day, '日', rest);
  }

  lemma YearIsRead(s: string, start: nat, t: Spelling)
    requires IsSpelling(t) && NumbersStandAt(s, start, t)
    ensures NumberBefore(s, start, '年') == Read(Num(t.year), After(start, t.w1, t.year))
  {
    CountedReads(s, start, t.w1, t.year, '年');
  }

  lemma MonthIsRead(s: string, start: nat, t: Spelling)
    requires IsSpelling(t) && NumbersStandAt(s, start, t)
    ensures var p := After(start, t.w1, t.year);
            NumberBefore(s, p, '月') == Read(Num(t.month), After(p, t.w2, t.month))
  {
    CountedReads(s, After(start, t.w1, t.year), t.w2, t.month, '月');
  }

  lemma DayIsRead(s: string, start: nat, t: Spelling)
    requires IsSpelling(t) && NumbersStandAt(s, start, t)
    ensures var q := After(After(start, t.w1, t.year), t.w2, t.month);
            NumberBefore(s, q, '日') == Read(Num(t.day), After(q, t.w3, t.day))
  {
    CountedReads(s, After(After(start, t.w1, t.year), t.w2, t.month), t.w3, t.day, '日');
  }

  /** The numbers of the spelling are read one after the other. */
  predicate NumbersRead(s: string, start: nat, t: Spelling) {
    var p := After(start, t.w1, t.year);
    var q := After(p, t.w2, t.month);
    && NumberBefore(s, start, '年') == Read(Num(t.year), p)
    && NumberBefore(s, p, '月') == Read(Num(t.month), q)
    && NumberBefore(s, q, '日') == Read(Num(t.day), After(q, t.w3, t.day))
  }

  lemma NumbersAreRead(s: string, start: nat, t: Spelling)
    requires IsSpelling(t) && NumbersStandAt(s, start, t)
    ensures NumbersRead(s, start, t)
  {
    YearIsRead(s, start, t);
    MonthIsRead(s, start, t);
    DayIsRead(s, start, t);
  }

  lemma ReadsAreMeant(s: string, start: nat, t: Spelling)
    requires NumbersRead(s, start, t)
    ensures NumbersAt(s, start) == Some(Meant(t))
  {}

  lemma EraEndsAt(s: string, i: nat, era: string, after: string)
    requires (era == "令和" || era == "R") && i <= |s| && s[i..] == era + after
    ensures EraEnd(s, i) == i + |era| <= |s| && s[i + |era|..] == after
  {
    var tail := s[i..];
    assert tail[|era|..] == after;
    assert s[i + |era|..] == tail[|era|..];
    assert s[i] == tail[0] == era[0];
    if era == "令和" { assert s[i + 1] == tail[1] == era[1]; }
  }

  /** A spelling matches where it stands, whatever comes after it. */
  lemma SpellingMatches(s: string, i: nat, t: Spelling, rest: string)
    requires IsSpelling(t) && i <= |s| && s[i..] == Spelled(t, rest)
    ensures WarekiMatchAt(s, i) == Some(Meant(t))
  {
    EraEndsAt(s, i, t.era, Numbers(t, rest));
    NumbersStand(s, i + |t.era|, t, rest);
    NumbersAreRead(s, i + |t.era|, t);
    ReadsAreMeant(s, i + |t.era|, t);
  }

  lemma {:induction false} SkippedAreSpaces(s: string, i: nat)
    requires i <= |s|
    ensures i <= SkipSpaces(s, i) <= |s| && AllSpaces(s[i..SkipSpaces(s, i)])
    decreases |s| - i
  {
    if i < |s| && IsSpace(s[i]) {
      SkippedAreSpaces(s, i + 1);
      assert s[i..SkipSpaces(s, i)][1..] == s[i + 1..SkipSpaces(s, i)];
    }
  }

  /** A number that was read is counted by the text where it was read. */
  lemma ReadIsCounted(s: string, i: nat, unit: char) returns (w: string, n: string)
    requires i <= |s| && NumberBefore(s, i, unit).Read?
    ensures var r := NumberBefore(s, i, unit);
            && AllSpaces(w) && OneOrTwoDigits(n) && r.value == Num(n)
            && r.next <= |s| && s[i..] == Counted(w, n, unit, s[r.next..])
  {
    var k := SkipSpaces(s, i);
    SkippedAreSpaces(s, i);
    w := s[i..k];
    n := if DigitAt(s, k) && DigitAt(s, k + 1) && CharAt(s, k + 2, unit) then s[k..k + 2] else s[k..k + 1];
    JoinParts(s, i, k, k + |n|);
  }

  lemma JoinParts(s: string, i: nat, k: nat, m: nat)
    requires i <= k <= m < |s|
    ensures s[i..] == s[i..k] + s[k..m] + [s[m]] + s[m + 1..]
  {}

  lemma MonthAndDayAreCounted(s: string, p: nat) returns (w2: string, m: string, w3: string, d: string, rest: string)
    requires p <= |s| && NumberBefore(s, p, '月').Read? && NumberBefore(s, NumberBefore(s, p, '月').next, '日').Read?
    ensures AllSpaces(w2) && OneOrTwoDigits(m) && AllSpaces(w3) && OneOrTwoDigits(d)
    ensures s[p..] == Counted(w2, m, '月', Counted(w3, d, '日', rest))
    ensures Num(m) == NumberBefore(s, p, '月').value
    ensures Num(d) == NumberBefore(s, NumberBefore(s, p, '月').next, '日').value
  {
    var q := NumberBefore(s, p, '月').next;
    w2, m := ReadIsCounted(s, p, '月');
    w3, d := ReadIsCounted(s, q, '日');
    rest := s[NumberBefore(s, q, '日').next..];
  }

  lemma NumbersAreReadable(s: string, start: nat)
    requires NumbersAt(s, start).Some?
    ensures var year := NumberBefore(s, start, '年');
            && year.Read?
            && var month := NumberBefore(s, year.next, '月');
               && month.Read?
               && var day := NumberBefore(s, month.next, '日');
                  day.Read? && NumbersAt(s, start) == Some(Components(2018 + year.value, month.value, day.value))
  {}

  lemma NumbersAreCounted(s: string, start: nat, era: string) returns (t: Spelling, rest: string)
    requires start <= |s| && NumberBefore(s, start, '年').Read? && (era == "令和" || era == "R")
    requires var p := NumberBefore(s, start, '年').next;
             NumberBefore(s, p, '月').Read? && NumberBefore(s, NumberBefore(s, p, '月').next, '日').Read?
    ensures IsSpelling(t) && t.era == era && s[start..] == Numbers(t, rest)
    ensures var year := NumberBefore(s, start, '年');
            var month := NumberBefore(s, year.next, '月');
            Meant(t) == Components(2018 + year.value, month.value, NumberBefore(s, month.next, '日').value)
  {
    var w1, y := ReadIsCounted(s, start, '年');
    var w2, m, w3, d, after := MonthAndDayAreCounted(s, NumberBefore(s, start, '年').next);
    t, rest := Spelling(era, w1, y, w2, m, w3, d), after;
  }

  lemma EraIsRead(s: string, i: nat) returns (era: string)
    requires i <= |s| && EraEnd(s, i) != 0
    ensures (era == "令和" || era == "R") && EraEnd(s, i) <= |s| && s[i..] == era + s[EraEnd(s, i)..]
  {
    var end := EraEnd(s, i);
    era := s[i..end];
    if end == i + 2 {
      assert era == "令和";
    } else {
      assert era == "R";
    }
    assert s[i..] == s[i..end] + s[end..];
  }

  /** Whatever matches is spelled so. */
  lemma MatchIsSpelled(s: string, i: nat) returns (t: Spelling, rest: string)
    requires i <= |s| && WarekiMatchAt(s, i).Some?
    ensures IsSpelling(t) && s[i..] == Spelled(t, rest) && WarekiMatchAt(s, i) == Some(Meant(t))
  {
    var era := EraIsRead(s, i);
    NumbersAreReadable(s, EraEnd(s, i));
    t, rest := NumbersAreCounted(s, EraEnd(s, i), era);
  }

  /** The text holds a Reiwa date in some spelling. */
  ghost predicate Holds(s: string, i: int) {
    exists t, rest :: IsSpelling(t) && 0 <= i <= |s| && s[i..] == Spelled(t, rest)
  }

  /** A Reiwa date is found exactly where one is spelled, in any of its spellings. */
  lemma WarekiMatchesIff(s: string, i: nat)
    requires i <= |s|
    ensures WarekiMatchAt(s, i).Some? <==> Holds(s, i)
  {
    if WarekiMatchAt(s, i).Some? {
      var t, rest := MatchIsSpelled(s, i);
    }
    if Holds(s, i) {
      var t, rest :| IsSpelling(t) && s[i..] == Spelled(t, rest);
      SpellingMatches(s, i, t, rest);
    }
  }

  /** The search answers the first match. */
  lemma {:induction false} SearchIsFirst(s: string, i: nat, k: nat)
    requires i <= k < |s| && WarekiMatchAt(s, k).Some?
    requires forall j :: i <= j < k ==> !Holds(s, j)
    ensures WarekiSearch(s, i) == WarekiMatchAt(s, k)
    decreases k - i
  {
    if i < k {
      WarekiMatchesIff(s, i);
      SearchIsFirst(s, i + 1, k);
    }
  }

  /**
   A Reiwa date anywhere in a text, in any spelling the pattern accepts, means the date 2018 years later: unless the
   text holds a western date, the first Reiwa date in it is found.
   */
  lemma WarekiIsFound(before: string, t: Spelling, rest: string)
    requires IsSpelling(t)
    requires var s := before + Spelled(t, rest);
             IsoSearch(s, 0).None? && forall j :: 0 <= j < |before| ==> !Holds(s, j)
    ensures ExtractDateComponents(before + Spelled(t, rest)) == Some(Meant(t))
  {
    var s := before + Spelled(t, rest);
    assert s[|before|..] == Spelled(t, rest);
    SpellingMatches(s, |before|, t, rest);
    SearchIsFirst(s, 0, |before|);
  }

  /** A text that is a Reiwa date and nothing else holds no western date. */
  lemma PlainWarekiIsFound(t: Spelling)
    requires IsSpelling(t)
    ensures ExtractDateComponents(Spelled(t, "")) == Some(Meant(t))
  {
    SpelledHasNoSeparators(t);
    NoIsoWithout(Spelled(t, ""), 0);
    assert "" + Spelled(t, "") == Spelled(t, "");
    WarekiIsFound("", t, "");
  }

  predicate NoSeparators(s: string) { forall i :: 0 <= i < |s| ==> !IsSeparator(s[i]) }

  lemma CountedHasNoSeparators(w: string, n: string, unit: char, rest: string)
    requires AllSpaces(w) && OneOrTwoDigits(n) && !IsSeparator(unit) && NoSeparators(rest)
    ensures NoSeparators(Counted(w, n, unit, rest))
  {
    SpacesAreNoSeparators(w);
  }

  lemma {:induction false} SpacesAreNoSeparators(w: string)
    requires AllSpaces(w)
    ensures NoSeparators(w)
  {
    if w != "" {
      SpacesAreNoSeparators(w[1..]);
      assert w == [w[0]] + w[1..];
    }
  }

  lemma SpelledHasNoSeparators(t: Spelling)
    requires IsSpelling(t)
    ensures NoSeparators(Spelled(t, ""))
  {
    var d := Counted(t.w3, t.day, '日', "");
    var m := Counted(t.w2, t.month, '月', d);
    CountedHasNoSeparators(t.w3, t.day, '日', "");
    CountedHasNoSeparators(t.w2, t.month, '月', d);
    CountedHasNoSeparators(t.w1, t.year, '年', m);
  }

  /** Without one in any spelling, and without a western date, nothing is found. */
  lemma NothingIsFoundIff(s: string)
    ensures ExtractDateComponents(s) == None <==>
              IsoSearch(s, 0).None? && forall j :: 0 <= j < |s| ==> !Holds(s, j)
  {
    if IsoSearch(s, 0).None? {
      SearchFindsIff(s, 0);
    }
  }

  lemma {:induction false} SearchFindsIff(s: string, i: nat)
    ensures WarekiSearch(s, i).None? <==> forall j :: i <= j < |s| ==> !Holds(s, j)
    decreases |s| - i
  {
    if i < |s| {
      WarekiMatchesIff(s, i);
      SearchFindsIff(s, i + 1);
    }
  }

  // ----- a month past the end -----

  predicate IsFifthOfYear10000(d: Date) { d.year == 10000 && d.month == 1 && d.day == 5 }

  /** The thirteenth month of year 9999 is found as such, */
  lemma MonthThirteenIsRead(s: string)
    requires |s| == 10 && s[..4] == "9999" && s[4..] == "-13-05"
    ensures ExtractDateComponents(s) == Some(Components(9999, 13, 5))
  {
    NumOfFour('9', '9', '9', '9');
    NumOfTwo('1', '3');
    NumOfTwo('0', '5');
    var r := s[4..];
    assert s[0..4] == ['9', '9', '9', '9'] && s[5..7] == r[1..3] == ['1', '3'] && s[8..10] == r[4..] == ['0', '5'];
    assert s[4] == r[0] && s[5] == r[1] && s[6] == r[2] && s[7] == r[3] && s[8] == r[4] && s[9] == r[5];
  }

  lemma MonthThirteenDay(c: Components, d: Date)
    requires c == Components(9999, 13, 5) && IsFifthOfYear10000(d)
    ensures UtcDay(c) == DayOf(d)
  {
    assert (c.month - 1) / 12 == 1 && (c.month - 1) % 12 == 0;
  }

  /** and is a date of year 10000, */
  lemma MonthThirteenIsFound(s: string, d: Date)
    requires |s| == 10 && s[..4] == "9999" && s[4..] == "-13-05" && IsFifthOfYear10000(d)
    ensures ParseJapaneseDate(Some(s)) == Some(DayOf(d))
  {
    MonthThirteenIsRead(s);
    MonthThirteenDay(ExtractDateComponents(s).value, d);
  }

  /** whose text does not normalise to itself. */
  lemma MonthThirteenNormalizesOnce(s: string, d: Date)
    requires |s| == 10 && s[..4] == "9999" && s[4..] == "-13-05" && IsFifthOfYear10000(d)
    ensures NormalizeDate(Some(s)).Some? && NormalizeDate(NormalizeDate(Some(s))) != NormalizeDate(Some(s))
  {
    MonthThirteenIsFound(s, d);
    DateOfDayOf(d);
    NormalizeIsIdempotentIff(Some(s));
  }

  // ----- every date that can be found is within Date's range -----

  lemma NumBounds(s: string)
    requires AllDigits(s)
    ensures 0 <= Num(s) && (|s| <= 2 ==> Num(s) <= 99) && (|s| == 4 ==> Num(s) <= 9999)
  {
    PadOfNum(s);
    PowersOfTen();
    assert Pow10(1) == 10;
  }

  predicate Bounded(c: Components) { 0 <= c.year <= 9999 && 0 <= c.month <= 99 && 0 <= c.day <= 99 }

  lemma IsoMatchIsBounded(s: string, i: nat)
    ensures IsoMatchAt(s, i).Some? ==> Bounded(IsoMatchAt(s, i).value)
  {
    if IsoMatchAt(s, i).Some? {
      NumBounds(s[i..i + 4]);
      if DigitAt(s, i + 5) && DigitAt(s, i + 6) && SeparatorAt(s, i + 7) {
        NumBounds(s[i + 5..i + 7]);
        IsoDayIsBounded(s, i + 8, Num(s[i..i + 4]), Num(s[i + 5..i + 7]));
      } else {
        NumBounds(s[i + 5..i + 6]);
        IsoDayIsBounded(s, i + 7, Num(s[i..i + 4]), Num(s[i + 5..i + 6]));
      }
    }
  }

  lemma IsoDayIsBounded(s: string, i: nat, year: int, month: int)
    requires 0 <= year <= 9999 && 0 <= month <= 99
    ensures IsoDayAt(s, i, year, month).Some? ==> Bounded(IsoDayAt(s, i, year, month).value)
  {
    if DigitAt(s, i) && DigitAt(s, i + 1) {
      NumBounds(s[i..i + 2]);
    } else if DigitAt(s, i) {
      NumBounds(s[i..i + 1]);
    }
  }

  lemma {:induction false} IsoSearchIsBounded(s: string, i: nat)
    ensures IsoSearch(s, i).Some? ==> Bounded(IsoSearch(s, i).value)
    decreases |s| - i
  {
    if i < |s| {
      IsoMatchIsBounded(s, i);
      IsoSearchIsBounded(s, i + 1);
    }
  }

  lemma NumberIsBounded(s: string, start: nat, unit: char)
    ensures var r := NumberBefore(s, start, unit); r.Read? ==> 0 <= r.value <= 99
  {
    var i := SkipSpaces(s, start);
    if DigitAt(s, i) && DigitAt(s, i + 1) && CharAt(s, i + 2, unit) {
      NumBounds(s[i..i + 2]);
    } else if DigitAt(s, i) && CharAt(s, i + 1, unit) {
      NumBounds(s[i..i + 1]);
    }
  }

  lemma WarekiMatchIsBounded(s: string, i: nat)
    ensures WarekiMatchAt(s, i).Some? ==> Bounded(WarekiMatchAt(s, i).value)
  {
    var start := EraEnd(s, i);
    var year := NumberBefore(s, start, '年');
    NumberIsBounded(s, start, '年');
    if year.Read? {
      var month := NumberBefore(s, year.next, '月');
      NumberIsBounded(s, year.next, '月');
      if month.Read? {
        NumberIsBounded(s, month.next, '日');
      }
    }
  }

  lemma {:induction false} WarekiSearchIsBounded(s: string, i: nat)
    ensures WarekiSearch(s, i).Some? ==> Bounded(WarekiSearch(s, i).value)
    decreases |s| - i
  {
    if i < |s| {
      WarekiMatchIsBounded(s, i);
      WarekiSearchIsBounded(s, i + 1);
    }
  }

  lemma YearDayIsBounded(y: int)
    requires 0 <= y <= 10_100
    ensures -800_000 <= DayFromYear(y) <= 3_800_000
  {
    assert -493 <= (y - 1969) / 4 <= 2033 && -20 <= (y - 1901) / 100 <= 82 && -5 <= (y - 1601) / 400 <= 22;
  }

  lemma MakeDayIsBounded(year: int, month: int, day: int)
    requires 100 <= year <= 9999 && 0 <= month <= 99 && 0 <= day <= 99
    ensures -1_000_000 <= MakeDay(year, month, day) <= 4_000_000
  {
    var y, m := year + (month - 1) / 12, (month - 1) % 12 + 1;
    assert -1 <= (month - 1) / 12 <= 8;
    YearDayIsBounded(y);
    FirstOfMonthIsBounded(y, m);
    assert MakeDay(year, month, day) == DayOf(Date(y, m, 1)) + day - 1;
  }

  lemma UtcDayIsBounded(c: Components)
    requires Bounded(c)
    ensures -1_000_000 <= UtcDay(c) <= 4_000_000
  {
    MakeDayIsBounded(if c.year <= 99 then 1900 + c.year else c.year, c.month, c.day);
  }

  /** A found date lies far inside Date's range, so neither `toISOString` nor shifting by two throws. */
  lemma FoundDatesAreInRange(value: Option<string>)
    ensures ParseJapaneseDate(value).Some? ==> -1_000_000 <= ParseJapaneseDate(value).value <= 4_000_000
  {
    if value.Some? && value.value != "" && ExtractDateComponents(value.value).Some? {
      IsoSearchIsBounded(value.value, 0);
      WarekiSearchIsBounded(value.value, 0);
      UtcDayIsBounded(ExtractDateComponents(value.value).value);
    }
  }
}
