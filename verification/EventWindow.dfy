/** Prices around an event: sorted daily bars, the last close on or before a date, and the event window. */
module EventWindow {
  import opened Options
  import opened CivilDays
  import opened IsoDates
  import opened StableSort

  datatype Bar = Bar(date: string, close: Option<real>, adjustmentClose: Option<real>)

  predicate BarLe(a: Bar, b: Bar) { StrLe(a.date, b.date) }

  /** `dailyBars` after parsing: the rows sorted by date. */
  function DailyBars(rows: seq<Bar>): seq<Bar> { Sort(BarLe, rows) }

  lemma BarOrder()
    ensures TotalPreorder(BarLe)
  {
    forall a: Bar, b: Bar
      ensures BarLe(a, b) || BarLe(b, a)
    {
      StrLeIsTotal(a.date, b.date);
    }
    forall a: Bar, b: Bar, c: Bar | BarLe(a, b) && BarLe(b, c)
      ensures BarLe(a, c)
    {
      StrLeIsTransitive(a.date, b.date, c.date);
    }
  }

  function CloseOf(bar: Bar): Option<real> { if bar.adjustmentClose.Some? then bar.adjustmentClose else bar.close }

  /** The last bar of a list that is not after a date. */
  function LastOnOrBefore(bars: seq<Bar>, date: string): Option<Bar> {
    if bars == [] then None
    else if StrLe(bars[|bars| - 1].date, date) then Some(bars[|bars| - 1])
    else LastOnOrBefore(bars[..|bars| - 1], date)
  }

  function LastClose(bars: seq<Bar>, date: string): Option<real> {
    var bar := LastOnOrBefore(bars, date);
    if bar.None? then None else CloseOf(bar.value)
  }

  method LastCloseOnOrBefore(bars: seq<Bar>, date: string) returns (close: Option<real>)
    ensures close == LastClose(bars, date)
    ensures if exists j :: 0 <= j < |bars| && StrLe(bars[j].date, date) then
              exists i :: LastAt(bars, date, i)
                && close == if bars[i].adjustmentClose.Some? then bars[i].adjustmentClose else bars[i].close
            else close.None?
  {
    ScanFindsLast(bars, date);
    var index := |bars|;
    assert bars[..index] == bars;
    while index > 0
      invariant 0 <= index <= |bars| && LastOnOrBefore(bars[..index], date) == LastOnOrBefore(bars, date)
    {
      index := index - 1;
      assert bars[..index + 1][..index] == bars[..index];
      if StrLe(bars[index].date, date) {
        return CloseOf(bars[index]);
      }
    }
    return None;
  }

  // ----- what the scan selects -----

  lemma {:induction false} ScanFindsLast(bars: seq<Bar>, date: string)
    ensures var r := LastOnOrBefore(bars, date);
            if r.None? then forall i :: 0 <= i < |bars| ==> !StrLe(bars[i].date, date)
            else exists i :: LastAt(bars, date, i) && bars[i] == r.value
  {
    if bars != [] {
      var init := bars[..|bars| - 1];
      ScanFindsLast(init, date);
      if StrLe(bars[|bars| - 1].date, date) {
        assert LastAt(bars, date, |bars| - 1);
      } else if LastOnOrBefore(init, date).Some? {
        var i :| LastAt(init, date, i) && init[i] == LastOnOrBefore(init, date).value;
        assert LastAt(bars, date, i);
      }
    }
  }

  /** Position i is the last one not after the date. */
  ghost predicate LastAt(bars: seq<Bar>, date: string, i: int) {
    0 <= i < |bars| && StrLe(bars[i].date, date) && forall j :: i < j < |bars| ==> !StrLe(bars[j].date, date)
  }

  /** No row on or before the date is later than `bar`. */
  ghost predicate IsLatest(rows: seq<Bar>, date: string, bar: Bar) {
    bar in rows && StrLe(bar.date, date) && forall b :: b in rows && StrLe(b.date, date) ==> StrLe(b.date, bar.date)
  }

  lemma LatestOfSorted(bars: seq<Bar>, date: string)
    requires SortedBy(BarLe, bars)
    ensures var r := LastOnOrBefore(bars, date);
            if r.Some? then IsLatest(bars, date, r.value) else forall b :: b in bars ==> !StrLe(b.date, date)
  {
    ScanFindsLast(bars, date);
    var r := LastOnOrBefore(bars, date);
    if r.Some? {
      var i :| LastAt(bars, date, i) && bars[i] == r.value;
      forall b | b in bars && StrLe(b.date, date)
        ensures StrLe(b.date, r.value.date)
      {
        var k :| 0 <= k < |bars| && bars[k] == b;
        StrLeIsTotal(b.date, b.date);
        assert k < i ==> BarLe(bars[k], bars[i]);
      }
    }
  }

  /**
   For all rows, in any order: nothing is selected exactly when no row is on or before the date, and what is
   selected is a row with the greatest such date.
   */
  lemma SelectionIsLatest(rows: seq<Bar>, date: string)
    ensures var r := LastOnOrBefore(DailyBars(rows), date);
            if r.Some? then IsLatest(rows, date, r.value) else forall b :: b in rows ==> !StrLe(b.date, date)
  {
    BarOrder();
    SortSorts(BarLe, rows);
    LatestOfSorted(DailyBars(rows), date);
    forall b
      ensures b in DailyBars(rows) <==> b in rows
    {
      SortMembers(BarLe, rows, b);
    }
  }

  /** Rows of one date keep their order, so among them the last row given is the one selected. */
  lemma SelectionIsLastGiven(rows: seq<Bar>, date: string)
    requires LastOnOrBefore(DailyBars(rows), date).Some?
    ensures var bar := LastOnOrBefore(DailyBars(rows), date).value;
            var same := Filter((b: Bar) => b.date == bar.date, rows);
            same != [] && same[|same| - 1] == bar
  {
    var bar := LastOnOrBefore(DailyBars(rows), date).value;
    var p := (b: Bar) => b.date == bar.date;
    StrLeIsTotal(bar.date, bar.date);
    SortIsStable(BarLe, rows, p);
    FilterEndsWithScan(DailyBars(rows), date, bar, p);
  }

  lemma {:induction false} FilterEndsWithScan(bars: seq<Bar>, date: string, bar: Bar, p: Bar -> bool)
    requires LastOnOrBefore(bars, date) == Some(bar) && forall b :: p(b) <==> b.date == bar.date
    ensures Filter(p, bars) != [] && Filter(p, bars)[|Filter(p, bars)| - 1] == bar
  {
    var init, last := bars[..|bars| - 1], bars[|bars| - 1];
    assert bars == init + [last];
    FilterOfConcat(p, init, last);
    if !StrLe(last.date, date) {
      ScanIsOnOrBefore(init, date);
      FilterEndsWithScan(init, date, bar, p);
    }
  }

  lemma {:induction false} ScanIsOnOrBefore(bars: seq<Bar>, date: string)
    ensures LastOnOrBefore(bars, date).Some? ==> StrLe(LastOnOrBefore(bars, date).value.date, date)
  {
    if bars != [] { ScanIsOnOrBefore(bars[..|bars| - 1], date); }
  }

  // ----- the window -----

  function PctChange(start: Option<real>, end: Option<real>): Option<real> {
    if start.None? || end.None? || start.value == 0.0 then None
    else Some((end.value - start.value) / start.value * 100.0)
  }

  datatype Window = Window(from: string, to: string, closeAtEvent: Option<real>, closeAtEnd: Option<real>,
          pctChange: Option<real>)

  /** `eventWindow`, given the rows the market data service answers; None when a shift throws. */
  function EventWindowOf(rows: seq<Bar>, eventDate: string, windowDays: int): Option<Window> {
    var from, to := Shift(eventDate, -windowDays), Shift(eventDate, windowDays);
    if from.None? || to.None? then None
    else
      var bars := DailyBars(rows);
      var atEvent, atEnd := LastClose(bars, eventDate), LastClose(bars, to.value);
      var end := if atEnd.Some? then atEnd else atEvent;
      Some(Window(from.value, to.value, atEvent, end, PctChange(atEvent, end)))
  }

  lemma WindowDates(rows: seq<Bar>, eventDate: string, windowDays: int)
    ensures var w := EventWindowOf(rows, eventDate, windowDays);
            && (w.Some? <==> Shift(eventDate, -windowDays).Some? && Shift(eventDate, windowDays).Some?)
            && (w.Some? ==> Shift(eventDate, -windowDays) == Some(w.value.from))
            && (w.Some? ==> Shift(eventDate, windowDays) == Some(w.value.to))
  {}

  /** A window exists exactly when both its ends are in the range of Date. */
  lemma WindowExistsIff(rows: seq<Bar>, eventDate: string, windowDays: int)
    requires IsIsoDate(eventDate)
    ensures EventWindowOf(rows, eventDate, windowDays).Some? <==>
              InTimeRange(DayIn(eventDate) - windowDays) && InTimeRange(DayIn(eventDate) + windowDays)
  {
    WindowDates(rows, eventDate, windowDays);
    ShiftReads(eventDate, -windowDays);
    ShiftReads(eventDate, windowDays);
  }

  /** A window of `days` around a date, as texts in string order. */
  ghost predicate Surrounds(from: string, date: string, to: string, days: int)
    requires IsIsoDate(date)
  {
    && IsIsoDate(from) && IsIsoDate(to) && StrLe(from, date) && StrLe(date, to)
    && DayIn(from) == DayIn(date) - days && DayIn(to) == DayIn(date) + days
  }

  /** A date and the dates `days` before (shifted by `back`) and after it, all in years of four digits. */
  ghost predicate StaysPlain(date: string, days: nat, back: int) {
    && IsIsoDate(date) && back + days == 0
    && 0 <= Landing(date, back).year <= 9999 && 0 <= Landing(date, days).year <= 9999
  }

  lemma ShiftsSurround(date: string, days: nat, back: int) returns (from: string, to: string)
    ensures StaysPlain(date, days, back) ==>
              Shift(date, back) == Some(from) && Shift(date, days) == Some(to) && Surrounds(from, date, to, days)
  {
    from, to := "", "";
    if StaysPlain(date, days, back) {
      from := ShiftedDate(date, back);
      to := ShiftedDate(date, days);
    }
  }

  lemma ShiftText(date: string, delta: int, text: string)
    requires IsIsoDate(date) && Shift(date, delta) == Some(text)
    ensures ToIso(DayIn(date) + delta) == Some(text)
  {
    ShiftReads(date, delta);
  }

  lemma WindowTexts(rows: seq<Bar>, eventDate: string, windowDays: nat, back: int)
    requires IsIsoDate(eventDate) && back + windowDays == 0 && EventWindowOf(rows, eventDate, windowDays).Some?
    ensures var w := EventWindowOf(rows, eventDate, windowDays).value;
            ToIso(DayIn(eventDate) + back) == Some(w.from) && ToIso(DayIn(eventDate) + windowDays) == Some(w.to)
  {
    var w := EventWindowOf(rows, eventDate, windowDays).value;
    WindowDates(rows, eventDate, windowDays);
    ShiftText(eventDate, back, w.from);
    ShiftText(eventDate, windowDays, w.to);
  }

  lemma PlainWindow(rows: seq<Bar>, eventDate: string, windowDays: nat, back: int)
    requires StaysPlain(eventDate, windowDays, back)
    ensures EventWindowOf(rows, eventDate, windowDays).Some?
    ensures var w := EventWindowOf(rows, eventDate, windowDays).value; Surrounds(w.from, eventDate, w.to, windowDays)
  {
    var from, to := ShiftsSurround(eventDate, windowDays, back);
    WindowDates(rows, eventDate, windowDays);
  }

  /** The ends of a window are the texts of the days `windowDays` before and after the event.  Within years 0 to 9999
      they are dates, and in this order as strings too. */
  lemma WindowSurroundsEvent(rows: seq<Bar>, eventDate: string, windowDays: nat, back: int)
    requires IsIsoDate(eventDate) && back + windowDays == 0
    ensures var w := EventWindowOf(rows, eventDate, windowDays);
            w.Some? ==> ToIso(DayIn(eventDate) + back) == Some(w.value.from)
                        && ToIso(DayIn(eventDate) + windowDays) == Some(w.value.to)
    ensures StaysPlain(eventDate, windowDays, back) ==>
              var w := EventWindowOf(rows, eventDate, windowDays);
              w.Some? && Surrounds(w.value.from, eventDate, w.value.to, windowDays)
  {
    if EventWindowOf(rows, eventDate, windowDays).Some? { WindowTexts(rows, eventDate, windowDays, back); }
    if StaysPlain(eventDate, windowDays, back) { PlainWindow(rows, eventDate, windowDays, back); }
  }

  /** The text a shift yields, its day, and its place in string order. */
  lemma ShiftedDate(date: string, delta: int) returns (text: string)
    requires IsIsoDate(date) && 0 <= Landing(date, delta).year <= 9999
    ensures Shift(date, delta) == Some(text) && IsIsoDate(text) && DayIn(text) == DayIn(date) + delta
    ensures (StrLe(date, text) <==> delta >= 0) && (StrLe(text, date) <==> delta <= 0)
  {
    ShiftMovesDays(date, delta);
    text := Shift(date, delta).value;
    OrderAgrees(date, text, delta);
  }

  lemma OrderAgrees(a: string, b: string, delta: int)
    requires IsIsoDate(a) && IsIsoDate(b) && DayIn(b) == DayIn(a) + delta
    ensures (StrLe(a, b) <==> delta >= 0) && (StrLe(b, a) <==> delta <= 0)
  {
    StringOrderIsDateOrder(a, b);
    StringOrderIsDateOrder(b, a);
  }

  /** A text of a year that is not of four digits starts with a sign, so it stands before every plain date. */
  lemma LongTextIsFirst(d: Date, date: string)
    requires IsDate(d) && !(0 <= d.year <= 9999) && IsIsoDate(date)
    ensures StrLe(TextOf(d), date) && !StrLe(date, TextOf(d))
  {
    assert IsDigit(date[..4][0]);
    assert TextOf(d)[0] == '+' || TextOf(d)[0] == '-';
  }

  /** Where the text of a shift stands: as its day does, unless the year is not of four digits. */
  lemma ShiftedOrder(date: string, delta: int, text: string, landing: Date)
    requires IsIsoDate(date) && Shift(date, delta) == Some(text) && landing == Landing(date, delta)
    ensures 0 <= landing.year <= 9999 ==> (StrLe(date, text) <==> delta >= 0) && (StrLe(text, date) <==> delta <= 0)
    ensures !(0 <= landing.year <= 9999) ==> StrLe(text, date) && !StrLe(date, text)
  {
    if 0 <= landing.year <= 9999 {
      var t := ShiftedDate(date, delta);
    } else {
      ShiftReads(date, delta);
      LongTextIsFirst(landing, date);
    }
  }

  /** A shift forward never lands before year 0. */
  lemma ForwardStaysPositive(date: string, days: int, landing: Date)
    requires IsIsoDate(date) && days >= 0 && landing == Landing(date, days)
    ensures landing.year >= 0
  {
    IsoDateIsPlain(date);
    DaysOrderDates(landing, ReadDate(date).value);
  }

  /** For every window: it begins by the event, and the event is by its end if and only if that is by year 9999. */
  lemma WindowIsInOrderIff(rows: seq<Bar>, eventDate: string, windowDays: int)
    requires IsIsoDate(eventDate) && windowDays >= 0 && EventWindowOf(rows, eventDate, windowDays).Some?
    ensures var w := EventWindowOf(rows, eventDate, windowDays).value;
            StrLe(w.from, eventDate) && (StrLe(eventDate, w.to) <==> Landing(eventDate, windowDays).year <= 9999)
  {
    var w := EventWindowOf(rows, eventDate, windowDays).value;
    ShiftsInOrderIff(eventDate, windowDays, -windowDays, w.from, w.to);
  }

  lemma ShiftsInOrderIff(date: string, days: int, back: int, from: string, to: string)
    requires IsIsoDate(date) && days >= 0 && back + days == 0
    requires Shift(date, back) == Some(from) && Shift(date, days) == Some(to)
    ensures StrLe(from, date) && (StrLe(date, to) <==> Landing(date, days).year <= 9999)
  {
    ShiftedOrder(date, back, from, Landing(date, back));
    ShiftedOrder(date, days, to, Landing(date, days));
    ForwardStaysPositive(date, days, Landing(date, days));
  }

  /** A window that exists and whose end, as a string, stands before the event. */
  predicate EndsBeforeEvent(rows: seq<Bar>, eventDate: string, windowDays: int) {
    var w := EventWindowOf(rows, eventDate, windowDays);
    w.Some? && !StrLe(eventDate, w.value.to)
  }

  /** Every window that ends after year 9999, within the range of Date, ends as a string before the event. */
  lemma LateWindowIsOutOfOrder(rows: seq<Bar>, eventDate: string, windowDays: int)
    requires IsIsoDate(eventDate) && windowDays >= 0 && Landing(eventDate, windowDays).year > 9999
    ensures EndsBeforeEvent(rows, eventDate, windowDays) <==>
              InTimeRange(DayIn(eventDate) - windowDays) && InTimeRange(DayIn(eventDate) + windowDays)
  {
    WindowExistsIff(rows, eventDate, windowDays);
    if EventWindowOf(rows, eventDate, windowDays).Some? { WindowIsInOrderIff(rows, eventDate, windowDays); }
  }

  /** So do the windows of up to a month around 9999-12-31. */
  lemma LastDayIsOutOfOrder(rows: seq<Bar>, eventDate: string, windowDays: nat)
    requires eventDate == "9999-12-31" && 1 <= windowDays <= 31
    ensures EndsBeforeEvent(rows, eventDate, windowDays)
  {
    LastDayIs(eventDate);
    AfterLastDay(eventDate, windowDays);
    LateWindowIsOutOfOrder(rows, eventDate, windowDays);
  }

  lemma LaterBarIsNotEarlier(rows: seq<Bar>, eventDate: string, to: string)
    requires StrLe(eventDate, to) && LastOnOrBefore(DailyBars(rows), eventDate).Some?
    ensures LastOnOrBefore(DailyBars(rows), to).Some?
    ensures StrLe(LastOnOrBefore(DailyBars(rows), eventDate).value.date, LastOnOrBefore(DailyBars(rows), to).value.date)
  {
    SelectionIsLatest(rows, eventDate);
    SelectionIsLatest(rows, to);
    StrLeIsTransitive(LastOnOrBefore(DailyBars(rows), eventDate).value.date, eventDate, to);
  }

  /** When the window ends by year 9999, the bar for its end is never earlier than the bar for the event. */
  lemma EndBarIsNotEarlier(rows: seq<Bar>, eventDate: string, windowDays: int)
    requires IsIsoDate(eventDate) && windowDays >= 0 && EventWindowOf(rows, eventDate, windowDays).Some?
    requires Landing(eventDate, windowDays).year <= 9999 && LastOnOrBefore(DailyBars(rows), eventDate).Some?
    ensures var to := EventWindowOf(rows, eventDate, windowDays).value.to;
            && LastOnOrBefore(DailyBars(rows), to).Some?
            && StrLe(LastOnOrBefore(DailyBars(rows), eventDate).value.date,
                LastOnOrBefore(DailyBars(rows), to).value.date)
  {
    WindowIsInOrderIff(rows, eventDate, windowDays);
    LaterBarIsNotEarlier(rows, eventDate, EventWindowOf(rows, eventDate, windowDays).value.to);
  }

  /** Otherwise no dated row is on or before its end, and the close at the end is that of the event. */
  lemma EndCloseFallsBack(rows: seq<Bar>, eventDate: string, windowDays: int)
    requires IsIsoDate(eventDate) && EventWindowOf(rows, eventDate, windowDays).Some?
    requires Landing(eventDate, windowDays).year > 9999 && forall b :: b in rows ==> IsIsoDate(b.date)
    ensures var w := EventWindowOf(rows, eventDate, windowDays).value; w.closeAtEnd == w.closeAtEvent
  {
    var w := EventWindowOf(rows, eventDate, windowDays).value;
    ShiftReads(eventDate, windowDays);
    var landing := Landing(eventDate, windowDays);
    forall b | b in rows
      ensures !StrLe(b.date, w.to)
    {
      LongTextIsFirst(landing, b.date);
    }
    SelectionIsLatest(rows, w.to);
  }

  /** Row i is the one a close is read from: of the greatest date on or before the date, the last given. */
  ghost predicate IsSelected(rows: seq<Bar>, date: string, i: int) {
    && 0 <= i < |rows| && StrLe(rows[i].date, date)
    && forall j :: 0 <= j < |rows| && StrLe(rows[j].date, date) ==>
         StrLe(rows[j].date, rows[i].date) && (j > i ==> rows[j].date != rows[i].date)
  }

  /** The close at a date: the adjusted close of the selected row when it has one, else its raw close; none when no row
      is on or before the date. */
  ghost predicate IsCloseAt(rows: seq<Bar>, date: string, close: Option<real>) {
    if exists j :: 0 <= j < |rows| && StrLe(rows[j].date, date) then
      exists i :: IsSelected(rows, date, i)
        && close == if rows[i].adjustmentClose.Some? then rows[i].adjustmentClose else rows[i].close
    else close.None?
  }

  /** The last element a filter keeps stands at the last position it accepts. */
  lemma {:induction false} FilterEndsAt<T>(p: T -> bool, s: seq<T>) returns (i: nat)
    requires Filter(p, s) != []
    ensures i < |s| && p(s[i]) && s[i] == Filter(p, s)[|Filter(p, s)| - 1] && forall j :: i < j < |s| ==> !p(s[j])
  {
    var init, last := s[..|s| - 1], s[|s| - 1];
    assert s == init + [last];
    FilterOfConcat(p, init, last);
    if p(last) {
      i := |s| - 1;
    } else {
      i := FilterEndsAt(p, init);
    }
  }

  lemma SelectedRow(rows: seq<Bar>, date: string) returns (i: nat)
    requires LastOnOrBefore(DailyBars(rows), date).Some?
    ensures IsSelected(rows, date, i) && rows[i] == LastOnOrBefore(DailyBars(rows), date).value
  {
    var bar := LastOnOrBefore(DailyBars(rows), date).value;
    SelectionIsLatest(rows, date);
    SelectionIsLastGiven(rows, date);
    i := FilterEndsAt((b: Bar) => b.date == bar.date, rows);
  }

  lemma CloseIsOfSelected(rows: seq<Bar>, date: string)
    ensures IsCloseAt(rows, date, LastClose(DailyBars(rows), date))
  {
    SelectionIsLatest(rows, date);
    if LastOnOrBefore(DailyBars(rows), date).Some? {
      var i := SelectedRow(rows, date);
    }
  }

  lemma ChangeIsPercentage(start: real, end: real, pct: real)
    requires start != 0.0 && pct == (end - start) / start * 100.0
    ensures start * (100.0 + pct) == 100.0 * end
  {
    var ratio := (end - start) / start;
    assert ratio * start == end - start;
    assert start * pct == 100.0 * (ratio * start);
  }

  /** The change in percent from the first close to the second, where there are both and the first is not 0. */
  ghost predicate IsChange(start: Option<real>, end: Option<real>, pct: Option<real>) {
    && (pct.Some? <==> start.Some? && end.Some? && start.value != 0.0)
    && (pct.Some? ==> start.value * (100.0 + pct.value) == 100.0 * end.value)
  }

  lemma ChangeIs(start: Option<real>, end: Option<real>)
    ensures IsChange(start, end, PctChange(start, end))
  {
    if PctChange(start, end).Some? { ChangeIsPercentage(start.value, end.value, PctChange(start, end).value); }
  }

  lemma WindowFields(rows: seq<Bar>, eventDate: string, windowDays: int)
    requires EventWindowOf(rows, eventDate, windowDays).Some?
    ensures var w := EventWindowOf(rows, eventDate, windowDays).value;
            var atEnd := LastClose(DailyBars(rows), w.to);
            && w.closeAtEvent == LastClose(DailyBars(rows), eventDate)
            && w.closeAtEnd == (if atEnd.Some? then atEnd else w.closeAtEvent)
            && w.pctChange == PctChange(w.closeAtEvent, w.closeAtEnd)
  {}

  /** The window's closes: that of the event, and that of its end, for which a missing one is the event's; and the
      change between them. */
  lemma WindowClosesAreLatest(rows: seq<Bar>, eventDate: string, windowDays: int) returns (atEnd: Option<real>)
    requires EventWindowOf(rows, eventDate, windowDays).Some?
    ensures var w := EventWindowOf(rows, eventDate, windowDays).value;
            && IsCloseAt(rows, eventDate, w.closeAtEvent)
            && IsCloseAt(rows, w.to, atEnd)
            && w.closeAtEnd == (if atEnd.Some? then atEnd else w.closeAtEvent)
            && IsChange(w.closeAtEvent, w.closeAtEnd, w.pctChange)
  {
    var w := EventWindowOf(rows, eventDate, windowDays).value;
    WindowFields(rows, eventDate, windowDays);
    CloseIsOfSelected(rows, eventDate);
    CloseIsOfSelected(rows, w.to);
    atEnd := LastClose(DailyBars(rows), w.to);
    ChangeIs(w.closeAtEvent, w.closeAtEnd);
  }
}
