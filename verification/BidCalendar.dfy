/** The calendar export of a bid: which events it has, their identifiers, and the iCalendar file. */
module BidCalendar {
  import opened Options
  import opened Bids
  import opened CivilDays
  import opened IsoDates
  import opened JapaneseDates
  import opened IcsText
  import opened Strings
  import opened Lists

  /** Requirements extracted from the bid's documents, where there are any. */
  datatype Extracted = Extracted(
    tenderSubmissionDeadline: Option<string>, openingDate: Option<string>, briefingDate: Option<string>)

  datatype Kind = InternalReview | SubmissionDeadline | Opening | PeriodEnd

  function KindText(k: Kind): string {
    match k
    case InternalReview => "internal_review"
    case SubmissionDeadline => "submission_deadline"
    case Opening => "opening"
    case PeriodEnd => "period_end"
  }

  datatype Event = Event(title: string, date: string, kind: Kind, sourceField: string)

  function OrElse(a: Option<string>, b: Option<string>): Option<string> { if a.Some? then a else b }

  /** `addDays(date, -2)`; the default is never taken for a normalised date. */
  function TwoDaysBefore(date: string): string { Shift(date, -2).GetOr(date) }

  /** The review is dated exactly two days before the submission for every year up to 9999. */
  lemma ReviewIsTwoDaysBefore(value: Option<string>, day: int, date: string)
    requires ParseJapaneseDate(value) == Some(day) && NormalizeDate(value) == Some(date)
    ensures Shift(date, -2).Some?
    ensures 0 <= DateOf(day).year <= 9999 ==> Some(TwoDaysBefore(date)) == ToIso(day - 2)
  {
    NormalizedReads(value, day, date);
    var r := Readable(DateOf(day));
    ReviewReads(date, r, DayOf(r) - 2);
  }

  /** A submission whose review is printed as the day two before it: by year 9999, or where the printed month is right
      although the day of the submission is cut off. */
  predicate ReviewIsRight(d: Date) {
    0 <= d.year <= 9999 || d.day == 1 || (d.day == 2 && !(d.year == 10000 && d.month == 1))
  }

  /** For every submission date: the review is the text of the day two before exactly then. */
  lemma ReviewIsTwoDaysBeforeIff(value: Option<string>, day: int, date: string)
    requires ParseJapaneseDate(value) == Some(day) && NormalizeDate(value) == Some(date)
    ensures Some(TwoDaysBefore(date)) == ToIso(day - 2) <==> ReviewIsRight(DateOf(day))
  {
    NormalizedReads(value, day, date);
    ReviewOfDateIff(date, DateOf(day), day);
  }

  lemma ReviewOfDateIff(date: string, d: Date, day: int)
    requires IsDate(d) && DayOf(d) == day && -1_000_000 <= day <= 4_000_000 && ReadDate(date) == Some(Readable(d))
    ensures Some(TwoDaysBefore(date)) == ToIso(day - 2) <==> ReviewIsRight(d)
  {
    var r := Readable(d);
    var n := DayOf(r) - 2;
    ReadableIsClose(d);
    ReviewReads(date, r, n);
    ReviewTextsAgreeIff(d, day, n);
  }

  lemma ReviewTextsAgreeIff(d: Date, day: int, n: int)
    requires IsDate(d) && DayOf(d) == day && n == DayOf(Readable(d)) - 2 && -1_000_000 <= day <= 4_000_000
    ensures ToIso(n) == ToIso(day - 2) <==> ReviewIsRight(d)
  {
    if 0 <= d.year <= 9999 || d.day == 1 {
      assert Readable(d) == d;
    } else {
      ReadableIsClose(d);
      FarTextsAgreeIff(d, Date(d.year, d.month, 1), day, n);
    }
  }

  lemma FarTextsAgreeIff(d: Date, first: Date, day: int, n: int)
    requires IsDate(d) && !(0 <= d.year <= 9999) && d.day != 1 && first == Date(d.year, d.month, 1)
    requires DayOf(d) == day && n == DayOf(first) - 2 && InTimeRange(n) && InTimeRange(day - 2)
    ensures ToIso(n) == ToIso(day - 2) <==> ReviewIsRight(d)
  {
    TextsEqualIff(DateOf(n), DateOf(day - 2));
    ReviewPastFirst(d, first, day, n);
  }

  lemma ReviewPastFirst(d: Date, first: Date, day: int, n: int)
    requires IsDate(d) && !(0 <= d.year <= 9999) && d.day != 1 && first == Date(d.year, d.month, 1)
    requires DayOf(d) == day && n == DayOf(first) - 2
    ensures Readable(DateOf(n)) == Readable(DateOf(day - 2)) <==> ReviewIsRight(d)
  {
    var end := EndOfPrevious(d.year, d.month);
    EndOfPreviousIsBefore(d.year, d.month);
    DateLess(end, n);
    DayLessTwo(d, end, first, day);
    ReviewMonths(d, end, DateOf(n), DateOf(day - 2));
  }

  /** The date two days before `d`, past the first of its month. */
  function TwoBefore(d: Date, end: Date): Date { if d.day == 2 then end else Date(d.year, d.month, d.day - 2) }

  lemma TwoBeforeDay(d: Date, end: Date, first: Date)
    requires IsDate(d) && d.day != 1 && first == Date(d.year, d.month, 1)
    requires IsDate(end) && DayOf(end) == DayOf(first) - 1
    ensures IsDate(TwoBefore(d, end)) && DayOf(TwoBefore(d, end)) == DayOf(d) - 2
  {}

  lemma DayLessTwo(d: Date, end: Date, first: Date, day: int)
    requires IsDate(d) && d.day != 1 && first == Date(d.year, d.month, 1)
    requires IsDate(end) && DayOf(end) == DayOf(first) - 1
    requires day == DayOf(d)
    ensures DateOf(day - 2) == TwoBefore(d, end)
  {
    TwoBeforeDay(d, end, first);
    DateOfIs(TwoBefore(d, end), day - 2);
  }

  lemma ReviewMonths(d: Date, end: Date, printed: Date, meant: Date)
    requires IsDate(d) && !(0 <= d.year <= 9999) && d.day != 1 && end == EndOfPrevious(d.year, d.month)
    requires printed == Date(end.year, end.month, end.day - 1) && meant == TwoBefore(d, end)
    ensures Readable(printed) == Readable(meant) <==> ReviewIsRight(d)
  {}

  lemma DayLess(d: Date, e: Date)
    requires IsDate(d) && d.day > 1 && e == Date(d.year, d.month, d.day - 1)
    ensures IsDate(e) && DayOf(e) == DayOf(d) - 1
  {}

  lemma DateLess(end: Date, n: int)
    requires IsDate(end) && end.day > 1 && n == DayOf(end) - 1
    ensures DateOf(n) == Date(end.year, end.month, end.day - 1)
  {
    var e := Date(end.year, end.month, end.day - 1);
    DayLess(end, e);
    DateOfIs(e, n);
  }

  lemma ReviewReads(date: string, r: Date, n: int)
    requires ReadDate(date) == Some(r) && n == DayOf(r) - 2 && InTimeRange(n) && InTimeRange(n + 2)
    ensures Shift(date, -2).Some? && Some(TwoDaysBefore(date)) == ToIso(n)
  {
    ReadShifts(date, r, -2, n);
  }

  lemma NormalizedReads(value: Option<string>, day: int, date: string)
    requires ParseJapaneseDate(value) == Some(day) && NormalizeDate(value) == Some(date)
    ensures ReadDate(date) == Some(Readable(DateOf(day))) && -1_000_000 <= day <= 4_000_000
    ensures IsDate(Readable(DateOf(day))) && day - 31 < DayOf(Readable(DateOf(day))) <= day
    ensures 0 <= DateOf(day).year <= 9999 ==> DayOf(Readable(DateOf(day))) == day
  {
    FoundDatesAreInRange(value);
    TextReads(DateOf(day));
    ReadableIsClose(DateOf(day));
  }

  lemma ReadShifts(text: string, r: Date, delta: int, n: int)
    requires ReadDate(text) == Some(r) && InTimeRange(DayOf(r)) && n == DayOf(r) + delta
    ensures Shift(text, delta) == ToIso(n)
  {
    LaterShift(text, r, delta);
  }

  lemma ReadableIsClose(d: Date)
    requires IsDate(d)
    ensures DayOf(d) - 31 < DayOf(Readable(d)) <= DayOf(d)
  {}

  /** Exactly then, or on the first of a month, is the day that is shifted the day of the submission. */
  lemma ReviewShiftsTheSubmissionDayIff(value: Option<string>)
    requires NormalizeDate(value).Some?
    ensures var day := ParseJapaneseDate(value).value;
            && ReadDate(NormalizeDate(value).value).Some?
            && (DayIn(NormalizeDate(value).value) == day <==> 0 <= DateOf(day).year <= 9999 || DateOf(day).day == 1)
  {
    FoundDatesAreInRange(value);
    var d := DateOf(ParseJapaneseDate(value).value);
    TextReads(d);
    if d.day != 1 { MonthStart(d); }
  }

  /** A submission in the thirteenth month of year 9999 is reviewed on another date than two days before. */
  lemma ReviewAfterYear9999(s: string, day: int, date: string)
    requires |s| == 10 && s[..4] == "9999" && s[4..] == "-13-05"
    requires ParseJapaneseDate(Some(s)) == Some(day) && NormalizeDate(Some(s)) == Some(date)
    ensures IsFifthOfYear10000(DateOf(day)) && Some(TwoDaysBefore(date)) != ToIso(day - 2)
  {
    MonthThirteenDate(s, day);
    ReviewIsTwoDaysBeforeIff(Some(s), day, date);
  }

  lemma MonthThirteenDate(s: string, day: int)
    requires |s| == 10 && s[..4] == "9999" && s[4..] == "-13-05" && ParseJapaneseDate(Some(s)) == Some(day)
    ensures IsFifthOfYear10000(DateOf(day))
  {
    var d := Date(10000, 1, 5);
    MonthThirteenIsFound(s, d);
    DateOfDayOf(d);
  }

  // ----- events -----

  function SubmissionDate(bid: Bid, x: Extracted): Option<string> {
    OrElse(NormalizeDate(bid.tenderSubmissionDeadline), NormalizeDate(x.tenderSubmissionDeadline))
  }

  function OpeningDate(bid: Bid, x: Extracted): Option<string> {
    OrElse(NormalizeDate(bid.openingTendersEvent), NormalizeDate(x.openingDate))
  }

  function ReviewEvent(bid: Bid, submission: string): Event {
    Event("社内確認: " + bid.projectName, TwoDaysBefore(submission), InternalReview, "tenderSubmissionDeadline - 2 days")
  }

  function SubmissionEvent(bid: Bid, date: string): Event {
    Event("提出期限: " + bid.projectName, date, SubmissionDeadline, "tenderSubmissionDeadline")
  }

  function OpeningEvent(bid: Bid, date: string): Event {
    Event("開札日: " + bid.projectName, date, Opening, "openingTendersEvent")
  }

  function PeriodEndEvent(bid: Bid, date: string): Event {
    Event("納入期限/契約終了: " + bid.projectName, date, PeriodEnd, "periodEndTime")
  }

  function BriefingEvent(bid: Bid, date: string): Event {
    Event("入札説明会: " + bid.projectName, date, InternalReview, "extractedRequirements.briefingDate")
  }

  /** The events for the dates that are known. */
  function EventList(bid: Bid, submission: Option<string>, opening: Option<string>, periodEnd: Option<string>,
        briefing: Option<string>): seq<Event>
  {
    (if submission.None? then [] else [ReviewEvent(bid, submission.value), SubmissionEvent(bid, submission.value)])
    + (if opening.None? then [] else [OpeningEvent(bid, opening.value)])
    + (if periodEnd.None? then [] else [PeriodEndEvent(bid, periodEnd.value)])
    + (if briefing.None? then [] else [BriefingEvent(bid, briefing.value)])
  }

  function EventsOf(bid: Bid, x: Extracted): seq<Event> {
    EventList(bid, SubmissionDate(bid, x), OpeningDate(bid, x), NormalizeDate(bid.periodEndTime),
        NormalizeDate(x.briefingDate))
  }

  method PushEvents(bid: Bid, submission: Option<string>, opening: Option<string>, periodEnd: Option<string>,
          briefing: Option<string>)
    returns (events: seq<Event>)
    ensures events == EventList(bid, submission, opening, periodEnd, briefing)
  {
    events := [];
    if submission.Some? {
      events := events + [ReviewEvent(bid, submission.value)];
      events := events + [SubmissionEvent(bid, submission.value)];
    }
    if opening.Some? {
      events := events + [OpeningEvent(bid, opening.value)];
    }
    if periodEnd.Some? {
      events := events + [PeriodEndEvent(bid, periodEnd.value)];
    }
    if briefing.Some? {
      events := events + [BriefingEvent(bid, briefing.value)];
    }
  }

  // ----- identifiers -----

  function UidText(bid: Bid, e: Event): string { bid.key + "-" + KindText(e.kind) + "-" + e.date }

  function Uid(bid: Bid, e: Event): string { Escape(UidText(bid, e)) + "@jp-bids-mcp" }

  /** Kinds are told apart by the text before the first hyphen, whatever follows. */
  lemma KindsSeparate(k: Kind, date: string, l: Kind, other: string)
    requires KindText(k) + "-" + date == KindText(l) + "-" + other
    ensures k == l && date == other
  {
    KindsHaveNoHyphen(k);
    KindsHaveNoHyphen(l);
    SplitAtFirst('-', KindText(k), date, KindText(l), other);
    KindTextsDiffer(k, l);
  }

  lemma KindsHaveNoHyphen(k: Kind)
    ensures '-' !in KindText(k)
  {}

  lemma KindTextsDiffer(k: Kind, l: Kind)
    ensures KindText(k) == KindText(l) ==> k == l
  {
    assert |KindText(InternalReview)| == 15 && |KindText(SubmissionDeadline)| == 19;
    assert |KindText(Opening)| == 7 && |KindText(PeriodEnd)| == 10;
  }

  /** Two identifiers of one bid are equal exactly when kind and date are. */
  lemma UidsAreEqualIff(bid: Bid, e: Event, f: Event)
    ensures Uid(bid, e) == Uid(bid, f) <==> e.kind == f.kind && e.date == f.date
  {
    var a, b := UidText(bid, e), UidText(bid, f);
    EscapeIsInjective(a, b);
    if Uid(bid, e) == Uid(bid, f) {
      assert |Escape(a)| == |Escape(b)|;
      assert Uid(bid, e)[..|Escape(a)|] == Escape(a) && Uid(bid, f)[..|Escape(b)|] == Escape(b);
      var x, y := KindText(e.kind) + "-" + e.date, KindText(f.kind) + "-" + f.date;
      assert a == (bid.key + "-") + x && b == (bid.key + "-") + y;
      assert a[|bid.key| + 1..] == x && b[|bid.key| + 1..] == y;
      KindsSeparate(e.kind, e.date, f.kind, f.date);
    }
  }

  /** Before the briefing no kind repeats, */
  lemma KindsBeforeBriefing(bid: Bid, submission: Option<string>, opening: Option<string>, periodEnd: Option<string>,
          i: nat, j: nat)
    requires i < j < |EventList(bid, submission, opening, periodEnd, None)|
    ensures var events := EventList(bid, submission, opening, periodEnd, None); events[i].kind != events[j].kind
  {}

  /** and only the review is of its kind. */
  lemma ReviewBeforeBriefing(bid: Bid, submission: Option<string>, opening: Option<string>, periodEnd: Option<string>,
          i: nat)
    requires i < |EventList(bid, submission, opening, periodEnd, None)|
    ensures var events := EventList(bid, submission, opening, periodEnd, None);
            events[i].kind == InternalReview ==> submission.Some? && events[i] == ReviewEvent(bid, submission.value)
  {}

  /** The two events of one kind: the review and the briefing. */
  lemma KindsRepeatOnlyAtEnds(bid: Bid, submission: Option<string>, opening: Option<string>, periodEnd: Option<string>,
          briefing: Option<string>, i: nat, j: nat)
    requires i < j < |EventList(bid, submission, opening, periodEnd, briefing)|
    ensures var events := EventList(bid, submission, opening, periodEnd, briefing);
            events[i].kind == events[j].kind ==>
              submission.Some? && events[i].date == TwoDaysBefore(submission.value) && briefing == Some(events[j].date)
  {
    var front := EventList(bid, submission, opening, periodEnd, None);
    var last := if briefing.None? then [] else [BriefingEvent(bid, briefing.value)];
    assert EventList(bid, submission, opening, periodEnd, briefing) == front + last;
    ReviewBeforeBriefing(bid, submission, opening, periodEnd, i);
    if j < |front| { KindsBeforeBriefing(bid, submission, opening, periodEnd, i, j); }
  }

  ghost predicate UidsAreDistinct(bid: Bid, events: seq<Event>) {
    forall i, j :: 0 <= i < j < |events| ==> Uid(bid, events[i]) != Uid(bid, events[j])
  }

  lemma UidsOfListAreDistinctIff(bid: Bid, submission: Option<string>, opening: Option<string>,
        periodEnd: Option<string>, briefing: Option<string>)
    ensures UidsAreDistinct(bid, EventList(bid, submission, opening, periodEnd, briefing)) <==>
              !(submission.Some? && briefing == Some(TwoDaysBefore(submission.value)))
  {
    var events := EventList(bid, submission, opening, periodEnd, briefing);
    if submission.Some? && briefing == Some(TwoDaysBefore(submission.value)) {
      UidsAreEqualIff(bid, events[0], events[|events| - 1]);
    } else {
      forall i, j | 0 <= i < j < |events|
        ensures Uid(bid, events[i]) != Uid(bid, events[j])
      {
        UidsAreEqualIff(bid, events[i], events[j]);
        KindsRepeatOnlyAtEnds(bid, submission, opening, periodEnd, briefing, i, j);
      }
    }
  }

  /** The briefing falls on the date of the internal review. */
  predicate BriefingOnReview(bid: Bid, x: Extracted) {
    var submission := SubmissionDate(bid, x);
    submission.Some? && NormalizeDate(x.briefingDate) == Some(TwoDaysBefore(submission.value))
  }

  /** Identifiers are pairwise distinct except exactly when the briefing falls on the review's date. */
  lemma UidsAreDistinctIff(bid: Bid, x: Extracted)
    ensures UidsAreDistinct(bid, EventsOf(bid, x)) <==> !BriefingOnReview(bid, x)
  {
    UidsOfListAreDistinctIff(bid, SubmissionDate(bid, x), OpeningDate(bid, x), NormalizeDate(bid.periodEndTime),
                             NormalizeDate(x.briefingDate));
  }

  lemma MarchIsRead(s: string, day: char)
    requires s == "2024-03-0" + [day] && IsDigit(day)
    ensures ExtractDateComponents(s) == Some(Components(2024, 3, DigitValue(day)))
  {
    NumOfFour('2', '0', '2', '4');
    NumOfTwo('0', '3');
    NumOfTwo('0', day);
    assert s[0..4] == ['2', '0', '2', '4'] && s[5..7] == ['0', '3'] && s[8..10] == ['0', day];
  }

  lemma MarchIsFound(s: string, day: char, d: Date)
    requires s == "2024-03-0" + [day] && IsDigit(day) && IsDate(d)
    requires d.year == 2024 && d.month == 3 && d.day == DigitValue(day)
    ensures ParseJapaneseDate(Some(s)) == Some(DayOf(d))
  {
    MarchIsRead(s, day);
    MakeDayOfDate(d);
  }

  /** A briefing two days before a submission up to year 9999 falls on its review. */
  lemma BriefingTwoDaysBefore(bid: Bid, x: Extracted, day: int, date: string)
    requires ParseJapaneseDate(bid.tenderSubmissionDeadline) == Some(day) && 0 <= DateOf(day).year <= 9999
    requires NormalizeDate(bid.tenderSubmissionDeadline) == Some(date)
    requires ParseJapaneseDate(x.briefingDate) == Some(day - 2)
    ensures !UidsAreDistinct(bid, EventsOf(bid, x))
  {
    ReviewIsTwoDaysBefore(bid.tenderSubmissionDeadline, day, date);
    UidsAreDistinctIff(bid, x);
  }

  lemma MarchThird() returns (d: Date)
    ensures d.year == 2024 && d.month == 3 && d.day == 3
  {
    d := Date(2024, 3, 3);
  }

  lemma MarchDays(due: string, briefing: string) returns (d: Date, day: int)
    requires due == "2024-03-03" && briefing == "2024-03-01"
    ensures ParseJapaneseDate(Some(due)) == Some(day) && ParseJapaneseDate(Some(briefing)) == Some(day - 2)
    ensures IsDate(d) && day == DayOf(d) && d.year == 2024
  {
    d := MarchThird();
    MarchIsFound(due, '3', d);
    MarchIsFound(briefing, '1', d.(day := 1));
    day := DayOf(d);
  }

  /** A bid due on 2024-03-03 with a briefing on 2024-03-01 exports two events of one identifier. */
  lemma BriefingSharesIdentifier(bid: Bid, x: Extracted, due: string, briefing: string)
    requires due == "2024-03-03" && briefing == "2024-03-01"
    requires bid.tenderSubmissionDeadline == Some(due) && x.briefingDate == Some(briefing)
    ensures !UidsAreDistinct(bid, EventsOf(bid, x))
  {
    var d, day := MarchDays(due, briefing);
    DateOfIs(d, day);
    BriefingTwoDaysBefore(bid, x, day, NormalizeDate(bid.tenderSubmissionDeadline).value);
  }

  /** A review comes with every submission, and only there can two events share an identifier. */
  method BuildEvents(bid: Bid, x: Extracted) returns (events: seq<Event>)
    ensures events == EventsOf(bid, x)
    ensures UidsAreDistinct(bid, events) <==> !BriefingOnReview(bid, x)
  {
    events := PushEvents(bid, SubmissionDate(bid, x), OpeningDate(bid, x), NormalizeDate(bid.periodEndTime),
                         NormalizeDate(x.briefingDate));
    UidsAreDistinctIff(bid, x);
  }

  // ----- the file -----

  /** `date.replaceAll("-", "")`. */
  function FormatIcsDate(date: string): string { ReplaceAll(date, '-', "") }

  function DescriptionParts(bid: Bid, e: Event, dataSource: string): seq<string> {
    ["Key: " + bid.key, "Organization: " + bid.organizationName.GetOr("unknown"), "Source field: " + e.sourceField,
     "Data source: " + dataSource, "Verify official procurement documents before bidding decisions."]
  }

  /** The content lines of one event but for its URL and its end; `stamp` is the formatted clock. */
  function FixedLines(bid: Bid, e: Event, dataSource: string, stamp: string): seq<string> {
    ["BEGIN:VEVENT", "UID:" + Uid(bid, e), "DTSTAMP:" + stamp, "DTSTART;VALUE=DATE:" + FormatIcsDate(e.date),
     "SUMMARY:" + Escape(e.title), "DESCRIPTION:" + Escape(Join(DescriptionParts(bid, e, dataSource), "\\n"))]
  }

  /** An empty document URI counts as none. */
  function UrlLines(bid: Bid): seq<string> {
    if bid.externalDocumentUri.GetOr("") == "" then [] else ["URL:" + bid.externalDocumentUri.value]
  }

  function EventLines(bid: Bid, e: Event, dataSource: string, stamp: string): seq<string> {
    FixedLines(bid, e, dataSource, stamp) + UrlLines(bid) + ["END:VEVENT"]
  }

  function AllEventLines(bid: Bid, events: seq<Event>, dataSource: string, stamp: string): seq<string> {
    if events == [] then []
    else
      var n := |events| - 1;
      AllEventLines(bid, events[..n], dataSource, stamp) + EventLines(bid, events[n], dataSource, stamp)
  }

  lemma AllEventLinesNext(bid: Bid, events: seq<Event>, i: nat, dataSource: string, stamp: string)
    requires i < |events|
    ensures AllEventLines(bid, events[..i + 1], dataSource, stamp) ==
            AllEventLines(bid, events[..i], dataSource, stamp) + EventLines(bid, events[i], dataSource, stamp)
  {
    assert events[..i + 1][..i] == events[..i];
  }

  const HEADER := ["BEGIN:VCALENDAR", "VERSION:2.0", "PRODID:-//JP Bids MCP//AI Bid Radar//EN", "CALSCALE:GREGORIAN",
      "METHOD:PUBLISH"]

  function IcsLines(bid: Bid, events: seq<Event>, dataSource: string, stamp: string): seq<string> {
    HEADER + AllEventLines(bid, events, dataSource, stamp) + ["END:VCALENDAR"]
  }

  method ToIcs(bid: Bid, events: seq<Event>, dataSource: string, stamp: string) returns (ics: string)
    ensures ics == Join(IcsLines(bid, events, dataSource, stamp), "\r\n")
  {
    var lines := PushEventLines(HEADER, bid, events, dataSource, stamp);
    lines := lines + ["END:VCALENDAR"];
    ics := Join(lines, "\r\n");
  }

  lemma Regroup<T>(a: seq<T>, b: seq<T>, c: seq<T>)
    ensures a + b + c == a + (b + c)
  {}

  method PushEventLines(before: seq<string>, bid: Bid, events: seq<Event>, dataSource: string, stamp: string)
    returns (lines: seq<string>)
    ensures lines == before + AllEventLines(bid, events, dataSource, stamp)
  {
    lines := before;
    for i := 0 to |events|
      invariant lines == before + AllEventLines(bid, events[..i], dataSource, stamp)
    {
      AllEventLinesNext(bid, events, i, dataSource, stamp);
      ghost var pushed := AllEventLines(bid, events[..i], dataSource, stamp);
      var block := EventLines(bid, events[i], dataSource, stamp);
      Regroup(before, pushed, block);
      lines := lines + block;
    }
    assert events[..|events|] == events;
  }

  ghost predicate Clean(lines: seq<string>) { forall i :: 0 <= i < |lines| ==> !HasCrlf(lines[i]) }

  lemma {:induction false} RemovingKeepsClean(s: string)
    requires '\n' !in s
    ensures '\n' !in ReplaceAll(s, '-', "")
  {
    if s != "" { RemovingKeepsClean(s[1..]); }
  }

  lemma NoLineFeeds(lines: seq<string>)
    requires forall i :: 0 <= i < |lines| ==> '\n' !in lines[i]
    ensures Clean(lines)
  {
    forall i | 0 <= i < |lines| ensures !HasCrlf(lines[i]) { NoLineFeedNoCrlf(lines[i]); }
  }

  lemma EventTextsAreClean(uid: string, stamp: string, start: string, summary: string, description: string)
    requires '\n' !in uid && '\n' !in stamp && '\n' !in start && '\n' !in summary && '\n' !in description
    ensures Clean(["BEGIN:VEVENT", "UID:" + uid, "DTSTAMP:" + stamp, "DTSTART;VALUE=DATE:" + start,
                   "SUMMARY:" + summary, "DESCRIPTION:" + description])
  {
    NoLineFeeds(["BEGIN:VEVENT", "UID:" + uid, "DTSTAMP:" + stamp, "DTSTART;VALUE=DATE:" + start, "SUMMARY:" + summary,
                 "DESCRIPTION:" + description]);
  }

  lemma FixedLinesAreClean(bid: Bid, e: Event, dataSource: string, stamp: string)
    requires '\n' !in stamp && '\n' !in e.date
    ensures Clean(FixedLines(bid, e, dataSource, stamp))
  {
    EscapeHasNoLineFeed(UidText(bid, e));
    EscapeHasNoLineFeed(e.title);
    EscapeHasNoLineFeed(Join(DescriptionParts(bid, e, dataSource), "\\n"));
    RemovingKeepsClean(e.date);
    var description := Escape(Join(DescriptionParts(bid, e, dataSource), "\\n"));
    EventTextsAreClean(Uid(bid, e), stamp, FormatIcsDate(e.date), Escape(e.title), description);
  }

  lemma UrlLinesAreClean(bid: Bid)
    ensures Clean(UrlLines(bid)) <==> !HasCrlf("URL:" + bid.externalDocumentUri.GetOr(""))
  {
    if bid.externalDocumentUri.GetOr("") == "" {
      NoLineFeedNoCrlf("URL:");
      assert "URL:" + "" == "URL:";
    } else {
      assert UrlLines(bid)[0] == "URL:" + bid.externalDocumentUri.GetOr("");
    }
  }

  /** An event's lines can only be broken by its document URI. */
  lemma EventLinesAreClean(bid: Bid, e: Event, dataSource: string, stamp: string)
    requires '\n' !in stamp && '\n' !in e.date
    ensures Clean(EventLines(bid, e, dataSource, stamp)) <==> !HasCrlf("URL:" + bid.externalDocumentUri.GetOr(""))
  {
    FixedLinesAreClean(bid, e, dataSource, stamp);
    UrlLinesAreClean(bid);
    NoLineFeeds(["END:VEVENT"]);
    CleanConcat(FixedLines(bid, e, dataSource, stamp), UrlLines(bid));
    CleanConcat(FixedLines(bid, e, dataSource, stamp) + UrlLines(bid), ["END:VEVENT"]);
  }

  lemma {:induction false} AllEventLinesAreClean(bid: Bid, events: seq<Event>, dataSource: string, stamp: string)
    requires '\n' !in stamp && forall i :: 0 <= i < |events| ==> '\n' !in events[i].date
    ensures Clean(AllEventLines(bid, events, dataSource, stamp))
       <==> events == [] || !HasCrlf("URL:" + bid.externalDocumentUri.GetOr(""))
  {
    if events != [] {
      var init, last := events[..|events| - 1], events[|events| - 1];
      AllEventLinesAreClean(bid, init, dataSource, stamp);
      EventLinesAreClean(bid, last, dataSource, stamp);
      CleanConcat(AllEventLines(bid, init, dataSource, stamp), EventLines(bid, last, dataSource, stamp));
    }
  }

  lemma CleanConcat(a: seq<string>, b: seq<string>)
    ensures Clean(a + b) <==> Clean(a) && Clean(b)
  {
    if Clean(a + b) {
      assert forall i :: 0 <= i < |a| ==> a[i] == (a + b)[i];
      assert forall i :: 0 <= i < |b| ==> b[i] == (a + b)[|a| + i];
    }
  }

  lemma HeaderIsClean()
    ensures Clean(HEADER) && Clean(["END:VCALENDAR"])
  {
    NoLineFeeds(HEADER);
    NoLineFeeds(["END:VCALENDAR"]);
  }

  /** The file splits back into exactly the content lines if and only if the document URI, the one text
      that is not escaped, holds no CRLF. */
  lemma FileSplitsIntoLines(bid: Bid, events: seq<Event>, dataSource: string, stamp: string)
    requires '\n' !in stamp && forall i :: 0 <= i < |events| ==> '\n' !in events[i].date
    ensures var lines := IcsLines(bid, events, dataSource, stamp);
            SplitCrlf(Join(lines, "\r\n")) == lines <==>
                events == [] || !HasCrlf("URL:" + bid.externalDocumentUri.GetOr(""))
  {
    var lines := IcsLines(bid, events, dataSource, stamp);
    HeaderIsClean();
    AllEventLinesAreClean(bid, events, dataSource, stamp);
    CleanConcat(HEADER, AllEventLines(bid, events, dataSource, stamp));
    CleanConcat(HEADER + AllEventLines(bid, events, dataSource, stamp), ["END:VCALENDAR"]);
    SplitOfJoin(lines);
  }

  /** A document URI that holds CRLF breaks the lines of any bid with an event. */
  lemma CrlfBreaksTheFile(bid: Bid, e: Event, dataSource: string, stamp: string, before: string, after: string)
    requires bid.externalDocumentUri == Some(before + "\r\n" + after) && '\n' !in stamp && '\n' !in e.date
    ensures var lines := IcsLines(bid, [e], dataSource, stamp); SplitCrlf(Join(lines, "\r\n")) != lines
  {
    FileSplitsIntoLines(bid, [e], dataSource, stamp);
    HasCrlfInside("URL:" + before, after);
    assert "URL:" + (before + "\r\n" + after) == "URL:" + before + "\r\n" + after;
  }

  lemma {:induction false} HasCrlfInside(before: string, after: string)
    ensures HasCrlf(before + "\r\n" + after)
  {
    var s := before + "\r\n" + after;
    if before == "" {
      assert s[0] == '\r' && s[1] == '\n';
    } else {
      assert s[1..] == before[1..] + "\r\n" + after;
      HasCrlfInside(before[1..], after);
    }
  }

  lemma TextHasNoLineFeed(d: Date)
    requires IsDate(d)
    ensures '\n' !in TextOf(d)
  {}

  lemma NormalizedHasNoLineFeed(value: Option<string>)
    ensures NormalizeDate(value).Some? ==>
        '\n' !in NormalizeDate(value).value && '\n' !in TwoDaysBefore(NormalizeDate(value).value)
  {
    if NormalizeDate(value).Some? {
      TextHasNoLineFeed(DateOf(ParseJapaneseDate(value).value));
      ShiftHasNoLineFeed(NormalizeDate(value).value, -2);
    }
  }

  lemma ShiftHasNoLineFeed(s: string, delta: int)
    ensures Shift(s, delta).Some? ==> '\n' !in Shift(s, delta).value
  {
    if Shift(s, delta).Some? { TextHasNoLineFeed(DateOf(DayIn(s) + delta)); }
  }

  predicate NoLineFeedIn(value: Option<string>) { value.None? || '\n' !in value.value }

  lemma ListDatesHaveNoLineFeed(bid: Bid, submission: Option<string>, opening: Option<string>,
          periodEnd: Option<string>, briefing: Option<string>)
    requires NoLineFeedIn(submission) && NoLineFeedIn(opening) && NoLineFeedIn(periodEnd) && NoLineFeedIn(briefing)
    requires submission.Some? ==> '\n' !in TwoDaysBefore(submission.value)
    ensures var events := EventList(bid, submission, opening, periodEnd, briefing);
            forall i :: 0 <= i < |events| ==> '\n' !in events[i].date
  {}

  lemma EventDatesHaveNoLineFeed(bid: Bid, x: Extracted)
    ensures forall i :: 0 <= i < |EventsOf(bid, x)| ==> '\n' !in EventsOf(bid, x)[i].date
  {
    NormalizedHasNoLineFeed(bid.tenderSubmissionDeadline);
    NormalizedHasNoLineFeed(x.tenderSubmissionDeadline);
    NormalizedHasNoLineFeed(bid.openingTendersEvent);
    NormalizedHasNoLineFeed(x.openingDate);
    NormalizedHasNoLineFeed(bid.periodEndTime);
    NormalizedHasNoLineFeed(x.briefingDate);
    ListDatesHaveNoLineFeed(bid, SubmissionDate(bid, x), OpeningDate(bid, x), NormalizeDate(bid.periodEndTime),
        NormalizeDate(x.briefingDate));
  }

  /** The export of a bid's own events splits back likewise. */
  lemma ExportSplitsIntoLines(bid: Bid, x: Extracted, dataSource: string, stamp: string)
    requires '\n' !in stamp
    ensures var lines := IcsLines(bid, EventsOf(bid, x), dataSource, stamp);
            SplitCrlf(Join(lines, "\r\n")) == lines <==>
                EventsOf(bid, x) == [] || !HasCrlf("URL:" + bid.externalDocumentUri.GetOr(""))
  {
    EventDatesHaveNoLineFeed(bid, x);
    FileSplitsIntoLines(bid, EventsOf(bid, x), dataSource, stamp);
  }

  /** A description reads back with backslash-n between its parts, never as separate lines. */
  lemma DescriptionsKeepBackslashN(bid: Bid, e: Event, dataSource: string)
    ensures var parts := DescriptionParts(bid, e, dataSource);
            Decode(Escape(Join(parts, "\\n"))) == Some(Join(parts, "\\n")) && Join(parts, "\\n") != Join(parts, "\n")
  {
    DescriptionKeepsBackslashN(DescriptionParts(bid, e, dataSource));
  }
}
