/** Scoring bids by rule and ranking a search: `rankBid` and `rankBidSearchResult`. */
module BidRanking {
  import opened Options
  import opened Bids
  import opened Lists
  import opened Strings
  import opened CivilDays
  import opened JapaneseDates
  import opened StableSort

  /** `today` is the day number of `options.now`. */
  datatype Ranking = Ranking(
    preferredKeywords: seq<string>, avoidKeywords: seq<string>, dueWithinDays: Option<int>, today: int,
    shortlistLimit: Option<int>)

  datatype Reason =
    | HasOfficialUrl | KnownOrganization(name: string) | KnownPrefecture(name: string) | KnownCategory(name: string)
    | PreferredKeyword(keyword: string) | DueInDays(days: int) | OpenCompetition

  datatype Risk =
    | NoOfficialUrl | UnknownOrganization | UnknownPrefecture | AvoidedKeyword(keyword: string)
    | DeadlinePassed | DueVerySoon(days: int) | DueMuchLater(days: int) | UnknownDeadline

  datatype Priority = Pursue | Review | Skip

  datatype RankedBid = RankedBid(bid: Bid, score: nat, priority: Priority, reasons: seq<Reason>, risks: seq<Risk>)

  /** What one rule adds. */
  datatype Part = Part(score: int, reasons: seq<Reason>, risks: seq<Risk>)

  predicate Truthy(text: Option<string>) { text.Some? && text.value != "" }

  // ----- the rules -----

  function UrlPart(bid: Bid): Part {
    if Truthy(bid.externalDocumentUri) then Part(8, [HasOfficialUrl], []) else Part(-12, [], [NoOfficialUrl])
  }

  function OrganizationPart(bid: Bid): Part {
    if Truthy(bid.organizationName) then Part(5, [KnownOrganization(bid.organizationName.value)], [])
    else Part(0, [], [UnknownOrganization])
  }

  function PrefecturePart(bid: Bid): Part {
    if Truthy(bid.prefectureName) then Part(4, [KnownPrefecture(bid.prefectureName.value)], [])
    else Part(0, [], [UnknownPrefecture])
  }

  function CategoryPart(bid: Bid): Part {
    if Truthy(bid.category) then Part(4, [KnownCategory(bid.category.value)], []) else Part(0, [], [])
  }

  /** `startOfDay`: it builds a date anew, so years 0 to 99 mean the twentieth century. */
  function StartOfDay(day: int): int {
    var d := DateOf(day);
    UtcDay(Components(d.year, d.month, d.day))
  }

  /** From the start of today to the start of the deadline's day. */
  function DaysUntil(deadline: int, today: int): int { StartOfDay(deadline) - StartOfDay(today) }

  /** For every other year it is the day itself. */
  lemma StartOfDayIsIdentity(day: int)
    ensures DateOf(day).year < 0 || DateOf(day).year > 99 ==> StartOfDay(day) == day
  {
    MakeDayOfDate(DateOf(day));
  }

  /** From year 100 on these are calendar days. */
  lemma DaysUntilAreCalendarDays(deadline: int, today: int)
    requires DateOf(deadline).year >= 100 && DateOf(today).year >= 100
    ensures DaysUntil(deadline, today) == deadline - today
  {
    StartOfDayIsIdentity(deadline);
    StartOfDayIsIdentity(today);
  }

  function DeadlinePart(bid: Bid, today: int, dueWithinDays: Option<int>): Part {
    var deadline := ParseJapaneseDate(bid.tenderSubmissionDeadline);
    if deadline.None? then Part(0, [], [])
    else
      var days := DaysUntil(deadline.value, today);
      if days < 0 then Part(-35, [], [DeadlinePassed])
      else if days <= 3 then Part(-12, [], [DueVerySoon(days)])
      else if days <= dueWithinDays.GetOr(30) then Part(12, [DueInDays(days)], [])
      else Part(-2, [], [DueMuchLater(days)])
  }

  predicate IsOpenCompetition(bid: Bid) { Includes(bid.procedureType.GetOr(""), "一般競争") }

  function ProcedurePart(bid: Bid): Part {
    if IsOpenCompetition(bid) then Part(8, [OpenCompetition], [])
    else if Includes(bid.procedureType.GetOr(""), "指名") then Part(-8, [], [])
    else Part(0, [], [])
  }

  function MissingDeadlinePart(bid: Bid): Part {
    if !Truthy(bid.tenderSubmissionDeadline) then Part(-10, [], [UnknownDeadline]) else Part(0, [], [])
  }

  function Given(text: Option<string>): seq<string> { if text.Some? then [text.value] else [] }

  function Haystack(lower: string -> string, bid: Bid): string {
    lower(Join([bid.projectName] + Given(bid.projectDescription) + Given(bid.organizationName) + Given(bid.category)
               + Given(bid.procedureType), " "))
  }

  predicate Fits(lower: string -> string, haystack: string, keyword: string) {
    keyword != "" && Includes(haystack, lower(keyword))
  }

  /** The keywords of a list that occur, in order. */
  function Fitting(lower: string -> string, haystack: string, keywords: seq<string>): seq<string> {
    if keywords == [] then []
    else
      var before, last := Fitting(lower, haystack, keywords[..|keywords| - 1]), keywords[|keywords| - 1];
      if Fits(lower, haystack, last) then before + [last] else before
  }

  function KeywordReasons(keywords: seq<string>): (reasons: seq<Reason>)
    ensures |reasons| == |keywords|
  {
    seq(|keywords|, i requires 0 <= i < |keywords| => PreferredKeyword(keywords[i]))
  }

  function KeywordRisks(keywords: seq<string>): (risks: seq<Risk>)
    ensures |risks| == |keywords|
  {
    seq(|keywords|, i requires 0 <= i < |keywords| => AvoidedKeyword(keywords[i]))
  }

  function KeywordPart(lower: string -> string, bid: Bid, o: Ranking): Part {
    var haystack := Haystack(lower, bid);
    var preferred, avoided := Fitting(lower, haystack, o.preferredKeywords), Fitting(lower, haystack, o.avoidKeywords);
    Part(7 * |preferred| - 15 * |avoided|, KeywordReasons(preferred), KeywordRisks(avoided))
  }

  function Plus(a: Part, b: Part): Part { Part(a.score + b.score, a.reasons + b.reasons, a.risks + b.risks) }

  /** The facts a notice shows: all but keywords, deadline and procedure, on top of 45 points. */
  function Facts(bid: Bid): Part {
    Plus(Plus(Plus(Plus(Part(45, [], []), UrlPart(bid)), OrganizationPart(bid)), PrefecturePart(bid)),
        CategoryPart(bid))
  }

  /** All parts, in the order they are applied. */
  function Whole(lower: string -> string, bid: Bid, o: Ranking): Part {
    Plus(Plus(Plus(Plus(Facts(bid), KeywordPart(lower, bid, o)), DeadlinePart(bid, o.today, o.dueWithinDays)),
        ProcedurePart(bid)), MissingDeadlinePart(bid))
  }

  function Clamp(score: int): nat { if score < 0 then 0 else if score > 100 then 100 else score }

  function ToPriority(score: nat, risks: seq<Risk>): Priority {
    if score >= 72 && |risks| <= 2 then Pursue else if score <= 39 then Skip else Review
  }

  /** The meaning of `rankBid`: the priority looks at all risks, the result shows the first six. */
  function Rank(lower: string -> string, bid: Bid, o: Ranking): RankedBid {
    var all := Whole(lower, bid, o);
    RankedBid(bid, Clamp(all.score), ToPriority(Clamp(all.score), all.risks), Take(all.reasons, 6), Take(all.risks, 6))
  }

  // ----- the step-by-step form -----

  method ApplyKeywordFit(lower: string -> string, bid: Bid, o: Ranking) returns (part: Part)
    ensures part == KeywordPart(lower, bid, o)
  {
    var haystack := Haystack(lower, bid);
    part := Part(0, [], []);
    for i := 0 to |o.preferredKeywords|
      invariant part == PreferredSoFar(lower, haystack, o.preferredKeywords[..i])
    {
      var keyword := o.preferredKeywords[i];
      FittingNext(lower, haystack, o.preferredKeywords, i);
      if Fits(lower, haystack, keyword) {
        part := part.(score := part.score + 7, reasons := part.reasons + [PreferredKeyword(keyword)]);
      }
    }
    assert o.preferredKeywords[..|o.preferredKeywords|] == o.preferredKeywords;
    ghost var preferred := part;
    for i := 0 to |o.avoidKeywords|
      invariant part == Plus(preferred, AvoidedSoFar(lower, haystack, o.avoidKeywords[..i]))
    {
      var keyword := o.avoidKeywords[i];
      FittingNext(lower, haystack, o.avoidKeywords, i);
      if Fits(lower, haystack, keyword) {
        part := part.(score := part.score - 15, risks := part.risks + [AvoidedKeyword(keyword)]);
      }
    }
    assert o.avoidKeywords[..|o.avoidKeywords|] == o.avoidKeywords;
  }

  function PreferredSoFar(lower: string -> string, haystack: string, keywords: seq<string>): Part {
    var fitting := Fitting(lower, haystack, keywords);
    Part(7 * |fitting|, KeywordReasons(fitting), [])
  }

  function AvoidedSoFar(lower: string -> string, haystack: string, keywords: seq<string>): Part {
    var fitting := Fitting(lower, haystack, keywords);
    Part(-15 * |fitting|, [], KeywordRisks(fitting))
  }

  lemma FittingNext(lower: string -> string, haystack: string, keywords: seq<string>, i: nat)
    requires i < |keywords|
    ensures Fitting(lower, haystack, keywords[..i + 1]) ==
            Fitting(lower, haystack, keywords[..i]) + if Fits(lower, haystack, keywords[i]) then [keywords[i]] else []
  {
    assert keywords[..i + 1][..i] == keywords[..i];
  }

  method RankFacts(bid: Bid) returns (part: Part)
    ensures part == Facts(bid)
  {
    var score, reasons, risks := 45, [], [];
    if Truthy(bid.externalDocumentUri) {
      score := score + 8;
      reasons := reasons + [HasOfficialUrl];
    } else {
      score := score - 12;
      risks := risks + [NoOfficialUrl];
    }
    if Truthy(bid.organizationName) {
      score := score + 5;
      reasons := reasons + [KnownOrganization(bid.organizationName.value)];
    } else {
      risks := risks + [UnknownOrganization];
    }
    if Truthy(bid.prefectureName) {
      score := score + 4;
      reasons := reasons + [KnownPrefecture(bid.prefectureName.value)];
    } else {
      risks := risks + [UnknownPrefecture];
    }
    if Truthy(bid.category) {
      score := score + 4;
      reasons := reasons + [KnownCategory(bid.category.value)];
    }
    part := Part(score, reasons, risks);
  }

  method RankBid(lower: string -> string, bid: Bid, o: Ranking) returns (ranked: RankedBid)
    ensures ranked == Rank(lower, bid, o)
  {
    var part := RankFacts(bid);
    var keywords := ApplyKeywordFit(lower, bid, o);
    part := Plus(part, keywords);
    part := Plus(part, DeadlinePart(bid, o.today, o.dueWithinDays));
    part := Plus(part, ProcedurePart(bid));
    part := Plus(part, MissingDeadlinePart(bid));
    var score := Clamp(part.score);
    ranked := RankedBid(bid, score, ToPriority(score, part.risks), Take(part.reasons, 6), Take(part.risks, 6));
  }

  // ----- bounds -----

  function Fit(lower: string -> string, bid: Bid, keywords: seq<string>): nat {
    |Fitting(lower, Haystack(lower, bid), keywords)|
  }

  predicate DeadlineHasPassed(bid: Bid, o: Ranking) {
    var deadline := ParseJapaneseDate(bid.tenderSubmissionDeadline);
    deadline.Some? && DaysUntil(deadline.value, o.today) < 0
  }

  /** All that raises the score of a bid whose deadline has passed. */
  predicate ShowsEverything(lower: string -> string, bid: Bid, o: Ranking) {
    ShowsFacts(bid) && IsOpenCompetition(bid) && Fit(lower, bid, o.avoidKeywords) == 0
  }

  lemma ParsedIsTruthy(value: Option<string>)
    ensures ParseJapaneseDate(value).Some? ==> Truthy(value)
  {}

  /**
   For every bid whose deadline has passed, with m preferred keywords that occur: the score is at most 39 + 7m,
   below 100 it is that much exactly when the bid shows everything else that counts, and with m = 0 the bid is
   skipped.  Only five such keywords can make it one to pursue.
   */
  lemma PassedDeadlineBound(lower: string -> string, bid: Bid, o: Ranking, m: nat)
    requires DeadlineHasPassed(bid, o) && m == Fit(lower, bid, o.preferredKeywords)
    ensures var r := Rank(lower, bid, o);
            && r.score <= 39 + 7 * m
            && (m <= 8 ==> (r.score == 39 + 7 * m <==> ShowsEverything(lower, bid, o)))
            && (m == 0 ==> r.priority == Skip)
            && (r.priority == Pursue ==> m >= 5)
  {
    PassedParts(bid, o);
    FactsBound(bid);
    WholeScore(lower, bid, o);
    BoundFollows(Facts(bid).score, m, Fit(lower, bid, o.avoidKeywords), ProcedurePart(bid).score, Whole(lower, bid, o));
  }

  lemma PassedParts(bid: Bid, o: Ranking)
    ensures DeadlineHasPassed(bid, o) ==>
              DeadlinePart(bid, o.today, o.dueWithinDays).score == -35 && MissingDeadlinePart(bid).score == 0
  {
    ParsedIsTruthy(bid.tenderSubmissionDeadline);
  }

  predicate ShowsFacts(bid: Bid) {
    Truthy(bid.externalDocumentUri) && Truthy(bid.organizationName) && Truthy(bid.prefectureName) &&
        Truthy(bid.category)
  }

  lemma FactsBound(bid: Bid)
    ensures Facts(bid).score <= 66 && (Facts(bid).score == 66 <==> ShowsFacts(bid))
    ensures ProcedurePart(bid).score <= 8 && (ProcedurePart(bid).score == 8 <==> IsOpenCompetition(bid))
  {}

  lemma BoundFollows(facts: int, m: nat, avoided: nat, procedure: int, all: Part)
    requires facts <= 66 && procedure <= 8 && all.score == facts + 7 * m - 15 * avoided - 35 + procedure
    ensures Clamp(all.score) <= 39 + 7 * m
    ensures m <= 8 ==> (Clamp(all.score) == 39 + 7 * m <==> facts == 66 && procedure == 8 && avoided == 0)
    ensures m == 0 ==> ToPriority(Clamp(all.score), all.risks) == Skip
    ensures ToPriority(Clamp(all.score), all.risks) == Pursue ==> m >= 5
  {}

  // ----- what every part of a notice is worth -----

  /** Points for a deadline n days ahead. */
  function DeadlineWeight(n: int, window: int): int {
    if n < 0 then -35 else if n <= 3 then -12 else if n <= window then 12 else -2
  }

  /** Points for what the notice says of its deadline: none for a text that is no date. */
  function TimeWeight(bid: Bid, o: Ranking): int {
    var deadline := ParseJapaneseDate(bid.tenderSubmissionDeadline);
    if bid.tenderSubmissionDeadline.None? || bid.tenderSubmissionDeadline.value == "" then -10
    else if deadline.None? then 0
    else DeadlineWeight(DaysUntil(deadline.value, o.today), o.dueWithinDays.GetOr(30))
  }

  /** The notice has a text there that is not empty. */
  predicate Says(text: Option<string>) { text.Some? && |text.value| > 0 }

  /** Points for the four facts. */
  function FactsWeight(url: bool, organization: bool, prefecture: bool, category: bool): int {
    (if url then 8 else -12) + (if organization then 5 else 0) + (if prefecture then 4 else 0)
    + if category then 4 else 0
  }

  function ProcedureWeight(procedure: string): int {
    if Includes(procedure, "一般競争") then 8 else if Includes(procedure, "指名") then -8 else 0
  }

  lemma FactsScore(bid: Bid)
    ensures Facts(bid).score == 45 + FactsWeight(Says(bid.externalDocumentUri), Says(bid.organizationName),
                                                 Says(bid.prefectureName), Says(bid.category))
  {}

  lemma TimeScore(bid: Bid, o: Ranking)
    ensures DeadlinePart(bid, o.today, o.dueWithinDays).score + MissingDeadlinePart(bid).score == TimeWeight(bid, o)
  {
    ParsedIsTruthy(bid.tenderSubmissionDeadline);
  }

  lemma ProcedureScore(bid: Bid)
    ensures ProcedurePart(bid).score == ProcedureWeight(bid.procedureType.GetOr(""))
  {}

  /** The score before it is cut to 0..100: 45 points, the facts, 7 for a preferred keyword and 15 off for one to avoid,
      the deadline and the procedure. */
  lemma ScoreIsSum(lower: string -> string, bid: Bid, o: Ranking)
    ensures Whole(lower, bid, o).score ==
              45 + FactsWeight(Says(bid.externalDocumentUri), Says(bid.organizationName), Says(bid.prefectureName),
                               Says(bid.category))
              + 7 * Occurring(lower, Haystack(lower, bid), o.preferredKeywords)
              - 15 * Occurring(lower, Haystack(lower, bid), o.avoidKeywords)
              + TimeWeight(bid, o) + ProcedureWeight(bid.procedureType.GetOr(""))
  {
    WholeScore(lower, bid, o);
    FactsScore(bid);
    TimeScore(bid, o);
    ProcedureScore(bid);
    FittingOccurs(lower, Haystack(lower, bid), o.preferredKeywords);
    FittingOccurs(lower, Haystack(lower, bid), o.avoidKeywords);
  }

  /** The places of the keywords that are not empty and occur. */
  function Places(lower: string -> string, haystack: string, keywords: seq<string>): set<int> {
    set i | 0 <= i < |keywords| && |keywords[i]| > 0 && Includes(haystack, lower(keywords[i]))
  }

  function Occurring(lower: string -> string, haystack: string, keywords: seq<string>): nat {
    |Places(lower, haystack, keywords)|
  }

  lemma {:induction false} FittingOccurs(lower: string -> string, haystack: string, keywords: seq<string>)
    ensures |Fitting(lower, haystack, keywords)| == Occurring(lower, haystack, keywords)
  {
    if keywords != [] {
      var n := |keywords| - 1;
      FittingOccurs(lower, haystack, keywords[..n]);
      var before := Places(lower, haystack, keywords[..n]);
      assert Places(lower, haystack, keywords) ==
          if Fits(lower, haystack, keywords[n]) then before + {n} else before;
    }
  }

  /** The result: the score is that sum cut to 0..100, and the priority can be read off the result. */
  lemma RankIsReadable(lower: string -> string, bid: Bid, o: Ranking)
    ensures var r, score := Rank(lower, bid, o), Whole(lower, bid, o).score;
            && r.bid == bid && 0 <= r.score <= 100
            && (score < 0 ==> r.score == 0) && (score > 100 ==> r.score == 100)
            && (0 <= score <= 100 ==> r.score == score)
            && (r.priority == Pursue <==> r.score >= 72 && |r.risks| <= 2)
            && (r.priority == Skip <==> r.score <= 39)
  {}

  // ----- what the deadline does -----

  /** The bid's deadline is this many days ahead. */
  predicate IsDaysAhead(bid: Bid, o: Ranking, n: int) {
    var deadline := ParseJapaneseDate(bid.tenderSubmissionDeadline);
    deadline.Some? && DaysUntil(deadline.value, o.today) == n
  }

  /** Two bids alike in all but their readable deadlines differ by what the deadlines are worth: most for more than
      three days ahead and within the window. */
  lemma DeadlinesCompare(lower: string -> string, a: Bid, b: Bid, o: Ranking, m: int, n: int)
    requires b == a.(tenderSubmissionDeadline := b.tenderSubmissionDeadline)
    requires IsDaysAhead(a, o, m) && IsDaysAhead(b, o, n)
    ensures var window := o.dueWithinDays.GetOr(30);
            var x, y := Whole(lower, a, o).score, Whole(lower, b, o).score;
            && x - y == DeadlineWeight(m, window) - DeadlineWeight(n, window)
            && (3 < m <= window ==> y <= x && (y == x <==> 3 < n <= window))
            && (3 < m <= window && 3 < n <= window ==> Rank(lower, a, o).score == Rank(lower, b, o).score)
  {
    ParsedIsTruthy(a.tenderSubmissionDeadline);
    ParsedIsTruthy(b.tenderSubmissionDeadline);
    ScoreIsSum(lower, a, o);
    ScoreIsSum(lower, b, o);
    assert Haystack(lower, a) == Haystack(lower, b);
    RankIsReadable(lower, a, o);
    RankIsReadable(lower, b, o);
  }

  // ----- what is said of a notice -----

  /** The reason holds of the notice; one about the deadline names its days. */
  ghost predicate IsReason(lower: string -> string, bid: Bid, o: Ranking, reason: Reason) {
    match reason
    case HasOfficialUrl => Says(bid.externalDocumentUri)
    case KnownOrganization(name) => |name| > 0 && bid.organizationName == Some(name)
    case KnownPrefecture(name) => |name| > 0 && bid.prefectureName == Some(name)
    case KnownCategory(name) => |name| > 0 && bid.category == Some(name)
    case PreferredKeyword(keyword) => IsOccurring(lower, Haystack(lower, bid), o.preferredKeywords, keyword)
    case DueInDays(n) => IsDaysAhead(bid, o, n) && 3 < n <= o.dueWithinDays.GetOr(30)
    case OpenCompetition => Includes(bid.procedureType.GetOr(""), "一般競争")
  }

  ghost predicate IsRisk(lower: string -> string, bid: Bid, o: Ranking, risk: Risk) {
    match risk
    case NoOfficialUrl => !Says(bid.externalDocumentUri)
    case UnknownOrganization => !Says(bid.organizationName)
    case UnknownPrefecture => !Says(bid.prefectureName)
    case AvoidedKeyword(keyword) => IsOccurring(lower, Haystack(lower, bid), o.avoidKeywords, keyword)
    case DeadlinePassed => exists n :: IsDaysAhead(bid, o, n) && n < 0
    case DueVerySoon(n) => IsDaysAhead(bid, o, n) && 0 <= n <= 3
    case DueMuchLater(n) => IsDaysAhead(bid, o, n) && n > 3 && n > o.dueWithinDays.GetOr(30)
    case UnknownDeadline => !Says(bid.tenderSubmissionDeadline)
  }

  ghost predicate IsOccurring(lower: string -> string, haystack: string, keywords: seq<string>, keyword: string) {
    keyword in keywords && |keyword| > 0 && Includes(haystack, lower(keyword))
  }

  lemma {:induction false} FittingMembers(lower: string -> string, haystack: string, keywords: seq<string>,
          keyword: string)
    ensures keyword in Fitting(lower, haystack, keywords) <==> IsOccurring(lower, haystack, keywords, keyword)
  {
    if keywords != [] {
      var init, last := keywords[..|keywords| - 1], keywords[|keywords| - 1];
      FittingMembers(lower, haystack, init, keyword);
      assert keyword in keywords <==> keyword in init || keyword == last;
    }
  }

  lemma KeywordReasonsAre(lower: string -> string, bid: Bid, o: Ranking, reason: Reason)
    ensures reason in KeywordPart(lower, bid, o).reasons <==>
              reason.PreferredKeyword? && IsReason(lower, bid, o, reason)
  {
    var fitting := Fitting(lower, Haystack(lower, bid), o.preferredKeywords);
    if reason.PreferredKeyword? {
      FittingMembers(lower, Haystack(lower, bid), o.preferredKeywords, reason.keyword);
      if reason.keyword in fitting {
        var i :| 0 <= i < |fitting| && fitting[i] == reason.keyword;
        assert KeywordReasons(fitting)[i] == reason;
      }
    }
  }

  lemma KeywordRisksAre(lower: string -> string, bid: Bid, o: Ranking, risk: Risk)
    ensures risk in KeywordPart(lower, bid, o).risks <==> risk.AvoidedKeyword? && IsRisk(lower, bid, o, risk)
  {
    var fitting := Fitting(lower, Haystack(lower, bid), o.avoidKeywords);
    if risk.AvoidedKeyword? {
      FittingMembers(lower, Haystack(lower, bid), o.avoidKeywords, risk.keyword);
      if risk.keyword in fitting {
        var i :| 0 <= i < |fitting| && fitting[i] == risk.keyword;
        assert KeywordRisks(fitting)[i] == risk;
      }
    }
  }

  lemma InFive<T>(a: seq<T>, b: seq<T>, c: seq<T>, d: seq<T>, e: seq<T>, x: T)
    ensures x in a + b + c + d + e <==> x in a || x in b || x in c || x in d || x in e
  {}

  lemma FactsInOrder(bid: Bid)
    ensures Facts(bid).reasons == [] + UrlPart(bid).reasons + OrganizationPart(bid).reasons
                                  + PrefecturePart(bid).reasons + CategoryPart(bid).reasons
    ensures Facts(bid).risks == [] + UrlPart(bid).risks + OrganizationPart(bid).risks + PrefecturePart(bid).risks
                                + CategoryPart(bid).risks
  {}

  lemma FactReasonsAre(lower: string -> string, bid: Bid, o: Ranking, reason: Reason)
    ensures reason in Facts(bid).reasons <==>
              (reason.HasOfficialUrl? || reason.KnownOrganization? || reason.KnownPrefecture? || reason.KnownCategory?)
              && IsReason(lower, bid, o, reason)
  {
    FactsInOrder(bid);
    InFive([], UrlPart(bid).reasons, OrganizationPart(bid).reasons, PrefecturePart(bid).reasons,
        CategoryPart(bid).reasons, reason);
  }

  lemma FactRisksAre(lower: string -> string, bid: Bid, o: Ranking, risk: Risk)
    ensures risk in Facts(bid).risks <==>
              (risk.NoOfficialUrl? || risk.UnknownOrganization? || risk.UnknownPrefecture?)
              && IsRisk(lower, bid, o, risk)
  {
    FactsInOrder(bid);
    InFive([], UrlPart(bid).risks, OrganizationPart(bid).risks, PrefecturePart(bid).risks, CategoryPart(bid).risks,
        risk);
  }

  lemma DeadlineReasonsAre(lower: string -> string, bid: Bid, o: Ranking, reason: Reason)
    ensures reason in DeadlinePart(bid, o.today, o.dueWithinDays).reasons <==>
              reason.DueInDays? && IsReason(lower, bid, o, reason)
  {
    var deadline := ParseJapaneseDate(bid.tenderSubmissionDeadline);
    if deadline.Some? { DeadlineSays(bid, o, DaysUntil(deadline.value, o.today)); }
  }

  /** What is said of a deadline n days ahead: one thing, which names n unless it has passed. */
  lemma DeadlineSays(bid: Bid, o: Ranking, n: int)
    requires IsDaysAhead(bid, o, n)
    ensures var part, window := DeadlinePart(bid, o.today, o.dueWithinDays), o.dueWithinDays.GetOr(30);
            && part.reasons == (if 3 < n <= window then [DueInDays(n)] else [])
            && part.risks == if n < 0 then [DeadlinePassed] else if n <= 3 then [DueVerySoon(n)]
                             else if n <= window then [] else [DueMuchLater(n)]
  {}

  lemma RestReasonsAre(lower: string -> string, bid: Bid, o: Ranking, reason: Reason)
    ensures reason in ProcedurePart(bid).reasons <==> reason.OpenCompetition? && IsReason(lower, bid, o, reason)
    ensures MissingDeadlinePart(bid).reasons == []
  {}

  lemma PassedRiskIs(bid: Bid, o: Ranking, n: int)
    requires IsDaysAhead(bid, o, n)
    ensures DeadlinePassed in DeadlinePart(bid, o.today, o.dueWithinDays).risks <==> n < 0
    ensures n < 0 <==> exists k :: IsDaysAhead(bid, o, k) && k < 0
  {
    DeadlineSays(bid, o, n);
  }

  lemma DatedRisksAre(lower: string -> string, bid: Bid, o: Ranking, risk: Risk, n: int)
    requires IsDaysAhead(bid, o, n) && !risk.DeadlinePassed?
    ensures risk in DeadlinePart(bid, o.today, o.dueWithinDays).risks <==>
              (risk.DueVerySoon? || risk.DueMuchLater?) && IsRisk(lower, bid, o, risk)
  {
    DeadlineSays(bid, o, n);
  }

  lemma DeadlineRisksAre(lower: string -> string, bid: Bid, o: Ranking, risk: Risk)
    ensures risk in DeadlinePart(bid, o.today, o.dueWithinDays).risks <==>
              (risk.DeadlinePassed? || risk.DueVerySoon? || risk.DueMuchLater?) && IsRisk(lower, bid, o, risk)
  {
    var deadline := ParseJapaneseDate(bid.tenderSubmissionDeadline);
    if deadline.Some? {
      var n := DaysUntil(deadline.value, o.today);
      PassedRiskIs(bid, o, n);
      if !risk.DeadlinePassed? { DatedRisksAre(lower, bid, o, risk, n); }
    }
  }

  lemma RestRisksAre(lower: string -> string, bid: Bid, o: Ranking, risk: Risk)
    ensures risk in MissingDeadlinePart(bid).risks <==> risk.UnknownDeadline? && IsRisk(lower, bid, o, risk)
    ensures ProcedurePart(bid).risks == []
  {}

  /** The reasons and the risks are exactly those that hold of the notice. */
  lemma ReasonsHold(lower: string -> string, bid: Bid, o: Ranking, reason: Reason)
    ensures reason in Whole(lower, bid, o).reasons <==> IsReason(lower, bid, o, reason)
  {
    WholeScore(lower, bid, o);
    InFive(Facts(bid).reasons, KeywordPart(lower, bid, o).reasons, DeadlinePart(bid, o.today, o.dueWithinDays).reasons,
        ProcedurePart(bid).reasons, MissingDeadlinePart(bid).reasons, reason);
    FactReasonsAre(lower, bid, o, reason);
    KeywordReasonsAre(lower, bid, o, reason);
    DeadlineReasonsAre(lower, bid, o, reason);
    RestReasonsAre(lower, bid, o, reason);
  }

  lemma RisksHold(lower: string -> string, bid: Bid, o: Ranking, risk: Risk)
    ensures risk in Whole(lower, bid, o).risks <==> IsRisk(lower, bid, o, risk)
  {
    WholeScore(lower, bid, o);
    InFive(Facts(bid).risks, KeywordPart(lower, bid, o).risks, DeadlinePart(bid, o.today, o.dueWithinDays).risks,
        ProcedurePart(bid).risks, MissingDeadlinePart(bid).risks, risk);
    FactRisksAre(lower, bid, o, risk);
    KeywordRisksAre(lower, bid, o, risk);
    DeadlineRisksAre(lower, bid, o, risk);
    RestRisksAre(lower, bid, o, risk);
  }

  /** A list shows the first six. */
  lemma SixAreShown(lower: string -> string, bid: Bid, o: Ranking)
    ensures var r, all := Rank(lower, bid, o), Whole(lower, bid, o);
            && |r.reasons| == (if |all.reasons| < 6 then |all.reasons| else 6) && r.reasons <= all.reasons
            && |r.risks| == (if |all.risks| < 6 then |all.risks| else 6) && r.risks <= all.risks
  {}

  // ----- which texts keywords are looked for in -----

  lemma {:induction false} PartOccurs(parts: seq<string>, separator: string, i: nat)
    requires i < |parts|
    ensures Includes(Join(parts, separator), parts[i])
  {
    var whole := Join(parts, separator);
    if |parts| == 1 {
      assert OccursAt(whole, parts[0], 0);
    } else if i == 0 {
      assert whole[..|parts[0]|] == parts[0];
      assert OccursAt(whole, parts[0], 0);
    } else {
      PartOccurs(parts[1..], separator, i - 1);
      var rest := Join(parts[1..], separator);
      var k :| 0 <= k <= |rest| - |parts[i]| && OccursAt(rest, parts[i], k);
      var n := |parts[0]| + |separator|;
      assert whole[n..] == rest;
      assert whole[n + k..n + k + |parts[i]|] == rest[k..k + |parts[i]|];
      assert OccursAt(whole, parts[i], n + k);
    }
  }

  /** Name, description, organization, category and procedure are searched, in one text without regard to case. */
  lemma TextsAreSearched(lower: string -> string, bid: Bid) returns (text: string)
    ensures Haystack(lower, bid) == lower(text)
    ensures Includes(text, bid.projectName)
    ensures forall part :: part in [bid.projectDescription, bid.organizationName, bid.category, bid.procedureType] ==>
              (part.Some? ==> Includes(text, part.value))
  {
    var a, b, c, d := Given(bid.projectDescription), Given(bid.organizationName), Given(bid.category),
        Given(bid.procedureType);
    var parts := [bid.projectName] + a + b + c + d;
    text := Join(parts, " ");
    PartOccurs(parts, " ", 0);
    forall part | part in [bid.projectDescription, bid.organizationName, bid.category, bid.procedureType] && part.Some?
      ensures Includes(text, part.value)
    {
      assert part.value in parts;
      var i :| 0 <= i < |parts| && parts[i] == part.value;
      PartOccurs(parts, " ", i);
    }
  }

  // ----- keywords move the score one way -----

  function PriorityRank(p: Priority): nat { match p case Skip => 0 case Review => 1 case Pursue => 2 }

  lemma {:induction false} FittingOfConcat(lower: string -> string, haystack: string, a: seq<string>, b: seq<string>)
    ensures Fitting(lower, haystack, a + b) == Fitting(lower, haystack, a) + Fitting(lower, haystack, b)
  {
    if b == [] {
      assert a + b == a;
    } else {
      assert (a + b)[..|a + b| - 1] == a + b[..|b| - 1];
      FittingOfConcat(lower, haystack, a, b[..|b| - 1]);
    }
  }

  lemma FittingInserted(lower: string -> string, haystack: string, before: seq<string>, keyword: string,
          after: seq<string>)
    ensures var less, more := Fitting(lower, haystack, before + after),
        Fitting(lower, haystack, before + [keyword] + after);
            if Fits(lower, haystack, keyword) then |more| == |less| + 1 else more == less
  {
    FittingOfConcat(lower, haystack, before + [keyword], after);
    FittingOfConcat(lower, haystack, before, [keyword]);
    FittingOfConcat(lower, haystack, before, after);
    assert [keyword][..0] == [];
  }

  lemma WholeScore(lower: string -> string, bid: Bid, o: Ranking)
    ensures var all := Whole(lower, bid, o);
            && all.score ==
                Facts(bid).score + KeywordPart(lower, bid, o).score + DeadlinePart(bid, o.today, o.dueWithinDays).score
                            + ProcedurePart(bid).score + MissingDeadlinePart(bid).score
            && all.reasons ==
                Facts(bid).reasons + KeywordPart(lower, bid, o).reasons +
                    DeadlinePart(bid, o.today, o.dueWithinDays).reasons
                              + ProcedurePart(bid).reasons + MissingDeadlinePart(bid).reasons
            && all.risks ==
                Facts(bid).risks + KeywordPart(lower, bid, o).risks + DeadlinePart(bid, o.today, o.dueWithinDays).risks
                            + ProcedurePart(bid).risks + MissingDeadlinePart(bid).risks
  {}

  lemma MorePreferred(lower: string -> string, bid: Bid, o: Ranking, p: Ranking, before: seq<string>, keyword: string,
          after: seq<string>)
    requires o.preferredKeywords == before + after && p == o.(preferredKeywords := before + [keyword] + after)
    ensures var all, more := Whole(lower, bid, o), Whole(lower, bid, p);
            && more.risks == all.risks
            && more.score == all.score + (if Fits(lower, Haystack(lower, bid), keyword) then 7 else 0)
            && (!Fits(lower, Haystack(lower, bid), keyword) ==> more.reasons == all.reasons)
  {
    FittingInserted(lower, Haystack(lower, bid), before, keyword, after);
    WholeScore(lower, bid, o);
    WholeScore(lower, bid, p);
  }

  lemma MoreAvoided(lower: string -> string, bid: Bid, o: Ranking, p: Ranking, before: seq<string>, keyword: string,
          after: seq<string>)
    requires o.avoidKeywords == before + after && p == o.(avoidKeywords := before + [keyword] + after)
    ensures var all, more := Whole(lower, bid, o), Whole(lower, bid, p);
            && more.reasons == all.reasons && |more.risks| >= |all.risks|
            && more.score == all.score - if Fits(lower, Haystack(lower, bid), keyword) then 15 else 0
  {
    FittingInserted(lower, Haystack(lower, bid), before, keyword, after);
    WholeScore(lower, bid, o);
    WholeScore(lower, bid, p);
  }

  lemma PriorityIsMonotone(score: int, higher: int, risks: seq<Risk>, fewer: seq<Risk>)
    requires score <= higher && |fewer| <= |risks|
    ensures Clamp(score) <= Clamp(higher)
    ensures PriorityRank(ToPriority(Clamp(score), risks)) <= PriorityRank(ToPriority(Clamp(higher), fewer))
  {}

  /** Adding a preferred keyword, anywhere in the list, never lowers a score or a priority. */
  lemma PreferredKeywordsRaise(lower: string -> string, bid: Bid, o: Ranking, p: Ranking, before: seq<string>,
          keyword: string, after: seq<string>)
    requires o.preferredKeywords == before + after && p == o.(preferredKeywords := before + [keyword] + after)
    ensures var r, more := Rank(lower, bid, o), Rank(lower, bid, p);
            && r.score <= more.score <= r.score + 7 && r.risks == more.risks
            && PriorityRank(r.priority) <= PriorityRank(more.priority)
            && (!Fits(lower, Haystack(lower, bid), keyword) ==> r == more)
  {
    MorePreferred(lower, bid, o, p, before, keyword, after);
    var all, more := Whole(lower, bid, o), Whole(lower, bid, p);
    PriorityIsMonotone(all.score, more.score, all.risks, more.risks);
  }

  /** Adding a keyword to avoid, anywhere in the list, never raises one. */
  lemma AvoidedKeywordsLower(lower: string -> string, bid: Bid, o: Ranking, p: Ranking, before: seq<string>,
          keyword: string, after: seq<string>)
    requires o.avoidKeywords == before + after && p == o.(avoidKeywords := before + [keyword] + after)
    ensures var r, more := Rank(lower, bid, o), Rank(lower, bid, p);
            && r.score - 15 <= more.score <= r.score && r.reasons == more.reasons
            && PriorityRank(more.priority) <= PriorityRank(r.priority)
  {
    MoreAvoided(lower, bid, o, p, before, keyword, after);
    var all, more := Whole(lower, bid, o), Whole(lower, bid, p);
    PriorityIsMonotone(more.score, all.score, more.risks, all.risks);
  }

  // ----- the shortlist -----

  function RankAll(lower: string -> string, bids: seq<Bid>, o: Ranking): (ranked: seq<RankedBid>)
    ensures |ranked| == |bids| && forall i :: 0 <= i < |bids| ==> ranked[i] == Rank(lower, bids[i], o)
  {
    seq(|bids|, i requires 0 <= i < |bids| => Rank(lower, bids[i], o))
  }

  function ScoreOf(r: RankedBid): int { r.score }

  predicate EarlierResult(left: RankedBid, right: RankedBid) { left.bid.resultId <= right.bid.resultId }

  /** A higher score first, equal scores by result number. */
  function BetterBid(): (RankedBid, RankedBid) -> bool { Descending(ScoreOf, EarlierResult) }

  /** `s.slice(0, k)`: a negative k counts from the end. */
  function SliceTo<T>(s: seq<T>, k: int): seq<T> { Take(s, Kept(|s|, k)) }

  function Kept(n: nat, k: int): nat { if k < 0 then (if n + k < 0 then 0 else n + k) else k }

  /** `rankBidSearchResult`. */
  function Shortlist(lower: string -> string, bids: seq<Bid>, o: Ranking): seq<RankedBid> {
    SliceTo(Sort(BetterBid(), RankAll(lower, bids, o)), o.shortlistLimit.GetOr(|bids|))
  }

  lemma BetterMeans(a: RankedBid, b: RankedBid)
    ensures BetterBid()(a, b) <==> IsBetter(a, b)
  {
    DescendingMeans(ScoreOf, EarlierResult, a, b);
  }

  lemma BestRanked(ranked: seq<RankedBid>, n: nat) returns (omitted: seq<RankedBid>)
    ensures IsBest(Take(Sort(BetterBid(), ranked), n), omitted, ranked, n)
  {
    DescendingIsPreorder(ScoreOf, EarlierResult);
    omitted := FirstAreBest(BetterBid(), ranked, n);
    SortSorts(BetterBid(), ranked);
    var all := Sort(BetterBid(), ranked);
    forall i, j | 0 <= i < j < |all|
      ensures IsBetter(all[i], all[j])
    {
      assert BetterBid()(all[i], all[j]);
      BetterMeans(all[i], all[j]);
    }
  }

  /** The two lists hold all bids, the first has as many as it may, and no bid is better than one before it:
      neither one kept nor, from the second list, one left out. */
  ghost predicate IsBest(kept: seq<RankedBid>, omitted: seq<RankedBid>, ranked: seq<RankedBid>, n: nat) {
    && |kept| == (if |ranked| <= n then |ranked| else n)
    && multiset(kept) + multiset(omitted) == multiset(ranked)
    && forall i, j :: 0 <= i < j < |kept + omitted| ==> IsBetter((kept + omitted)[i], (kept + omitted)[j])
  }

  /** How many of n results a limit leaves: all without one, and all but k for -k. */
  predicate IsLimit(limit: Option<int>, n: nat, kept: nat) {
    && (limit.None? ==> kept == n)
    && (limit.Some? && limit.value >= 0 ==> kept == if limit.value < n then limit.value else n)
    && (limit.Some? && limit.value < 0 ==> if n + limit.value > 0 then kept == n + limit.value else kept == 0)
  }

  /** For all searches and limits: the shortlist is the best the limit allows, in order. */
  lemma ShortlistIsBest(lower: string -> string, bids: seq<Bid>, o: Ranking) returns (omitted: seq<RankedBid>)
    ensures IsLimit(o.shortlistLimit, |bids|, |Shortlist(lower, bids, o)|)
    ensures IsBest(Shortlist(lower, bids, o), omitted, RankAll(lower, bids, o), |Shortlist(lower, bids, o)|)
  {
    omitted := BestRanked(RankAll(lower, bids, o), Kept(|bids|, o.shortlistLimit.GetOr(|bids|)));
  }

  /** Higher score, or the same score and no later result. */
  predicate IsBetter(a: RankedBid, b: RankedBid) {
    a.score > b.score || (a.score == b.score && a.bid.resultId <= b.bid.resultId)
  }
}
