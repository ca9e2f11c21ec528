/** Notices mapped to listed companies, and the facts gathered per company. */
module AwardMapping {
  import opened Options
  import opened Bids
  import opened InsertionMap
  import opened Strings
  import opened StableSort
  import opened Counting
  import opened ListedCompany
  import opened TextMatches

  datatype MappedAward = MappedAward(bid: Bid, matches: seq<Match>)

  // ----- mapping -----

  function Present(text: Option<string>): seq<string> {
    if text.Some? && text.value != "" then [text.value] else []
  }

  /** `bidSearchText`. */
  function SearchText(bid: Bid): string {
    Join(Present(Some(bid.projectName)) + Present(bid.projectDescription) + Present(bid.organizationName), " ")
  }

  function MatchesOf(n: Normalizer, catalog: seq<Company>, bid: Bid): seq<Match> {
    Matches(n, SearchText(bid), catalog)
  }

  function Mapped(n: Normalizer, catalog: seq<Company>, bids: seq<Bid>): seq<MappedAward> {
    if bids == [] then []
    else
      var before, bid := Mapped(n, catalog, bids[..|bids| - 1]), bids[|bids| - 1];
      if MatchesOf(n, catalog, bid) == [] then before else before + [MappedAward(bid, MatchesOf(n, catalog, bid))]
  }

  lemma MappedNext(n: Normalizer, catalog: seq<Company>, bids: seq<Bid>, i: nat, matches: seq<Match>)
    requires i < |bids| && matches == Matches(n, SearchText(bids[i]), catalog)
    ensures Mapped(n, catalog, bids[..i + 1]) ==
            Mapped(n, catalog, bids[..i]) + if matches == [] then [] else [MappedAward(bids[i], matches)]
  {
    assert bids[..i + 1][..i] == bids[..i];
  }

  /** Every notice read is mapped or counted as unmapped. */
  method MapAwards(n: Normalizer, catalog: seq<Company>, bids: seq<Bid>)
    returns (mapped: seq<MappedAward>, unmappedCount: nat)
    ensures mapped == Mapped(n, catalog, bids)
    ensures |mapped| + unmappedCount == |bids|
  {
    mapped, unmappedCount := [], 0;
    for i := 0 to |bids|
      invariant mapped == Mapped(n, catalog, bids[..i])
      invariant |mapped| + unmappedCount == i
    {
      var matches := MatchListedCompaniesInText(n, SearchText(bids[i]), catalog);
      MappedNext(n, catalog, bids, i, matches);
      if |matches| == 0 {
        unmappedCount := unmappedCount + 1;
      } else {
        mapped := mapped + [MappedAward(bids[i], matches)];
      }
    }
    assert bids[..|bids|] == bids;
  }

  // ----- notices per company -----

  /** One notice found for one company. */
  datatype Hit = Hit(company: Company, bid: Bid)

  function HitsOf(bid: Bid, matches: seq<Match>): (hits: seq<Hit>)
    ensures |hits| == |matches|
  {
    if matches == [] then []
    else HitsOf(bid, matches[..|matches| - 1]) + [Hit(matches[|matches| - 1].company, bid)]
  }

  function Hits(mapped: seq<MappedAward>): seq<Hit> {
    if mapped == [] then []
    else Hits(mapped[..|mapped| - 1]) + HitsOf(mapped[|mapped| - 1].bid, mapped[|mapped| - 1].matches)
  }

  datatype Bucket = Bucket(company: Company, bids: seq<Bid>)

  type Buckets = seq<Pair<string, Bucket>>

  function AddHit(byCode: Buckets, hit: Hit): Buckets {
    var bucket := Get(byCode, hit.company.code).GetOr(Bucket(hit.company, []));
    Set(byCode, hit.company.code, Bucket(bucket.company, bucket.bids + [hit.bid]))
  }

  function BucketsOf(hits: seq<Hit>): Buckets {
    if hits == [] then [] else AddHit(BucketsOf(hits[..|hits| - 1]), hits[|hits| - 1])
  }

  /** The notices found for a code, in order. */
  function BidsFor(hits: seq<Hit>, code: string): seq<Bid> {
    if hits == [] then []
    else
      var before, hit := BidsFor(hits[..|hits| - 1], code), hits[|hits| - 1];
      if hit.company.code == code then before + [hit.bid] else before
  }

  lemma {:induction false} BucketHoldsHits(hits: seq<Hit>, code: string)
    ensures var bucket := Get(BucketsOf(hits), code);
            if bucket.Some? then bucket.value.bids == BidsFor(hits, code) && bucket.value.company.code == code
            else BidsFor(hits, code) == []
  {
    if hits != [] {
      var init, hit := hits[..|hits| - 1], hits[|hits| - 1];
      BucketHoldsHits(init, code);
      BucketHoldsHits(init, hit.company.code);
      var bucket := Get(BucketsOf(init), hit.company.code).GetOr(Bucket(hit.company, []));
      GetOfSet(BucketsOf(init), hit.company.code, Bucket(bucket.company, bucket.bids + [hit.bid]), code);
    }
  }

  ghost predicate FirstHitAt(hits: seq<Hit>, code: string, i: int) {
    0 <= i < |hits| && hits[i].company.code == code && forall j :: 0 <= j < i ==> hits[j].company.code != code
  }

  /** A bucket names the company of its code that was found first. */
  lemma {:induction false} BucketNamesFirst(hits: seq<Hit>, code: string)
    ensures var bucket := Get(BucketsOf(hits), code);
            if bucket.Some? then exists i :: FirstHitAt(hits, code, i) && hits[i].company == bucket.value.company
            else forall i :: 0 <= i < |hits| ==> hits[i].company.code != code
  {
    if hits != [] {
      var init, hit := hits[..|hits| - 1], hits[|hits| - 1];
      BucketNamesFirst(init, code);
      CompanyOfAdd(BucketsOf(init), hit, code);
      if Has(BucketsOf(init), code) {
        var i :| FirstHitAt(init, code, i) && init[i].company == Get(BucketsOf(init), code).value.company;
        assert FirstHitAt(hits, code, i);
      } else if hit.company.code == code {
        assert FirstHitAt(hits, code, |init|);
      }
    }
  }

  lemma CompanyOfAdd(byCode: Buckets, hit: Hit, code: string)
    ensures Has(AddHit(byCode, hit), code) <==> Has(byCode, code) || code == hit.company.code
    ensures Has(AddHit(byCode, hit), code) ==>
              Get(AddHit(byCode, hit), code).value.company == if Has(byCode, code) then Get(byCode, code).value.company
                  else hit.company
  {
    var bucket := Get(byCode, hit.company.code).GetOr(Bucket(hit.company, []));
    GetOfSet(byCode, hit.company.code, Bucket(bucket.company, bucket.bids + [hit.bid]), code);
  }

  // ----- facts -----

  datatype Facts = Facts(
    company: Company, noticeCount: nat, latestNoticeDate: Option<string>, latestNoticeKey: Option<string>,
    prefectureBreakdown: seq<Pair<string, nat>>, categoryBreakdown: seq<Pair<string, nat>>, noticeKeys: seq<string>)

  function Prefectures(bids: seq<Bid>): seq<string> {
    seq(|bids|, i requires 0 <= i < |bids| => bids[i].prefectureName.GetOr(UNKNOWN))
  }

  function Categories(bids: seq<Bid>): seq<string> {
    seq(|bids|, i requires 0 <= i < |bids| => bids[i].category.GetOr(UNKNOWN))
  }

  function KeysOf(bids: seq<Bid>): seq<string> { seq(|bids|, i requires 0 <= i < |bids| => bids[i].key) }

  function NoticeDateOf(bid: Bid): Option<string> { if bid.cftIssueDate.Some? then bid.cftIssueDate else bid.date }

  function FactsOf(bucket: Bucket): Facts {
    var latest := Latest(NoticeDate, bucket.bids);
    Facts(bucket.company, |bucket.bids|,
          if latest.Some? then NoticeDateOf(latest.value) else None,
          if latest.Some? then Some(latest.value.key) else None,
          Counts(Prefectures(bucket.bids)), Counts(Categories(bucket.bids)), KeysOf(bucket.bids))
  }

  function AllFacts(buckets: seq<Bucket>): (facts: seq<Facts>)
    ensures |facts| == |buckets| && forall i :: 0 <= i < |facts| ==> facts[i] == FactsOf(buckets[i])
  {
    if buckets == [] then [] else [FactsOf(buckets[0])] + AllFacts(buckets[1..])
  }

  /** More notices first, then by code in locale order. */
  function MoreNotices(localeLe: (string, string) -> bool): (Facts, Facts) -> bool {
    Descending(NoticeWeight, OrderedBy(CompanyCode, localeLe))
  }

  function NoticeWeight(facts: Facts): int { facts.noticeCount }

  function NoticeCount(facts: Facts): nat { facts.noticeCount }

  function CompanyCode(facts: Facts): string { facts.company.code }

  function Summary(localeLe: (string, string) -> bool, mapped: seq<MappedAward>): seq<Facts> {
    Sort(MoreNotices(localeLe), AllFacts(Values(BucketsOf(Hits(mapped)))))
  }

  method SummarizeListedAwards(localeLe: (string, string) -> bool, mapped: seq<MappedAward>) returns (facts: seq<Facts>)
    ensures facts == Summary(localeLe, mapped)
  {
    var byCode: Buckets := [];
    for i := 0 to |mapped|
      invariant byCode == BucketsOf(Hits(mapped[..i]))
    {
      var item := mapped[i];
      ghost var before := Hits(mapped[..i]);
      assert before + HitsOf(item.bid, item.matches[..0]) == before;
      for j := 0 to |item.matches|
        invariant byCode == BucketsOf(before + HitsOf(item.bid, item.matches[..j]))
      {
        var hit := Hit(item.matches[j].company, item.bid);
        ghost var hits := before + HitsOf(item.bid, item.matches[..j]);
        byCode := AddHit(byCode, hit);
        assert item.matches[..j + 1][..j] == item.matches[..j];
        assert before + HitsOf(item.bid, item.matches[..j + 1]) == hits + [hit];
        assert (hits + [hit])[..|hits|] == hits;
      }
      assert item.matches[..|item.matches|] == item.matches;
      assert mapped[..i + 1][..i] == mapped[..i];
    }
    assert mapped[..|mapped|] == mapped;
    facts := Sort(MoreNotices(localeLe), AllFacts(Values(byCode)));
  }

  /** More notices, or as many and a code that is no later in locale order. */
  predicate StandsBefore(localeLe: (string, string) -> bool, a: Facts, b: Facts) {
    a.noticeCount > b.noticeCount || (a.noticeCount == b.noticeCount && localeLe(a.company.code, b.company.code))
  }

  lemma MoreNoticesMeans(localeLe: (string, string) -> bool, a: Facts, b: Facts)
    ensures MoreNotices(localeLe)(a, b) <==> StandsBefore(localeLe, a, b)
  {
    DescendingMeans(NoticeWeight, OrderedBy(CompanyCode, localeLe), a, b);
    OrderedByMeans(CompanyCode, localeLe, a, b);
  }

  /** For any total locale order: more notices first, equal counts by code. */
  lemma SummaryIsOrdered(localeLe: (string, string) -> bool, mapped: seq<MappedAward>)
    requires TotalPreorder(localeLe)
    ensures var facts := Summary(localeLe, mapped);
            forall i, j :: 0 <= i < j < |facts| ==> StandsBefore(localeLe, facts[i], facts[j])
  {
    OrderedByIsPreorder(CompanyCode, localeLe);
    DescendingIsPreorder(NoticeWeight, OrderedBy(CompanyCode, localeLe));
    SortSorts(MoreNotices(localeLe), AllFacts(Values(BucketsOf(Hits(mapped)))));
    var facts := Summary(localeLe, mapped);
    forall i, j | 0 <= i < j < |facts|
      ensures StandsBefore(localeLe, facts[i], facts[j])
    {
      assert MoreNotices(localeLe)(facts[i], facts[j]);
      MoreNoticesMeans(localeLe, facts[i], facts[j]);
    }
  }

  // ----- conservation -----

  function Size(bucket: Bucket): nat { |bucket.bids| }

  function MatchCount(item: MappedAward): nat { |item.matches| }

  lemma {:induction false} BucketsSumToHits(hits: seq<Hit>)
    ensures Distinct(BucketsOf(hits)) && Sum(Size, Values(BucketsOf(hits))) == |hits|
  {
    if hits != [] {
      var init, hit := hits[..|hits| - 1], hits[|hits| - 1];
      BucketsSumToHits(init);
      var bucket := Get(BucketsOf(init), hit.company.code).GetOr(Bucket(hit.company, []));
      var updated := Bucket(bucket.company, bucket.bids + [hit.bid]);
      SetKeepsDistinct(BucketsOf(init), hit.company.code, updated);
      SumOfSet(Size, BucketsOf(init), hit.company.code, updated);
    }
  }

  lemma {:induction false} FactsSumToSizes(buckets: seq<Bucket>)
    ensures Sum(NoticeCount, AllFacts(buckets)) == Sum(Size, buckets)
  {
    if buckets != [] {
      FactsSumToSizes(buckets[1..]);
      assert AllFacts(buckets)[1..] == AllFacts(buckets[1..]);
    }
  }

  lemma {:induction false} HitsAreMatches(mapped: seq<MappedAward>)
    ensures |Hits(mapped)| == Sum(MatchCount, mapped)
  {
    if mapped != [] {
      HitsAreMatches(mapped[..|mapped| - 1]);
      SumOfLast(MatchCount, mapped);
    }
  }

  /** For all mapped notices: the notice counts of all companies sum to the number of matches. */
  lemma NoticeCountsSumToMatches(localeLe: (string, string) -> bool, mapped: seq<MappedAward>)
    ensures Sum(NoticeCount, Summary(localeLe, mapped)) == Sum(MatchCount, mapped)
  {
    var buckets := Values(BucketsOf(Hits(mapped)));
    SumOfSort(NoticeCount, MoreNotices(localeLe), AllFacts(buckets));
    FactsSumToSizes(buckets);
    BucketsSumToHits(Hits(mapped));
    HitsAreMatches(mapped);
  }

  /** Each list of facts is about one code and all notices found for it. */
  lemma FactsAreOfHits(localeLe: (string, string) -> bool, mapped: seq<MappedAward>, facts: Facts)
    requires facts in Summary(localeLe, mapped)
    ensures var bids := BidsFor(Hits(mapped), facts.company.code);
            facts == FactsOf(Bucket(facts.company, bids)) && bids != []
  {
    var buckets := BucketsOf(Hits(mapped));
    SortMembers(MoreNotices(localeLe), AllFacts(Values(buckets)), facts);
    var i :| 0 <= i < |buckets| && AllFacts(Values(buckets))[i] == facts;
    BucketsSumToHits(Hits(mapped));
    KeyOfMember(buckets, i);
    BucketHoldsHits(Hits(mapped), buckets[i].key);
    EveryBucketIsFilled(Hits(mapped), buckets[i].key);
  }

  lemma {:induction false} EveryBucketIsFilled(hits: seq<Hit>, code: string)
    ensures Has(BucketsOf(hits), code) <==> BidsFor(hits, code) != []
  {
    if hits != [] {
      var init, hit := hits[..|hits| - 1], hits[|hits| - 1];
      EveryBucketIsFilled(init, code);
      var bucket := Get(BucketsOf(init), hit.company.code).GetOr(Bucket(hit.company, []));
      GetOfSet(BucketsOf(init), hit.company.code, Bucket(bucket.company, bucket.bids + [hit.bid]), code);
    }
  }

  /** Both breakdowns of a company sum to its notice count, and each part is the number of notices it names. */
  lemma BreakdownsSumToNotices(localeLe: (string, string) -> bool, mapped: seq<MappedAward>, facts: Facts, part: string)
    requires facts in Summary(localeLe, mapped)
    ensures Total(facts.prefectureBreakdown) == facts.noticeCount && Total(facts.categoryBreakdown) == facts.noticeCount
    ensures var bids := BidsFor(Hits(mapped), facts.company.code);
            && facts.noticeCount == |bids|
            && Get(facts.prefectureBreakdown, part).GetOr(0) == Occurrences(Prefectures(bids), part)
            && Get(facts.categoryBreakdown, part).GetOr(0) == Occurrences(Categories(bids), part)
  {
    FactsAreOfHits(localeLe, mapped, facts);
    var bids := BidsFor(Hits(mapped), facts.company.code);
    CountsAreOccurrences(Prefectures(bids), part);
    CountsAreOccurrences(Categories(bids), part);
  }

  /** The latest notice is the first with the greatest date. */
  lemma LatestNoticeIsFirstLatest(localeLe: (string, string) -> bool, mapped: seq<MappedAward>, facts: Facts)
    returns (i: int)
    requires facts in Summary(localeLe, mapped)
    ensures var bids := BidsFor(Hits(mapped), facts.company.code);
            && FirstLatest(NoticeDate, bids, i)
            && facts.latestNoticeKey == Some(bids[i].key)
            && (bids[i].cftIssueDate.Some? ==> facts.latestNoticeDate == bids[i].cftIssueDate)
            && (bids[i].cftIssueDate.None? ==> facts.latestNoticeDate == bids[i].date)
  {
    FactsAreOfHits(localeLe, mapped, facts);
    i := LatestIsFirstLatest(NoticeDate, BidsFor(Hits(mapped), facts.company.code));
  }

  // ----- a notice counts once per code -----

  lemma {:induction false} HitOnce(bid: Bid, matches: seq<Match>, code: string)
    requires CodesDistinct(matches)
    ensures BidsFor(HitsOf(bid, matches), code) == if code in Codes(matches) then [bid] else []
  {
    if matches != [] {
      var init, last := matches[..|matches| - 1], matches[|matches| - 1];
      HitOnce(bid, init, code);
      assert HitsOf(bid, matches)[..|init|] == HitsOf(bid, init);
      assert Codes(matches) == Codes(init) + {last.company.code};
      assert last.company.code !in Codes(init);
    }
  }

  lemma {:induction false} BidsForConcat(a: seq<Hit>, b: seq<Hit>, code: string)
    ensures BidsFor(a + b, code) == BidsFor(a, code) + BidsFor(b, code)
  {
    if b == [] {
      assert a + b == a;
    } else {
      assert (a + b)[..|a + b| - 1] == a + b[..|b| - 1];
      BidsForConcat(a, b[..|b| - 1], code);
    }
  }

  predicate MentionsCode(n: Normalizer, catalog: seq<Company>, bid: Bid, code: string) {
    code in Codes(MatchesOf(n, catalog, bid))
  }

  /** The notices that mention a company of the code, in order. */
  function Mentioning(n: Normalizer, catalog: seq<Company>, bids: seq<Bid>, code: string): seq<Bid> {
    if bids == [] then []
    else
      var before := Mentioning(n, catalog, bids[..|bids| - 1], code);
      if MentionsCode(n, catalog, bids[|bids| - 1], code) then before + [bids[|bids| - 1]] else before
  }

  predicate IsText(text: string) { |text| > 0 }

  /** Name, description and organization, those that are not empty, with spaces between. */
  function SearchedText(bid: Bid): string {
    Join(Filter(IsText, [bid.projectName, bid.projectDescription.GetOr(""), bid.organizationName.GetOr("")]), " ")
  }

  lemma SearchTextIsSearched(bid: Bid)
    ensures SearchText(bid) == SearchedText(bid)
  {
    var p, d, o := bid.projectName, bid.projectDescription.GetOr(""), bid.organizationName.GetOr("");
    assert [p, d, o][1..] == [d, o] && [d, o][1..] == [o] && [o][1..] == [];
    assert Filter(IsText, [o]) == Present(bid.organizationName);
    assert Filter(IsText, [d, o]) == Present(bid.projectDescription) + Present(bid.organizationName);
    assert Filter(IsText, [p, d, o]) ==
        Present(Some(p)) + (Present(bid.projectDescription) + Present(bid.organizationName));
    assert Filter(IsText, [p, d, o]) ==
        Present(Some(p)) + Present(bid.projectDescription) + Present(bid.organizationName);
  }

  /** One of the company's names, at least two characters long when normalised, occurs in the normalised text. */
  ghost predicate NamesCompany(n: Normalizer, text: string, company: Company) {
    exists name :: (name == company.name || name in company.aliases) && |n.name(name)| >= 2
      && Includes(n.name(text), n.name(name))
  }

  lemma {:induction false} NormalizedMembers(n: Normalizer, names: seq<string>, x: string)
    ensures x in Normalized(n, names) <==> exists name :: name in names && n.name(name) == x
  {
    if names != [] {
      NormalizedMembers(n, names[1..], x);
      assert forall name :: name in names <==> name == names[0] || name in names[1..];
    }
  }

  lemma {:induction false} FilterMembers<T>(p: T -> bool, s: seq<T>, x: T)
    ensures x in Filter(p, s) <==> x in s && p(x)
  {
    if s != [] { FilterMembers(p, s[1..], x); }
  }

  lemma MentionedIffNamed(n: Normalizer, text: string, company: Company)
    ensures Mentioned(n, n.name(text), company) <==> NamesCompany(n, text, company)
  {
    var all := Normalized(n, [company.name] + company.aliases);
    NeedleIsLongest(n, n.name(text), company);
    if Mentioned(n, n.name(text), company) {
      var needle := Needle(n, n.name(text), company).value;
      FilterMembers(LongEnough, all, needle);
      NormalizedMembers(n, [company.name] + company.aliases, needle);
    }
    if NamesCompany(n, text, company) {
      var name :| (name == company.name || name in company.aliases) && |n.name(name)| >= 2
        && Includes(n.name(text), n.name(name));
      assert name in [company.name] + company.aliases;
      NormalizedMembers(n, [company.name] + company.aliases, n.name(name));
      FilterMembers(LongEnough, all, n.name(name));
    }
  }

  /** A notice mentions a code exactly when a name of a company of the code occurs in its name, description and
      organization. */
  lemma CodeIsMentionedIff(n: Normalizer, catalog: seq<Company>, bid: Bid, code: string)
    ensures MentionsCode(n, catalog, bid, code) <==>
              exists i ::
                0 <= i < |catalog| && catalog[i].code == code && NamesCompany(n, SearchedText(bid), catalog[i])
  {
    SearchTextIsSearched(bid);
    MatchesAreMatchesIn(n, SearchText(bid), catalog);
    CodesAreMentioned(n, n.name(SearchText(bid)), catalog, code);
    forall i | 0 <= i < |catalog|
      ensures Mentioned(n, n.name(SearchText(bid)), catalog[i]) <==> NamesCompany(n, SearchedText(bid), catalog[i])
    {
      MentionedIffNamed(n, SearchText(bid), catalog[i]);
    }
  }

  /** For all searches: what is counted for a code are the notices that mention one of its companies, each once. */
  lemma {:induction false} NoticesAreMentions(n: Normalizer, catalog: seq<Company>, bids: seq<Bid>, code: string)
    ensures BidsFor(Hits(Mapped(n, catalog, bids)), code) == Mentioning(n, catalog, bids, code)
  {
    if bids != [] {
      var init, bid := bids[..|bids| - 1], bids[|bids| - 1];
      var before, matches := Mapped(n, catalog, init), MatchesOf(n, catalog, bid);
      NoticesAreMentions(n, catalog, init, code);
      MatchesHaveDistinctCodes(n, catalog, bid);
      HitOnce(bid, matches, code);
      if matches != [] {
        assert (before + [MappedAward(bid, matches)])[..|before|] == before;
        BidsForConcat(Hits(before), HitsOf(bid, matches), code);
      }
    }
  }

  lemma MatchesHaveDistinctCodes(n: Normalizer, catalog: seq<Company>, bid: Bid)
    ensures CodesDistinct(MatchesOf(n, catalog, bid))
  {
    CodesAreMentioned(n, n.name(SearchText(bid)), catalog, "");
  }
}
