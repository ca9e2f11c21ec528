/** The summary of past notices: the organisations that publish most, and the volume per month. */
module PastAwards {
  import opened Options
  import opened Bids
  import opened InsertionMap
  import Strings
  import opened Lists
  import opened IsoDates
  import opened StableSort
  import opened Counting

  const TOP_ORG_LIMIT: nat := 10

  // ----- organisations -----

  datatype Bucket = Bucket(
    organizationName: string, bidCount: nat, categories: seq<string>, procedureTypes: seq<string>,
        recentBid: Option<Bid>)

  type Buckets = seq<Pair<string, Bucket>>

  function NameOf(bid: Bid): string { bid.organizationName.GetOr(Strings.UNKNOWN) }

  /** `(bid.cftIssueDate ?? bid.date ?? "").slice(0, 10)`. */
  function DayText(bid: Bid): string { Take(NoticeDate(bid), 10) }

  predicate IsLater(left: Bid, right: Bid) { !StrLe(DayText(left), DayText(right)) }

  /** The bid kept as the most recent after another. */
  function MoreRecent(current: Option<Bid>, bid: Bid): Option<Bid> {
    if current.None? || IsLater(bid, current.value) then Some(bid) else current
  }

  /** `set.add(text)` for a text that is present and not empty. */
  function AddText(texts: seq<string>, text: Option<string>): seq<string> {
    if text.Some? && text.value != "" then Add(texts, text.value) else texts
  }

  function AddBid(buckets: Buckets, bid: Bid): Buckets {
    var bucket := Get(buckets, NameOf(bid)).GetOr(Bucket(NameOf(bid), 0, [], [], None));
    var recent := MoreRecent(bucket.recentBid, bid);
    Set(buckets, NameOf(bid),
        Bucket(bucket.organizationName, bucket.bidCount + 1, AddText(bucket.categories, bid.category),
               AddText(bucket.procedureTypes, bid.procedureType), recent))
  }

  function BucketsOf(bids: seq<Bid>): Buckets {
    if bids == [] then [] else AddBid(BucketsOf(bids[..|bids| - 1]), bids[|bids| - 1])
  }

  function BidCount(bucket: Bucket): nat { bucket.bidCount }

  function BidWeight(bucket: Bucket): int { bucket.bidCount }

  function OrganizationName(bucket: Bucket): string { bucket.organizationName }

  /** More notices first, then by name in locale order. */
  function MoreBids(localeLe: (string, string) -> bool): (Bucket, Bucket) -> bool {
    Descending(BidWeight, OrderedBy(OrganizationName, localeLe))
  }

  datatype Organization = Organization(
    organizationName: string, bidCount: nat, categories: seq<string>, procedureTypes: seq<string>,
    recentBidKey: Option<string>, recentBidDate: Option<string>)

  function NonEmpty(text: string): Option<string> { if text == "" then None else Some(text) }

  function EntryOf(bucket: Bucket): Organization {
    Organization(bucket.organizationName, bucket.bidCount, bucket.categories, bucket.procedureTypes,
                 if bucket.recentBid.Some? then NonEmpty(bucket.recentBid.value.key) else None,
                 if bucket.recentBid.Some? then NonEmpty(NoticeDate(bucket.recentBid.value)) else None)
  }

  function Entries(buckets: seq<Bucket>): (entries: seq<Organization>)
    ensures |entries| == |buckets| && forall i :: 0 <= i < |entries| ==> entries[i] == EntryOf(buckets[i])
  {
    if buckets == [] then [] else [EntryOf(buckets[0])] + Entries(buckets[1..])
  }

  function Ranked(localeLe: (string, string) -> bool, bids: seq<Bid>): seq<Bucket> {
    Sort(MoreBids(localeLe), Values(BucketsOf(bids)))
  }

  lemma BucketsNext(bids: seq<Bid>, i: nat, before: Bucket, bucket: Bucket)
    requires i < |bids|
    requires before == Get(BucketsOf(bids[..i]), NameOf(bids[i])).GetOr(Bucket(NameOf(bids[i]), 0, [], [], None))
    requires bucket.organizationName == before.organizationName && bucket.bidCount == before.bidCount + 1
    requires bucket.categories == AddText(before.categories, bids[i].category)
    requires bucket.procedureTypes == AddText(before.procedureTypes, bids[i].procedureType)
    requires bucket.recentBid == MoreRecent(before.recentBid, bids[i])
    ensures Set(BucketsOf(bids[..i]), NameOf(bids[i]), bucket) == BucketsOf(bids[..i + 1])
  {
    assert bids[..i + 1][..i] == bids[..i];
  }

  method AggregateOrganizations(localeLe: (string, string) -> bool, bids: seq<Bid>) returns (top: seq<Organization>)
    ensures top == Entries(Take(Ranked(localeLe, bids), 10))
  {
    var buckets: Buckets := [];
    for i := 0 to |bids|
      invariant buckets == BucketsOf(bids[..i])
    {
      var bid := bids[i];
      var bucket := Get(buckets, NameOf(bid)).GetOr(Bucket(NameOf(bid), 0, [], [], None));
      ghost var before := bucket;
      bucket := bucket.(bidCount := bucket.bidCount + 1);
      if bid.category.Some? && bid.category.value != "" {
        bucket := bucket.(categories := Add(bucket.categories, bid.category.value));
      }
      assert bucket.categories == AddText(before.categories, bid.category);
      if bid.procedureType.Some? && bid.procedureType.value != "" {
        bucket := bucket.(procedureTypes := Add(bucket.procedureTypes, bid.procedureType.value));
      }
      assert bucket.procedureTypes == AddText(before.procedureTypes, bid.procedureType);
      if bucket.recentBid.None? || IsLater(bid, bucket.recentBid.value) {
        bucket := bucket.(recentBid := Some(bid));
      }
      assert bucket.recentBid == MoreRecent(before.recentBid, bid);
      BucketsNext(bids, i, before, bucket);
      buckets := Set(buckets, NameOf(bid), bucket);
    }
    assert bids[..|bids|] == bids;
    top := Entries(Take(Sort(MoreBids(localeLe), Values(buckets)), TOP_ORG_LIMIT));
  }

  // ----- what a bucket holds -----

  function BidsOf(bids: seq<Bid>, name: string): seq<Bid> {
    if bids == [] then []
    else
      var before := BidsOf(bids[..|bids| - 1], name);
      if NameOf(bids[|bids| - 1]) == name then before + [bids[|bids| - 1]] else before
  }

  function TextsOf(text: Bid -> Option<string>, bids: seq<Bid>): seq<string> {
    if bids == [] then []
    else
      var before, last := TextsOf(text, bids[..|bids| - 1]), text(bids[|bids| - 1]);
      if last.Some? && last.value != "" then before + [last.value] else before
  }

  function CategoryOf(bid: Bid): Option<string> { bid.category }

  function ProcedureOf(bid: Bid): Option<string> { bid.procedureType }

  /** What is meant by the bucket of an organisation, given its notices. */
  function Whole(name: string, bids: seq<Bid>): Bucket {
    Bucket(name, |bids|, Dedup(TextsOf(CategoryOf, bids)), Dedup(TextsOf(ProcedureOf, bids)), Latest(DayText, bids))
  }

  lemma DedupNext(text: Bid -> Option<string>, init: seq<Bid>, bid: Bid)
    ensures Dedup(TextsOf(text, init + [bid])) == AddText(Dedup(TextsOf(text, init)), text(bid))
  {
    assert (init + [bid])[..|init|] == init;
    var before := TextsOf(text, init);
    if text(bid).Some? && text(bid).value != "" {
      assert (before + [text(bid).value])[..|before|] == before;
    }
  }

  lemma WholeNext(name: string, init: seq<Bid>, bid: Bid)
    ensures var w := Whole(name, init);
            Whole(name, init + [bid]) ==
            Bucket(name, w.bidCount + 1, AddText(w.categories, bid.category),
                AddText(w.procedureTypes, bid.procedureType),
                   MoreRecent(w.recentBid, bid))
  {
    DedupNext(CategoryOf, init, bid);
    DedupNext(ProcedureOf, init, bid);
    assert (init + [bid])[..|init|] == init;
  }

  /** For all searches: each organisation's bucket counts exactly its notices, lists their categories and procedures
      once each, and keeps the first latest. */
  lemma {:induction false} BucketIsWhole(bids: seq<Bid>, name: string)
    ensures Get(BucketsOf(bids), name) == if BidsOf(bids, name) == [] then None
        else Some(Whole(name, BidsOf(bids, name)))
  {
    if bids != [] {
      var init, bid := bids[..|bids| - 1], bids[|bids| - 1];
      BucketIsWhole(init, name);
      BucketIsWhole(init, NameOf(bid));
      GetOfAdd(BucketsOf(init), bid, name);
      if NameOf(bid) == name { WholeNext(name, BidsOf(init, name), bid); }
    }
  }

  lemma GetOfAdd(buckets: Buckets, bid: Bid, name: string)
    ensures Get(AddBid(buckets, bid), name) == if name == NameOf(bid) then Get(AddBid(buckets, bid), NameOf(bid))
        else Get(buckets, name)
    ensures var bucket := Get(buckets, NameOf(bid)).GetOr(Bucket(NameOf(bid), 0, [], [], None));
            Get(AddBid(buckets, bid), NameOf(bid)) ==
            Some(Bucket(bucket.organizationName, bucket.bidCount + 1, AddText(bucket.categories, bid.category),
                        AddText(bucket.procedureTypes, bid.procedureType),
                        MoreRecent(bucket.recentBid, bid)))
  {
    var bucket := Get(buckets, NameOf(bid)).GetOr(Bucket(NameOf(bid), 0, [], [], None));
    var updated := Bucket(bucket.organizationName, bucket.bidCount + 1, AddText(bucket.categories, bid.category),
                          AddText(bucket.procedureTypes, bid.procedureType),
                          MoreRecent(bucket.recentBid, bid));
    GetOfSet(buckets, NameOf(bid), updated, name);
    GetOfSet(buckets, NameOf(bid), updated, NameOf(bid));
  }

  /** The most recent notice of an organisation is the first of its notices with the greatest day. */
  lemma RecentIsFirstLatest(bids: seq<Bid>, name: string) returns (i: int)
    requires BidsOf(bids, name) != []
    ensures FirstLatest(DayText, BidsOf(bids, name), i)
    ensures Get(BucketsOf(bids), name).Some? &&
        Get(BucketsOf(bids), name).value.recentBid == Some(BidsOf(bids, name)[i])
  {
    BucketIsWhole(bids, name);
    i := LatestIsFirstLatest(DayText, BidsOf(bids, name));
  }

  // ----- conservation and the cut -----

  /** Before the cut, the counts of all organisations sum to the number of notices. */
  lemma {:induction false} CountsSumToBids(bids: seq<Bid>)
    ensures Distinct(BucketsOf(bids)) && Sum(BidCount, Values(BucketsOf(bids))) == |bids|
  {
    if bids != [] {
      var init, bid := bids[..|bids| - 1], bids[|bids| - 1];
      CountsSumToBids(init);
      var bucket := Get(BucketsOf(init), NameOf(bid)).GetOr(Bucket(NameOf(bid), 0, [], [], None));
      var recent := MoreRecent(bucket.recentBid, bid);
      var updated := Bucket(bucket.organizationName, bucket.bidCount + 1, AddText(bucket.categories, bid.category),
                            AddText(bucket.procedureTypes, bid.procedureType), recent);
      SetKeepsDistinct(BucketsOf(init), NameOf(bid), updated);
      SumOfSet(BidCount, BucketsOf(init), NameOf(bid), updated);
    }
  }

  /** More notices, or as many and a name that is no later in locale order. */
  predicate StandsBefore(localeLe: (string, string) -> bool, a: Bucket, b: Bucket) {
    a.bidCount > b.bidCount || (a.bidCount == b.bidCount && localeLe(a.organizationName, b.organizationName))
  }

  lemma MoreBidsMeans(localeLe: (string, string) -> bool)
    ensures forall a, b :: MoreBids(localeLe)(a, b) <==> StandsBefore(localeLe, a, b)
  {
    forall a, b
      ensures MoreBids(localeLe)(a, b) <==> StandsBefore(localeLe, a, b)
    {
      DescendingMeans(BidWeight, OrderedBy(OrganizationName, localeLe), a, b);
      OrderedByMeans(OrganizationName, localeLe, a, b);
    }
  }

  lemma RankedIsOrdered(localeLe: (string, string) -> bool, bids: seq<Bid>)
    requires TotalPreorder(localeLe)
    ensures var all := Ranked(localeLe, bids);
            forall i, j :: 0 <= i < j < |all| ==> StandsBefore(localeLe, all[i], all[j])
  {
    OrderedByIsPreorder(OrganizationName, localeLe);
    DescendingIsPreorder(BidWeight, OrderedBy(OrganizationName, localeLe));
    SortSorts(MoreBids(localeLe), Values(BucketsOf(bids)));
    MoreBidsMeans(localeLe);
  }

  /** For any total locale order: the ranking neither loses nor invents a notice, at most ten organisations are kept,
      fewer only when there are no more, in order, and none that is cut precedes one that is kept. */
  lemma KeptAreTheTop(localeLe: (string, string) -> bool, bids: seq<Bid>)
    returns (kept: seq<Bucket>, omitted: seq<Bucket>)
    requires TotalPreorder(localeLe)
    ensures kept == Take(Ranked(localeLe, bids), 10)
    ensures |kept| == 10 || (|kept| < 10 && omitted == [])
    ensures multiset(kept) + multiset(omitted) == multiset(Values(BucketsOf(bids)))
    ensures Sum(BidCount, kept + omitted) == |bids|
    ensures forall i, j :: 0 <= i < j < |kept| ==> StandsBefore(localeLe, kept[i], kept[j])
    ensures forall i, j :: 0 <= i < |kept| && 0 <= j < |omitted| ==> StandsBefore(localeLe, kept[i], omitted[j])
  {
    OrderedByIsPreorder(OrganizationName, localeLe);
    DescendingIsPreorder(BidWeight, OrderedBy(OrganizationName, localeLe));
    omitted := FirstAreBest(MoreBids(localeLe), Values(BucketsOf(bids)), TOP_ORG_LIMIT);
    kept := Take(Ranked(localeLe, bids), TOP_ORG_LIMIT);
    SumOfSort(BidCount, MoreBids(localeLe), Values(BucketsOf(bids)));
    CountsSumToBids(bids);
    RankedIsOrdered(localeLe, bids);
    MoreBidsMeans(localeLe);
  }

  // ----- what is shown of an organisation -----

  lemma {:induction false} BidsOfIsFilter(bids: seq<Bid>, name: string)
    ensures BidsOf(bids, name) == Filter((bid: Bid) => bid.organizationName.GetOr("不明") == name, bids)
  {
    if bids != [] {
      var init, last := bids[..|bids| - 1], bids[|bids| - 1];
      BidsOfIsFilter(init, name);
      FilterOfConcat((bid: Bid) => bid.organizationName.GetOr("不明") == name, init, last);
      assert bids == init + [last];
    }
  }

  lemma {:induction false} TextsMembers(text: Bid -> Option<string>, bids: seq<Bid>, x: string)
    ensures x in TextsOf(text, bids) <==> |x| > 0 && exists k :: 0 <= k < |bids| && text(bids[k]) == Some(x)
  {
    if bids != [] {
      var init, last := bids[..|bids| - 1], bids[|bids| - 1];
      TextsMembers(text, init, x);
      if k :| 0 <= k < |init| && text(init[k]) == Some(x) { assert text(bids[k]) == Some(x); }
    }
  }

  /** The list has each text that some notice has, once; the empty text does not count. */
  ghost predicate ListsTexts(list: seq<string>, text: Bid -> Option<string>, bids: seq<Bid>) {
    && NoRepeats(list)
    && forall x :: x in list <==> |x| > 0 && exists k :: 0 <= k < |bids| && text(bids[k]) == Some(x)
  }

  lemma TextsAreListed(text: Bid -> Option<string>, bids: seq<Bid>)
    ensures ListsTexts(Dedup(TextsOf(text, bids)), text, bids)
  {
    AddAllNoRepeats([], TextsOf(text, bids));
    forall x
      ensures x in Dedup(TextsOf(text, bids)) <==> |x| > 0 && exists k :: 0 <= k < |bids| && text(bids[k]) == Some(x)
    {
      AddAllMembers([], TextsOf(text, bids), x);
      TextsMembers(text, bids, x);
    }
  }

  /** What is shown of the most recent notice: its key and its date, where they are not empty. */
  predicate ShowsRecent(org: Organization, bid: Bid) {
    var date := if bid.cftIssueDate.Some? then bid.cftIssueDate.value else bid.date.GetOr("");
    && org.recentBidKey == (if |bid.key| > 0 then Some(bid.key) else None)
    && org.recentBidDate == if |date| > 0 then Some(date) else None
  }

  /** What is shown of an organisation is true of its notices. */
  ghost predicate IsTrueOf(org: Organization, mine: seq<Bid>) {
    && org.bidCount == |mine| > 0
    && ListsTexts(org.categories, CategoryOf, mine) && ListsTexts(org.procedureTypes, ProcedureOf, mine)
    && exists i :: FirstLatest(DayText, mine, i) && ShowsRecent(org, mine[i])
  }

  lemma EntryIsTrue(bids: seq<Bid>, name: string)
    requires BidsOf(bids, name) != []
    ensures Get(BucketsOf(bids), name).Some?
    ensures var entry := EntryOf(Get(BucketsOf(bids), name).value);
            entry.organizationName == name && IsTrueOf(entry, BidsOf(bids, name))
  {
    BucketIsWhole(bids, name);
    var i := RecentIsFirstLatest(bids, name);
    TextsAreListed(CategoryOf, BidsOf(bids, name));
    TextsAreListed(ProcedureOf, BidsOf(bids, name));
    assert ShowsRecent(EntryOf(Get(BucketsOf(bids), name).value), BidsOf(bids, name)[i]);
  }

  lemma {:induction false} ValueHasKey<K, V>(m: seq<Pair<K, V>>, value: V) returns (key: K)
    requires Distinct(m) && value in Values(m)
    ensures Get(m, key) == Some(value)
  {
    if m[0].value == value {
      key := m[0].key;
    } else {
      key := ValueHasKey(m[1..], value);
    }
  }

  /** Every organisation listed is shown with the number of its notices, their categories and procedures, and the key
      and date of the first latest. */
  lemma ListedIsTrue(localeLe: (string, string) -> bool, bids: seq<Bid>, i: nat)
    requires i < |Entries(Take(Ranked(localeLe, bids), 10))|
    ensures var org := Entries(Take(Ranked(localeLe, bids), 10))[i];
            IsTrueOf(org, Filter((bid: Bid) => bid.organizationName.GetOr("不明") == org.organizationName, bids))
  {
    var all := Values(BucketsOf(bids));
    var bucket := Take(Ranked(localeLe, bids), 10)[i];
    assert bucket in Ranked(localeLe, bids);
    SortMembers(MoreBids(localeLe), all, bucket);
    CountsSumToBids(bids);
    var name := ValueHasKey(BucketsOf(bids), bucket);
    BucketIsWhole(bids, name);
    EntryIsTrue(bids, name);
    BidsOfIsFilter(bids, name);
  }

  /** A notice's day is the first ten characters of its issue date, else of its date. */
  lemma DayIsOfNotice(bid: Bid)
    ensures var date := if bid.cftIssueDate.Some? then bid.cftIssueDate.value else bid.date.GetOr("");
            DayText(bid) <= date && |DayText(bid)| == if |date| < 10 then |date| else 10
  {}

  // ----- months -----

  /** `/^\d{4}-\d{2}$/`. */
  predicate IsMonth(s: string) { |s| == 7 && AllDigits(s[..4]) && s[4] == '-' && AllDigits(s[5..]) }

  function MonthText(bid: Bid): string { Take(NoticeDate(bid), 7) }

  function MonthsIn(bids: seq<Bid>): seq<string> {
    if bids == [] then []
    else
      var before, month := MonthsIn(bids[..|bids| - 1]), MonthText(bids[|bids| - 1]);
      if IsMonth(month) then before + [month] else before
  }

  /** A month is four digits, a hyphen and two digits. */
  lemma MonthIff(s: string)
    ensures IsMonth(s) <==> exists y, m :: |y| == 4 && |m| == 2 && AllDigits(y) && AllDigits(m) && s == y + "-" + m
  {
    if IsMonth(s) { assert s == s[..4] + "-" + s[5..]; }
    if y, m :| |y| == 4 && |m| == 2 && AllDigits(y) && AllDigits(m) && s == y + "-" + m {
      assert s[..4] == y && s[5..] == m;
    }
  }

  /** A notice's month is the first seven characters of its issue date, else of its date. */
  lemma MonthIsOfNotice(bid: Bid)
    ensures var date := if bid.cftIssueDate.Some? then bid.cftIssueDate.value else bid.date.GetOr("");
            MonthText(bid) <= date && |MonthText(bid)| == if |date| < 7 then |date| else 7
  {}

  predicate MonthLe(left: Pair<string, nat>, right: Pair<string, nat>) { StrLe(left.key, right.key) }

  function MonthlyVolume(bids: seq<Bid>): seq<Pair<string, nat>> { Sort(MonthLe, Counts(MonthsIn(bids))) }

  method CountByMonth(bids: seq<Bid>) returns (volume: seq<Pair<string, nat>>)
    ensures volume == MonthlyVolume(bids)
  {
    var buckets: seq<Pair<string, nat>> := [];
    for i := 0 to |bids|
      invariant buckets == Counts(MonthsIn(bids[..i]))
    {
      assert bids[..i + 1][..i] == bids[..i];
      var date := MonthText(bids[i]);
      if !IsMonth(date) { continue; }
      ghost var before := MonthsIn(bids[..i]);
      buckets := Set(buckets, date, Get(buckets, date).GetOr(0) + 1);
      assert (before + [date])[..|before|] == before;
    }
    assert bids[..|bids|] == bids;
    volume := Sort(MonthLe, buckets);
  }

  function Volume(month: Pair<string, nat>): nat { month.value }

  lemma {:induction false} TotalIsSum(counts: seq<Pair<string, nat>>)
    ensures Sum(Volume, counts) == Total(counts)
  {
    if counts != [] { TotalIsSum(counts[1..]); }
  }

  lemma {:induction false} DatedOrNot(bids: seq<Bid>)
    ensures |MonthsIn(bids)| == |Filter((bid: Bid) => IsMonth(MonthText(bid)), bids)|
  {
    if bids != [] {
      var p := (bid: Bid) => IsMonth(MonthText(bid));
      var init, last := bids[..|bids| - 1], bids[|bids| - 1];
      DatedOrNot(init);
      FilterOfConcat(p, init, last);
      assert bids == init + [last];
    }
  }

  /** The monthly counts sum to the number of notices with a readable month. */
  lemma MonthsSumToDatedBids(bids: seq<Bid>)
    ensures Sum(Volume, MonthlyVolume(bids)) == |Filter((bid: Bid) => IsMonth(MonthText(bid)), bids)|
  {
    SumOfSort(Volume, MonthLe, Counts(MonthsIn(bids)));
    TotalIsSum(Counts(MonthsIn(bids)));
    CountsAreOccurrences(MonthsIn(bids), "");
    DatedOrNot(bids);
  }

  lemma MonthOrder()
    ensures TotalPreorder(MonthLe)
  {
    forall a: Pair<string, nat>, b: Pair<string, nat>
      ensures MonthLe(a, b) || MonthLe(b, a)
    {
      StrLeIsTotal(a.key, b.key);
    }
    forall a: Pair<string, nat>, b: Pair<string, nat>, c: Pair<string, nat> | MonthLe(a, b) && MonthLe(b, c)
      ensures MonthLe(a, c)
    {
      StrLeIsTransitive(a.key, b.key, c.key);
    }
  }

  lemma {:induction false} DistinctOnce<K, V>(m: seq<Pair<K, V>>, p: Pair<K, V>)
    requires Distinct(m)
    ensures multiset(m)[p] <= 1
    ensures p in m ==> Get(m, p.key) == Some(p.value)
  {
    if m != [] {
      DistinctOnce(m[1..], p);
      assert m == [m[0]] + m[1..];
    }
  }

  /** Every month is listed with the number of notices of the month. */
  lemma MonthIsCounted(bids: seq<Bid>, i: nat)
    requires i < |MonthlyVolume(bids)|
    ensures var month := MonthlyVolume(bids)[i]; month.value == Occurrences(MonthsIn(bids), month.key)
  {
    var volume, counts := MonthlyVolume(bids), Counts(MonthsIn(bids));
    SortKeeps(MonthLe, counts);
    CountsAreDistinct(MonthsIn(bids));
    assert volume[i] in multiset(volume);
    DistinctOnce(counts, volume[i]);
    CountsAreOccurrences(MonthsIn(bids), volume[i].key);
  }

  /** The months are listed in order, each once, with the number of notices of the month. */
  lemma MonthsAscend(bids: seq<Bid>, i: nat, j: nat)
    requires i < j < |MonthlyVolume(bids)|
    ensures var volume := MonthlyVolume(bids);
            && StrLe(volume[i].key, volume[j].key) && volume[i].key != volume[j].key
            && volume[i].value == Occurrences(MonthsIn(bids), volume[i].key)
            && volume[j].value == Occurrences(MonthsIn(bids), volume[j].key)
  {
    var volume, counts := MonthlyVolume(bids), Counts(MonthsIn(bids));
    MonthOrder();
    SortSorts(MonthLe, counts);
    SortKeeps(MonthLe, counts);
    CountsAreDistinct(MonthsIn(bids));
    MonthIsCounted(bids, i);
    MonthIsCounted(bids, j);
    assert MonthLe(volume[i], volume[j]);
    assert volume[i] in multiset(volume) && volume[j] in multiset(volume);
    DistinctOnce(counts, volume[i]);
    DistinctOnce(counts, volume[j]);
    if volume[i] == volume[j] { TwiceCounts(volume, i, j); }
  }

  lemma TwiceCounts<T>(s: seq<T>, i: nat, j: nat)
    requires i < j < |s| && s[i] == s[j]
    ensures multiset(s)[s[i]] >= 2
  {
    assert s == s[..j] + s[j..];
    assert s[i] == s[..j][i] && s[j] == s[j..][0];
    assert s[i] in multiset(s[..j]) && s[i] in multiset(s[j..]);
  }
}
