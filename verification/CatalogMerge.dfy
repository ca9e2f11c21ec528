/** Merging the bundled catalogue with a fetched one: one entry per code, and which names survive. */
module CatalogMerge {
  import opened Options
  import opened InsertionMap
  import opened Lists
  import Strings
  import opened ListedCompany

  /** The entry stored when a company meets one of its code. */
  function Combine(existing: Company, company: Company): Company {
    Company(company.code,
            if |existing.name| >= |company.name| then existing.name else company.name,
            if existing.sector == Strings.UNKNOWN then company.sector else existing.sector,
            Without(Dedup(existing.aliases + company.aliases + [company.name, existing.name]), [existing.name]))
  }

  type Catalog = seq<Pair<string, Company>>

  function AddCompany(byCode: Catalog, company: Company): Catalog {
    var existing := Get(byCode, company.code);
    Set(byCode, company.code, if existing.None? then company else Combine(existing.value, company))
  }

  function MergeAll(companies: seq<Company>): Catalog {
    if companies == [] then [] else AddCompany(MergeAll(companies[..|companies| - 1]), companies[|companies| - 1])
  }

  method MergeCatalog(bundled: seq<Company>, remote: seq<Company>) returns (merged: seq<Company>)
    ensures merged == Values(MergeAll(bundled + remote))
  {
    var byCode: Catalog := [];
    var companies := bundled + remote;
    for i := 0 to |companies|
      invariant byCode == MergeAll(companies[..i])
    {
      var company := companies[i];
      var existing := Get(byCode, company.code);
      if existing.None? {
        byCode := Set(byCode, company.code, company);
      } else {
        byCode := Set(byCode, company.code, Combine(existing.value, company));
      }
      assert companies[..i + 1][..i] == companies[..i];
    }
    assert companies[..|companies|] == companies;
    merged := Values(byCode);
  }

  // ----- one entry per code -----

  function OfCode(companies: seq<Company>, code: string): seq<Company> {
    if companies == [] then []
    else
      var before := OfCode(companies[..|companies| - 1], code);
      if companies[|companies| - 1].code == code then before + [companies[|companies| - 1]] else before
  }

  function Fold(companies: seq<Company>): Company
    requires companies != []
  {
    if |companies| == 1 then companies[0]
    else Combine(Fold(companies[..|companies| - 1]), companies[|companies| - 1])
  }

  function CodesOf(companies: seq<Company>): seq<string> {
    if companies == [] then [] else CodesOf(companies[..|companies| - 1]) + [companies[|companies| - 1].code]
  }

  /** For all catalogues: the entry of a code is the combination of all companies of the code, in order. */
  lemma {:induction false} EntryIsFold(companies: seq<Company>, code: string)
    ensures Get(MergeAll(companies), code) ==
            if OfCode(companies, code) == [] then None else Some(Fold(OfCode(companies, code)))
  {
    if companies != [] {
      var init, last := companies[..|companies| - 1], companies[|companies| - 1];
      EntryIsFold(init, code);
      EntryIsFold(init, last.code);
      var existing := Get(MergeAll(init), last.code);
      GetOfSet(MergeAll(init), last.code, if existing.None? then last else Combine(existing.value, last), code);
      assert (OfCode(init, code) + [last])[..|OfCode(init, code)|] == OfCode(init, code);
    }
  }

  /** The codes of the result are the codes given, each once, in the order of their first appearance. */
  lemma {:induction false} OneEntryPerCode(companies: seq<Company>)
    ensures Distinct(MergeAll(companies)) && Keys(MergeAll(companies)) == Dedup(CodesOf(companies))
  {
    if companies != [] {
      var init, last := companies[..|companies| - 1], companies[|companies| - 1];
      OneEntryPerCode(init);
      var m := MergeAll(init);
      var existing := Get(m, last.code);
      var entry := if existing.None? then last else Combine(existing.value, last);
      SetKeepsDistinct(m, last.code, entry);
      KeysOfSet(m, last.code, entry);
      HasIsKey(m, last.code);
      assert CodesOf(companies)[..|CodesOf(init)|] == CodesOf(init);
    }
  }

  lemma {:induction false} HasIsKey<K, V>(m: seq<Pair<K, V>>, k: K)
    ensures Has(m, k) <==> k in Keys(m)
  {
    if m != [] { HasIsKey(m[1..], k); }
  }

  // ----- the other fields -----

  /** The first sector that is known, and unknown when none is. */
  ghost predicate IsFirstKnown(companies: seq<Company>, sector: string) {
    if forall i :: 0 <= i < |companies| ==> companies[i].sector == "不明" then sector == "不明"
    else exists i :: FirstKnownAt(companies, i) && companies[i].sector == sector
  }

  ghost predicate FirstKnownAt(companies: seq<Company>, i: int) {
    0 <= i < |companies| && companies[i].sector != "不明" && forall h :: 0 <= h < i ==> companies[h].sector == "不明"
  }

  lemma WithoutDiffers<T>(s: seq<T>, seen: seq<T>)
    requires NoRepeats(s)
    ensures NoRepeats(Without(s, seen))
  {
    if s != [] {
      WithoutDiffers(s[1..], seen);
      var rest := Without(s[1..], seen);
      forall i | 0 <= i < |rest|
        ensures rest[i] != s[0]
      {
        WithoutMembers(s[1..], seen, rest[i]);
      }
    }
  }

  /** For companies of one code: the combination has this code and the first sector known, and, once there are two, no
      alias twice. */
  lemma {:induction false} FoldKeepsFields(companies: seq<Company>, code: string)
    requires companies != [] && forall i :: 0 <= i < |companies| ==> companies[i].code == code
    ensures Fold(companies).code == code && IsFirstKnown(companies, Fold(companies).sector)
    ensures |companies| > 1 ==> NoRepeats(Fold(companies).aliases)
  {
    if |companies| > 1 {
      var init, last := companies[..|companies| - 1], companies[|companies| - 1];
      FoldKeepsFields(init, code);
      FirstKnownNext(init, last, Fold(init).sector);
      assert companies == init + [last];
      var all := Fold(init).aliases + last.aliases + [last.name, Fold(init).name];
      AddAllNoRepeats([], all);
      WithoutDiffers(Dedup(all), [Fold(init).name]);
    } else if companies[0].sector != "不明" {
      assert FirstKnownAt(companies, 0);
    }
  }

  lemma FirstKnownNext(init: seq<Company>, last: Company, sector: string)
    requires IsFirstKnown(init, sector)
    ensures IsFirstKnown(init + [last], if sector == "不明" then last.sector else sector)
  {
    var all := init + [last];
    if forall i :: 0 <= i < |init| ==> init[i].sector == "不明" {
      if last.sector != "不明" { assert FirstKnownAt(all, |init|); }
      assert all[|init|] == last;
    } else {
      var i :| FirstKnownAt(init, i) && init[i].sector == sector;
      assert FirstKnownAt(all, i) && all[i] == init[i];
    }
  }

  lemma {:induction false} OfCodeHasCode(companies: seq<Company>, code: string)
    ensures forall i :: 0 <= i < |OfCode(companies, code)| ==> OfCode(companies, code)[i].code == code
  {
    if companies != [] { OfCodeHasCode(companies[..|companies| - 1], code); }
  }

  /** For all catalogues: the merged entry of a code has it, with the first sector known among its companies. */
  lemma MergedHasSector(bundled: seq<Company>, remote: seq<Company>, code: string)
    requires OfCode(bundled + remote, code) != []
    ensures var entry := Get(MergeAll(bundled + remote), code);
            && entry.Some? && entry.value.code == code
            && IsFirstKnown(OfCode(bundled + remote, code), entry.value.sector)
            && (|OfCode(bundled + remote, code)| > 1 ==> NoRepeats(entry.value.aliases))
  {
    EntryIsFold(bundled + remote, code);
    OfCodeHasCode(bundled + remote, code);
    FoldKeepsFields(OfCode(bundled + remote, code), code);
  }

  // ----- which names survive -----

  predicate Carries(company: Company, text: string) { text == company.name || text in company.aliases }

  /** One combination loses exactly the existing name, and only when the new one is longer. */
  lemma CombineCarries(existing: Company, company: Company, text: string)
    ensures Carries(Combine(existing, company), text) <==>
            (Carries(existing, text) || Carries(company, text)) &&
                !(|company.name| > |existing.name| && text == existing.name)
  {
    var all := existing.aliases + company.aliases + [company.name, existing.name];
    AddAllMembers([], all, text);
    WithoutMembers(Dedup(all), [existing.name], text);
  }

  /** Position i has the first longest name. */
  ghost predicate FirstLongest(companies: seq<Company>, i: int) {
    && 0 <= i < |companies|
    && (forall h :: 0 <= h < i ==> |companies[h].name| < |companies[i].name|)
    && (forall h :: i < h < |companies| ==> |companies[h].name| <= |companies[i].name|)
  }

  ghost predicate TopName(companies: seq<Company>, text: string) {
    exists i :: FirstLongest(companies, i) && companies[i].name == text
  }

  /** The text is the first longest name before j, the name at j is longer, and no later company carries the text. */
  ghost predicate DroppedAt(companies: seq<Company>, text: string, j: int) {
    && 0 < j < |companies| && TopName(companies[..j], text) && |companies[j].name| > |text|
    && forall k :: j < k < |companies| ==> !Carries(companies[k], text)
  }

  ghost predicate Lost(companies: seq<Company>, text: string) { exists j :: DroppedAt(companies, text, j) }

  ghost predicate Given(companies: seq<Company>, text: string) {
    exists i :: 0 <= i < |companies| && Carries(companies[i], text)
  }

  lemma {:induction false} FoldTakesLongest(companies: seq<Company>) returns (i: int)
    requires companies != []
    ensures FirstLongest(companies, i) && Fold(companies).name == companies[i].name
  {
    if |companies| == 1 {
      i := 0;
    } else {
      var init := companies[..|companies| - 1];
      i := FoldTakesLongest(init);
      if |companies[|companies| - 1].name| > |companies[i].name| { i := |companies| - 1; }
    }
  }

  lemma TopIsFoldName(companies: seq<Company>, text: string)
    requires companies != []
    ensures TopName(companies, text) <==> text == Fold(companies).name
  {
    var top := FoldTakesLongest(companies);
  }

  lemma LostEarlier(init: seq<Company>, last: Company, text: string, j: int)
    requires 0 < j < |init|
    ensures DroppedAt(init + [last], text, j) <==> DroppedAt(init, text, j) && !Carries(last, text)
  {
    var all := init + [last];
    assert all[..j] == init[..j];
    assert forall k :: j < k < |init| ==> all[k] == init[k];
    if DroppedAt(all, text, j) { assert !Carries(all[|init|], text); }
  }

  lemma LostStep(init: seq<Company>, last: Company, text: string)
    requires init != []
    ensures Lost(init + [last], text) <==>
            (Lost(init, text) && !Carries(last, text)) || (text == Fold(init).name && |last.name| > |text|)
  {
    forall j | 0 < j < |init|
      ensures DroppedAt(init + [last], text, j) <==> DroppedAt(init, text, j) && !Carries(last, text)
    {
      LostEarlier(init, last, text, j);
    }
    LostByLast(init, last, text);
  }

  lemma LostByLast(init: seq<Company>, last: Company, text: string)
    requires init != []
    ensures DroppedAt(init + [last], text, |init|) <==> text == Fold(init).name && |last.name| > |text|
  {
    TopIsFoldName(init, text);
    assert (init + [last])[..|init|] == init;
  }

  /** A dropped text is shorter than the name that stays. */
  lemma LostIsShorter(companies: seq<Company>, text: string)
    requires companies != [] && Lost(companies, text)
    ensures text != Fold(companies).name
  {
    var j :| DroppedAt(companies, text, j);
    var top := FoldTakesLongest(companies);
    assert |companies[j].name| <= |companies[top].name|;
  }

  lemma GivenStep(init: seq<Company>, last: Company, text: string)
    ensures Given(init + [last], text) <==> Given(init, text) || Carries(last, text)
  {
    var all := init + [last];
    if i :| 0 <= i < |init| && Carries(init[i], text) { assert all[i] == init[i]; }
    if Carries(last, text) { assert all[|init|] == last; }
  }

  /** For any companies of one code: the combination carries a text exactly when one of them does and it is not lost. */
  lemma {:induction false} SurvivesIff(companies: seq<Company>, text: string)
    requires companies != []
    ensures Carries(Fold(companies), text) <==> Given(companies, text) && !Lost(companies, text)
  {
    if |companies| == 1 {
      assert Given(companies, text) <==> Carries(companies[0], text);
    } else {
      var init, last := companies[..|companies| - 1], companies[|companies| - 1];
      assert companies == init + [last];
      SurvivesIff(init, text);
      CombineCarries(Fold(init), last, text);
      LostStep(init, last, text);
      GivenStep(init, last, text);
      if Lost(init, text) { LostIsShorter(init, text); }
    }
  }

  /** For all catalogues: what the merged entry of a code carries. */
  lemma MergedCarriesIff(bundled: seq<Company>, remote: seq<Company>, code: string, text: string)
    requires OfCode(bundled + remote, code) != []
    ensures var same := OfCode(bundled + remote, code); var entry := Get(MergeAll(bundled + remote), code);
            entry.Some? && (Carries(entry.value, text) <==> Given(same, text) && !Lost(same, text))
  {
    EntryIsFold(bundled + remote, code);
    SurvivesIff(OfCode(bundled + remote, code), text);
  }

  /** The merge loses nothing exactly when no name of any code is dropped: a shorter first longest name meets a
      longer one, and nothing after carries it. */
  lemma MergeLosesNothingIff(bundled: seq<Company>, remote: seq<Company>)
    ensures (forall code, text :: Given(OfCode(bundled + remote, code), text) ==>
        InMerge(bundled + remote, code, text)) <==>
            (forall code, text :: !Lost(OfCode(bundled + remote, code), text))
  {
    forall code, text
      ensures Given(OfCode(bundled + remote, code), text) && !InMerge(bundled + remote, code, text) <==>
              Lost(OfCode(bundled + remote, code), text)
    {
      if OfCode(bundled + remote, code) != [] {
        MergedCarriesIff(bundled, remote, code, text);
        if Lost(OfCode(bundled + remote, code), text) { LostIsGiven(OfCode(bundled + remote, code), text); }
      }
    }
  }

  predicate InMerge(companies: seq<Company>, code: string, text: string) {
    var entry := Get(MergeAll(companies), code);
    entry.Some? && Carries(entry.value, text)
  }

  lemma LostIsGiven(companies: seq<Company>, text: string)
    requires Lost(companies, text)
    ensures Given(companies, text)
  {
    var j :| DroppedAt(companies, text, j);
    var i :| FirstLongest(companies[..j], i) && companies[..j][i].name == text;
    assert Carries(companies[i], text);
  }

  /** A bundled and a fetched company of one code: nothing is lost exactly when the fetched name is not longer. */
  lemma PairLosesNothingIff(bundled: Company, remote: Company)
    ensures (forall text :: Carries(bundled, text) || Carries(remote, text) ==>
        Carries(Combine(bundled, remote), text)) <==>
            |remote.name| <= |bundled.name|
  {
    forall text
      ensures Carries(Combine(bundled, remote), text) <==>
              (Carries(bundled, text) || Carries(remote, text)) &&
                  !(|remote.name| > |bundled.name| && text == bundled.name)
    {
      CombineCarries(bundled, remote, text);
    }
    assert Carries(bundled, bundled.name);
  }

  /** A longer fetched name drops the bundled one from the merged catalogue. */
  lemma LongerNameDropsTheBundled(aliases: seq<string>)
    ensures var bundled, remote := Company("1812", "鹿島", "建設", aliases), Company("1812", "鹿島建設", "建設", []);
            && Given(OfCode([bundled] + [remote], "1812"), "鹿島")
            && !InMerge([bundled] + [remote], "1812", "鹿島")
  {
    var bundled, remote := Company("1812", "鹿島", "建設", aliases), Company("1812", "鹿島建設", "建設", []);
    LongerNameDrops(bundled, remote);
  }

  lemma LongerNameDrops(bundled: Company, remote: Company)
    requires bundled.code == remote.code && |remote.name| > |bundled.name|
    ensures Given(OfCode([bundled] + [remote], bundled.code), bundled.name)
    ensures !InMerge([bundled] + [remote], bundled.code, bundled.name)
  {
    var both := [bundled, remote];
    assert [bundled] + [remote] == both;
    assert both[..1] == [bundled] && [bundled][..0] == [];
    assert OfCode([bundled], bundled.code) == [bundled];
    assert OfCode(both, bundled.code) == both;
    assert Carries(both[0], bundled.name);
    EntryIsFold(both, bundled.code);
    CombineCarries(bundled, remote, bundled.name);
  }
}
