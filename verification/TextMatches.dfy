/** The companies a text mentions: `matchListedCompaniesInText`. */
module TextMatches {
  import opened Options
  import opened Strings
  import opened StableSort
  import opened ListedCompany

  predicate LongEnough(name: string) { |name| >= 2 }

  predicate LongerFirst(left: string, right: string) { |left| >= |right| }

  function Normalized(n: Normalizer, names: seq<string>): seq<string> {
    if names == [] then [] else [n.name(names[0])] + Normalized(n, names[1..])
  }

  /** The normalised names and aliases of at least two characters. */
  function NamesOf(n: Normalizer, company: Company): seq<string> {
    Filter(LongEnough, Normalized(n, [company.name] + company.aliases))
  }

  function FirstIncluded(haystack: string, names: seq<string>): Option<string> {
    if names == [] then None
    else if Includes(haystack, names[0]) then Some(names[0])
    else FirstIncluded(haystack, names[1..])
  }

  /** The name a company is recognised by, if the text mentions it. */
  function Needle(n: Normalizer, haystack: string, company: Company): Option<string> {
    FirstIncluded(haystack, Sort(LongerFirst, NamesOf(n, company)))
  }

  function MatchOf(n: Normalizer, company: Company, needle: string): Match {
    Match(company, if needle == n.name(company.name) then Contains else Alias, needle)
  }

  function Codes(matches: seq<Match>): set<string> { set m | m in matches :: m.company.code }

  function MatchesIn(n: Normalizer, haystack: string, companies: seq<Company>): seq<Match> {
    if companies == [] then []
    else
      var before, company := MatchesIn(n, haystack, companies[..|companies| - 1]), companies[|companies| - 1];
      var needle := Needle(n, haystack, company);
      if needle.None? || company.code in Codes(before) then before
      else before + [MatchOf(n, company, needle.value)]
  }

  function Matches(n: Normalizer, text: string, companies: seq<Company>): seq<Match> {
    if |n.name(text)| < 2 then [] else MatchesIn(n, n.name(text), companies)
  }

  method MatchListedCompaniesInText(n: Normalizer, text: string, companies: seq<Company>) returns (matches: seq<Match>)
    ensures matches == Matches(n, text, companies)
  {
    var haystack := n.name(text);
    if |haystack| < 2 { return []; }
    matches := [];
    var seen: set<string> := {};
    for i := 0 to |companies|
      invariant matches == MatchesIn(n, haystack, companies[..i]) && seen == Codes(matches)
    {
      var company := companies[i];
      var names := Sort(LongerFirst, NamesOf(n, company));
      assert companies[..i + 1][..i] == companies[..i];
      ghost var before := matches;
      var j := 0;
      var done := false;
      while !done && j < |names|
        invariant 0 <= j <= |names|
        invariant !done ==> matches == before && seen == Codes(before)
        invariant !done ==> FirstIncluded(haystack, names[j..]) == FirstIncluded(haystack, names)
        invariant done ==> seen == Codes(matches) && matches == MatchesIn(n, haystack, companies[..i + 1])
      {
        var needle := names[j];
        if Includes(haystack, needle) {
          done := true;
          if company.code !in seen {
            seen := seen + {company.code};
            matches := matches + [MatchOf(n, company, needle)];
          }
        }
        j := j + 1;
      }
    }
    assert companies[..|companies|] == companies;
  }

  // ----- the name a company is recognised by -----

  /** A mentioned name of the company such that no mentioned one is longer. */
  ghost predicate IsLongest(n: Normalizer, haystack: string, company: Company, needle: string) {
    && needle in NamesOf(n, company) && Includes(haystack, needle)
    && forall other :: other in NamesOf(n, company) && Includes(haystack, other) ==> |other| <= |needle|
  }

  predicate Mentioned(n: Normalizer, haystack: string, company: Company) { Needle(n, haystack, company).Some? }

  lemma {:induction false} FirstIncludedIsLongest(haystack: string, names: seq<string>)
    requires SortedBy(LongerFirst, names)
    ensures var r := FirstIncluded(haystack, names);
            && (r.Some? ==> r.value in names && Includes(haystack, r.value))
            && forall other :: other in names && Includes(haystack, other) ==> r.Some? && |other| <= |r.value|
  {
    if names != [] {
      FirstIncludedIsLongest(haystack, names[1..]);
      forall other | other in names && Includes(haystack, other)
        ensures FirstIncluded(haystack, names).Some? && |other| <= |FirstIncluded(haystack, names).value|
      {
        var k :| 0 <= k < |names| && names[k] == other;
        assert k > 0 ==> LongerFirst(names[0], names[k]) && names[k] in names[1..];
      }
    }
  }

  /** For every company: a name is chosen exactly when one of at least two characters occurs, and it is a longest. */
  lemma NeedleIsLongest(n: Normalizer, haystack: string, company: Company)
    ensures var needle := Needle(n, haystack, company);
            if needle.Some? then IsLongest(n, haystack, company, needle.value)
            else forall name :: name in NamesOf(n, company) ==> !Includes(haystack, name)
  {
    var names := NamesOf(n, company);
    SortSorts(LongerFirst, names);
    FirstIncludedIsLongest(haystack, Sort(LongerFirst, names));
    forall name
      ensures name in Sort(LongerFirst, names) <==> name in names
    {
      SortMembers(LongerFirst, names, name);
    }
  }

  /** Among mentioned names of the chosen length the first given is chosen. */
  lemma NeedleIsFirstGiven(n: Normalizer, haystack: string, company: Company)
    requires Needle(n, haystack, company).Some?
    ensures var needle := Needle(n, haystack, company).value;
            var rivals := Filter((name: string) => |name| == |needle| && Includes(haystack, name), NamesOf(n, company));
            rivals != [] && rivals[0] == needle
  {
    var needle := Needle(n, haystack, company).value;
    var p := (name: string) => |name| == |needle| && Includes(haystack, name);
    SortIsStable(LongerFirst, NamesOf(n, company), p);
    FilterStartsWithFirst(haystack, Sort(LongerFirst, NamesOf(n, company)), needle, p);
  }

  lemma {:induction false} FilterStartsWithFirst(haystack: string, names: seq<string>, needle: string,
          p: string -> bool)
    requires FirstIncluded(haystack, names) == Some(needle)
    requires forall name :: p(name) <==> |name| == |needle| && Includes(haystack, name)
    ensures Filter(p, names) != [] && Filter(p, names)[0] == needle
  {
    if !Includes(haystack, names[0]) {
      FilterStartsWithFirst(haystack, names[1..], needle, p);
    }
  }

  // ----- all matches -----

  /** The first company of its code that the text mentions, under a longest name. */
  ghost predicate IsMatch(n: Normalizer, haystack: string, companies: seq<Company>, m: Match) {
    exists i :: 0 <= i < |companies| && FirstMentionAt(n, haystack, companies, i) &&
        MatchesAt(n, haystack, companies[i], m)
  }

  ghost predicate FirstMentionAt(n: Normalizer, haystack: string, companies: seq<Company>, i: nat) {
    && i < |companies| && Mentioned(n, haystack, companies[i])
    && forall j :: 0 <= j < i && companies[j].code == companies[i].code ==> !Mentioned(n, haystack, companies[j])
  }

  ghost predicate MatchesAt(n: Normalizer, haystack: string, company: Company, m: Match) {
    && m.company == company && IsLongest(n, haystack, company, m.matchedText)
    && m.confidence == if m.matchedText == n.name(company.name) then Contains else Alias
  }

  ghost predicate CodesDistinct(matches: seq<Match>) {
    forall i, j :: 0 <= i < j < |matches| ==> matches[i].company.code != matches[j].company.code
  }

  /** The codes found are those of the companies mentioned, each once. */
  lemma {:induction false} CodesAreMentioned(n: Normalizer, haystack: string, companies: seq<Company>, code: string)
    ensures CodesDistinct(MatchesIn(n, haystack, companies))
    ensures code in Codes(MatchesIn(n, haystack, companies)) <==>
            exists i :: 0 <= i < |companies| && Mentioned(n, haystack, companies[i]) && companies[i].code == code
  {
    if companies != [] {
      var init, last := companies[..|companies| - 1], companies[|companies| - 1];
      CodesAreMentioned(n, haystack, init, code);
      CodesAreMentioned(n, haystack, init, last.code);
      var before := MatchesIn(n, haystack, init);
      forall i | 0 <= i < |before| && last.code !in Codes(before)
        ensures before[i].company.code != last.code
      {
        assert before[i] in before;
      }
    }
  }

  lemma NewMatchIsMention(n: Normalizer, haystack: string, init: seq<Company>, last: Company, needle: string)
    requires Needle(n, haystack, last) == Some(needle) && last.code !in Codes(MatchesIn(n, haystack, init))
    ensures IsMatch(n, haystack, init + [last], MatchOf(n, last, needle))
  {
    var companies := init + [last];
    CodesAreMentioned(n, haystack, init, last.code);
    NeedleIsLongest(n, haystack, last);
    assert FirstMentionAt(n, haystack, companies, |init|) by {
      forall j | 0 <= j < |init| && companies[j].code == last.code
        ensures !Mentioned(n, haystack, companies[j])
      {
        assert companies[j] == init[j];
      }
    }
    assert MatchesAt(n, haystack, companies[|init|], MatchOf(n, last, needle));
  }

  lemma OldMatchIsMention(n: Normalizer, haystack: string, init: seq<Company>, last: Company, m: Match)
    requires IsMatch(n, haystack, init, m)
    ensures IsMatch(n, haystack, init + [last], m)
  {
    var i :| 0 <= i < |init| && FirstMentionAt(n, haystack, init, i) && MatchesAt(n, haystack, init[i], m);
    assert (init + [last])[i] == init[i];
    assert FirstMentionAt(n, haystack, init + [last], i);
  }

  /** Every match is of the first company of its code that the text mentions. */
  lemma {:induction false} MatchesAreMentions(n: Normalizer, haystack: string, companies: seq<Company>, m: Match)
    requires m in MatchesIn(n, haystack, companies)
    ensures IsMatch(n, haystack, companies, m)
  {
    var init, last := companies[..|companies| - 1], companies[|companies| - 1];
    assert init + [last] == companies;
    if m in MatchesIn(n, haystack, init) {
      MatchesAreMentions(n, haystack, init, m);
      OldMatchIsMention(n, haystack, init, last, m);
    } else {
      NewMatchIsMention(n, haystack, init, last, m.matchedText);
    }
  }

  /** The early return for short texts changes nothing: the loops would find nothing either. */
  lemma {:induction false} MatchesAreMatchesIn(n: Normalizer, text: string, companies: seq<Company>)
    ensures Matches(n, text, companies) == MatchesIn(n, n.name(text), companies)
  {
    if |n.name(text)| < 2 && companies != [] {
      var init, last := companies[..|companies| - 1], companies[|companies| - 1];
      MatchesAreMatchesIn(n, text, init);
      ShortTextMentionsNothing(n, n.name(text), last);
    }
  }

  lemma ShortTextMentionsNothing(n: Normalizer, haystack: string, company: Company)
    requires |haystack| < 2
    ensures Needle(n, haystack, company).None?
  {
    NeedleIsLongest(n, haystack, company);
    if Needle(n, haystack, company).Some? {
      NamesAreLongEnough(Normalized(n, [company.name] + company.aliases), Needle(n, haystack, company).value);
    }
  }

  lemma {:induction false} NamesAreLongEnough(names: seq<string>, name: string)
    requires name in Filter(LongEnough, names)
    ensures LongEnough(name)
  {
    if names != [] && !(LongEnough(names[0]) && name == names[0]) {
      NamesAreLongEnough(names[1..], name);
    }
  }
}
