/**
 Recognising listed companies: the index by code and by normalised name, and the companies a text mentions.
 Normalisation of names is left to a parameter.
 */
module ListedCompany {
  import opened Options
  import opened InsertionMap
  import opened Strings
  import opened StableSort

  datatype Company = Company(code: string, name: string, sector: string, aliases: seq<string>)

  datatype Confidence = ByCode | Exact | Alias | Contains

  datatype Match = Match(company: Company, confidence: Confidence, matchedText: string)

  /** `String.prototype.normalize("NFKC")` and `normalizeCompanyName`. */
  datatype Normalizer = Normalizer(nfkc: string -> string, name: string -> string)

  // ----- the index -----

  /** The two kinds of index key; as texts they start with `code:` and `name:`. */
  datatype Key = CodeKey(code: string) | NameKey(name: string)

  function KeyText(key: Key): string {
    match key
    case CodeKey(code) => "code:" + code
    case NameKey(name) => "name:" + name
  }

  /** Different keys are different texts, so keeping keys apart by kind changes nothing. */
  lemma KeyTextsDiffer(a: Key, b: Key)
    requires KeyText(a) == KeyText(b)
    ensures a == b
  {
    assert KeyText(a)[0] == KeyText(b)[0];
    assert KeyText(a)[5..] == KeyText(b)[5..];
    assert CodeKey(KeyText(a)[5..]) == a || NameKey(KeyText(a)[5..]) == a;
    assert CodeKey(KeyText(b)[5..]) == b || NameKey(KeyText(b)[5..]) == b;
  }

  type Index = seq<Pair<Key, Company>>

  /** The index entries made for the first aliases of a company. */
  function IndexAliases(n: Normalizer, index: Index, company: Company, aliases: seq<string>): Index {
    if aliases == [] then index
    else
      var before, normalized := IndexAliases(n, index, company, aliases[..|aliases| - 1]),
          n.name(aliases[|aliases| - 1]);
      if |normalized| >= 2 then Set(before, NameKey(normalized), company) else before
  }

  function IndexCompany(n: Normalizer, index: Index, company: Company): Index {
    var named := Set(Set(index, CodeKey(company.code), company), NameKey(n.name(company.name)), company);
    IndexAliases(n, named, company, company.aliases)
  }

  function IndexOf(n: Normalizer, companies: seq<Company>): Index {
    if companies == [] then []
        else IndexCompany(n, IndexOf(n, companies[..|companies| - 1]), companies[|companies| - 1])
  }

  method IndexListedCompanies(n: Normalizer, companies: seq<Company>) returns (index: Index)
    ensures index == IndexOf(n, companies)
  {
    index := [];
    for i := 0 to |companies|
      invariant index == IndexOf(n, companies[..i])
    {
      var company := companies[i];
      ghost var before := index;
      index := Set(index, CodeKey(company.code), company);
      index := Set(index, NameKey(n.name(company.name)), company);
      ghost var named := index;
      for j := 0 to |company.aliases|
        invariant index == IndexAliases(n, named, company, company.aliases[..j])
      {
        var normalized := n.name(company.aliases[j]);
        if |normalized| >= 2 {
          index := Set(index, NameKey(normalized), company);
        }
        assert company.aliases[..j + 1][..j] == company.aliases[..j];
      }
      assert company.aliases[..|company.aliases|] == company.aliases;
      assert companies[..i + 1][..i] == companies[..i];
      assert index == IndexCompany(n, before, company);
    }
    assert companies[..|companies|] == companies;
  }

  // ----- the scan -----

  /** A company that goes by a normalised name of at least two characters. */
  predicate GoesBy(n: Normalizer, company: Company, name: string) {
    n.name(company.name) == name || exists i :: 0 <= i < |company.aliases| && n.name(company.aliases[i]) == name
  }

  /** The last company with the code. */
  function LastWithCode(companies: seq<Company>, code: string): Option<Company> {
    if companies == [] then None
    else if companies[|companies| - 1].code == code then Some(companies[|companies| - 1])
    else LastWithCode(companies[..|companies| - 1], code)
  }

  /** The last company that goes by the name. */
  function LastWithName(n: Normalizer, companies: seq<Company>, name: string): Option<Company> {
    if companies == [] then None
    else if GoesBy(n, companies[|companies| - 1], name) then Some(companies[|companies| - 1])
    else LastWithName(n, companies[..|companies| - 1], name)
  }

  lemma {:induction false} AliasesIndexed(n: Normalizer, index: Index, company: Company, aliases: seq<string>,
          name: string)
    requires |name| >= 2
    ensures Get(IndexAliases(n, index, company, aliases), NameKey(name)) ==
            if exists i :: 0 <= i < |aliases| && n.name(aliases[i]) == name then Some(company)
            else Get(index, NameKey(name))
  {
    if aliases != [] {
      var init, normalized := aliases[..|aliases| - 1], n.name(aliases[|aliases| - 1]);
      AliasesIndexed(n, index, company, init, name);
      GetOfSet(IndexAliases(n, index, company, init), NameKey(normalized), company, NameKey(name));
      if i :| 0 <= i < |aliases| && n.name(aliases[i]) == name && i < |init| {
        assert n.name(init[i]) == name;
      }
    }
  }

  lemma {:induction false} AliasesLeaveCodes(n: Normalizer, index: Index, company: Company, aliases: seq<string>,
          code: string)
    ensures Get(IndexAliases(n, index, company, aliases), CodeKey(code)) == Get(index, CodeKey(code))
  {
    if aliases != [] {
      var init, normalized := aliases[..|aliases| - 1], n.name(aliases[|aliases| - 1]);
      AliasesLeaveCodes(n, index, company, init, code);
      GetOfSet(IndexAliases(n, index, company, init), NameKey(normalized), company, CodeKey(code));
    }
  }

  /** For all catalogues: looking a code up in the index finds what a scan for the last company with it finds. */
  lemma {:induction false} CodeLookupIsScan(n: Normalizer, companies: seq<Company>, code: string)
    ensures Get(IndexOf(n, companies), CodeKey(code)) == LastWithCode(companies, code)
  {
    if companies != [] {
      var company, before := companies[|companies| - 1], IndexOf(n, companies[..|companies| - 1]);
      var coded, nameKey := Set(before, CodeKey(company.code), company), NameKey(n.name(company.name));
      CodeLookupIsScan(n, companies[..|companies| - 1], code);
      GetOfSet(before, CodeKey(company.code), company, CodeKey(code));
      GetOfSet(coded, nameKey, company, CodeKey(code));
      AliasesLeaveCodes(n, Set(coded, nameKey, company), company, company.aliases, code);
    }
  }

  /** The same for names of at least two characters. */
  lemma {:induction false} NameLookupIsScan(n: Normalizer, companies: seq<Company>, name: string)
    requires |name| >= 2
    ensures Get(IndexOf(n, companies), NameKey(name)) == LastWithName(n, companies, name)
  {
    if companies != [] {
      var company, before := companies[|companies| - 1], IndexOf(n, companies[..|companies| - 1]);
      var coded, nameKey := Set(before, CodeKey(company.code), company), NameKey(n.name(company.name));
      NameLookupIsScan(n, companies[..|companies| - 1], name);
      GetOfSet(before, CodeKey(company.code), company, NameKey(name));
      GetOfSet(coded, nameKey, company, NameKey(name));
      AliasesIndexed(n, Set(coded, nameKey, company), company, company.aliases, name);
    }
  }

  // ----- a query -----

  function Digits(s: string): string {
    if s == "" then "" else (if '0' <= s[0] <= '9' then [s[0]] else "") + Digits(s[1..])
  }

  /** `normalizeTickerCode`. */
  function TickerCode(n: Normalizer, value: string): Option<string> {
    var digits := Digits(n.nfkc(value));
    if |digits| == 4 then Some(digits)
    else if |digits| == 5 && digits[4] == '0' then Some(digits[..4])
    else None
  }

  predicate IsDecimal(c: char) { 48 <= c as int <= 57 }

  lemma {:induction false} DigitsAreKept(s: string)
    ensures Digits(s) == Filter(IsDecimal, s)
  {
    if s != "" { DigitsAreKept(s[1..]); }
  }

  /** A query has a code exactly when its digits, full width or not, are the code or the code and a 0. */
  lemma TickerCodeIff(n: Normalizer, value: string, code: string)
    ensures var digits := Filter(IsDecimal, n.nfkc(value));
            TickerCode(n, value) == Some(code) <==> |code| == 4 && (digits == code || digits == code + "0")
  {
    DigitsAreKept(n.nfkc(value));
    var digits := Digits(n.nfkc(value));
    if |digits| == 5 { assert digits == digits[..4] + [digits[4]]; }
  }

  /** What a query means, with no index: the last company with its code, else the last that goes by its name. */
  function Scan(n: Normalizer, query: string, companies: seq<Company>): Option<Match> {
    var trimmed := Trim(query);
    var code, normalized := TickerCode(n, trimmed), n.name(trimmed);
    var coded := if code.Some? then LastWithCode(companies, code.value) else None;
    var named := LastWithName(n, companies, normalized);
    if trimmed == "" then None
    else if coded.Some? then Some(Match(coded.value, ByCode, trimmed))
    else if |normalized| < 2 || named.None? then None
    else Some(Match(named.value, if n.name(named.value.name) == normalized then Exact else Alias, trimmed))
  }

  method FindListedCompany(n: Normalizer, query: string, companies: seq<Company>) returns (found: Option<Match>)
    ensures found == Scan(n, query, companies)
  {
    var trimmed := Trim(query);
    if |trimmed| == 0 { return None; }
    var index := IndexListedCompanies(n, companies);
    var code := TickerCode(n, trimmed);
    if code.Some? {
      var company := Get(index, CodeKey(code.value));
      CodeLookupIsScan(n, companies, code.value);
      if company.Some? { return Some(Match(company.value, ByCode, trimmed)); }
    }
    var normalized := n.name(trimmed);
    if |normalized| < 2 { return None; }
    var exact := Get(index, NameKey(normalized));
    NameLookupIsScan(n, companies, normalized);
    if exact.Some? {
      var confidence := if n.name(exact.value.name) == normalized then Exact else Alias;
      return Some(Match(exact.value, confidence, trimmed));
    }
    return None;
  }

  /** Position i holds the last company of a kind. */
  ghost predicate LastCodeAt(companies: seq<Company>, code: string, i: int) {
    0 <= i < |companies| && companies[i].code == code && forall j :: i < j < |companies| ==> companies[j].code != code
  }

  ghost predicate LastNameAt(n: Normalizer, companies: seq<Company>, name: string, i: int) {
    0 <= i < |companies| && GoesBy(n, companies[i], name) && forall j :: i < j < |companies| ==>
        !GoesBy(n, companies[j], name)
  }

  lemma {:induction false} LastCodeIsLast(companies: seq<Company>, code: string)
    ensures var r := LastWithCode(companies, code);
            if r.Some? then exists i :: LastCodeAt(companies, code, i) && companies[i] == r.value
            else forall i :: 0 <= i < |companies| ==> companies[i].code != code
  {
    if companies != [] {
      var init := companies[..|companies| - 1];
      LastCodeIsLast(init, code);
      if companies[|companies| - 1].code == code {
        assert LastCodeAt(companies, code, |companies| - 1);
      } else if LastWithCode(init, code).Some? {
        var i :| LastCodeAt(init, code, i) && init[i] == LastWithCode(init, code).value;
        assert LastCodeAt(companies, code, i);
      }
    }
  }

  lemma {:induction false} LastNameIsLast(n: Normalizer, companies: seq<Company>, name: string)
    ensures var r := LastWithName(n, companies, name);
            if r.Some? then exists i :: LastNameAt(n, companies, name, i) && companies[i] == r.value
            else forall i :: 0 <= i < |companies| ==> !GoesBy(n, companies[i], name)
  {
    if companies != [] {
      var init := companies[..|companies| - 1];
      LastNameIsLast(n, init, name);
      if GoesBy(n, companies[|companies| - 1], name) {
        assert LastNameAt(n, companies, name, |companies| - 1);
      } else if LastWithName(n, init, name).Some? {
        var i :| LastNameAt(n, init, name, i) && init[i] == LastWithName(n, init, name).value;
        assert LastNameAt(n, companies, name, i);
      }
    }
  }

  /**
   What a query finds: by code exactly when some company has that code, and then the last such company; else the
   last company that goes by the name, "exact" exactly when its own name is the one asked for; nothing exactly
   when no company has the code and the name is shorter than two characters or no company goes by it.
   */
  lemma ScanFindsTheLast(n: Normalizer, query: string, companies: seq<Company>, trimmed: string, code: Option<string>,
          name: string)
    requires trimmed == Trim(query) && trimmed != "" && code == TickerCode(n, trimmed) && name == n.name(trimmed)
    ensures var r := Scan(n, query, companies);
            && (r.Some? && r.value.confidence == ByCode <==>
                code.Some? && exists i :: LastCodeAt(companies, code.value, i))
            && (r.Some? && r.value.confidence == ByCode ==>
                exists i :: LastCodeAt(companies, code.value, i) && companies[i] == r.value.company)
            && (r.Some? && r.value.confidence != ByCode ==>
                exists i :: LastNameAt(n, companies, name, i) && companies[i] == r.value.company)
            && (r.Some? && r.value.confidence != ByCode ==>
                (r.value.confidence == Exact <==> n.name(r.value.company.name) == name))
            && (r.None? <==>
                && (code.Some? ==> forall i :: 0 <= i < |companies| ==> companies[i].code != code.value)
                && (|name| < 2 || forall i :: 0 <= i < |companies| ==> !GoesBy(n, companies[i], name)))
  {
    LastNameIsLast(n, companies, name);
    if code.Some? { LastCodeIsLast(companies, code.value); }
  }
}
