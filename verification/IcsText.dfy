/** iCalendar TEXT values (section 3.3.11 of RFC 5545): the exporter's escaping, and the standard's reading. */
module IcsText {
  import opened Options
  import opened Strings

  /** `s.replaceAll(c, with)` for a single character. */
  function ReplaceAll(s: string, c: char, with: string): string {
    if s == "" then ""
    else (if s[0] == c then with else [s[0]]) + ReplaceAll(s[1..], c, with)
  }

  /** `escapeIcsText`: four replacements one after the other. */
  function Escape(s: string): string {
    ReplaceAll(ReplaceAll(ReplaceAll(ReplaceAll(s, '\\', "\\\\"), '\n', "\\n"), ',', "\\,"), ';', "\\;")
  }

  /** What becomes of each character. */
  function EscapeChar(c: char): string {
    if c == '\\' then "\\\\" else if c == '\n' then "\\n" else if c == ',' then "\\," else if c == ';' then "\\;"
        else [c]
  }

  function EscapeEach(s: string): string {
    if s == "" then "" else EscapeChar(s[0]) + EscapeEach(s[1..])
  }

  /** Reading a TEXT value: a backslash escapes `\`, `;`, `,`, `n` and `N`, and only those; a bare separator
      or line feed ends the value early and is not read. */
  function Decode(s: string): Option<string> {
    if s == "" then Some("")
    else if s[0] == '\\' then
      if |s| == 1 then None else
      var rest := Decode(s[2..]);
      if rest.None? then None
      else if s[1] == '\\' || s[1] == ';' || s[1] == ',' then Some([s[1]] + rest.value)
      else if s[1] == 'n' || s[1] == 'N' then Some("\n" + rest.value)
      else None
    else if s[0] == ',' || s[0] == ';' || s[0] == '\n' then None
    else
      var rest := Decode(s[1..]);
      if rest.None? then None else Some([s[0]] + rest.value)
  }

  lemma {:induction false} ReplaceAllOfConcat(s: string, t: string, c: char, with: string)
    ensures ReplaceAll(s + t, c, with) == ReplaceAll(s, c, with) + ReplaceAll(t, c, with)
  {
    if s == "" {
      assert s + t == t;
    } else {
      assert (s + t)[1..] == s[1..] + t;
      ReplaceAllOfConcat(s[1..], t, c, with);
    }
  }

  lemma EscapeOfConcat(s: string, t: string)
    ensures Escape(s + t) == Escape(s) + Escape(t)
  {
    var s1, t1 := ReplaceAll(s, '\\', "\\\\"), ReplaceAll(t, '\\', "\\\\");
    var s2, t2 := ReplaceAll(s1, '\n', "\\n"), ReplaceAll(t1, '\n', "\\n");
    var s3, t3 := ReplaceAll(s2, ',', "\\,"), ReplaceAll(t2, ',', "\\,");
    ReplaceAllOfConcat(s, t, '\\', "\\\\");
    ReplaceAllOfConcat(s1, t1, '\n', "\\n");
    ReplaceAllOfConcat(s2, t2, ',', "\\,");
    ReplaceAllOfConcat(s3, t3, ';', "\\;");
  }

  /** Replacing in a text of one character. */
  lemma ReplaceInOne(x: char, c: char, with: string)
    ensures ReplaceAll([x], c, with) == if x == c then with else [x]
  {
    assert [x][1..] == "";
  }

  /** Replacing in an escape pair: only its second character can match. */
  lemma ReplaceInPair(x: char, y: char, c: char, with: string)
    requires x != c && y != c
    ensures ReplaceAll([x, y], c, with) == [x, y]
  {
    assert [x, y][1..] == [y];
    ReplaceInOne(y, c, with);
  }

  lemma EscapeOfChar(c: char)
    ensures Escape([c]) == EscapeChar(c)
  {
    ReplaceInOne(c, '\\', "\\\\");
    ReplaceInOne(c, '\n', "\\n");
    ReplaceInOne(c, ',', "\\,");
    ReplaceInOne(c, ';', "\\;");
    ReplaceInPair('\\', '\\', '\n', "\\n");
    ReplaceInPair('\\', '\\', ',', "\\,");
    ReplaceInPair('\\', '\\', ';', "\\;");
    ReplaceInPair('\\', 'n', ',', "\\,");
    ReplaceInPair('\\', 'n', ';', "\\;");
    ReplaceInPair('\\', ',', ';', "\\;");
  }

  /** The four replacements do not disturb each other: together they are one character-wise map. */
  lemma {:induction false} EscapeIsCharacterwise(s: string)
    ensures Escape(s) == EscapeEach(s)
  {
    if s != "" {
      assert s == [s[0]] + s[1..];
      EscapeOfConcat([s[0]], s[1..]);
      EscapeOfChar(s[0]);
      EscapeIsCharacterwise(s[1..]);
    }
  }

  lemma {:induction false} DecodeOfEscapeEach(s: string)
    ensures Decode(EscapeEach(s)) == Some(s)
  {
    if s != "" {
      var rest := EscapeEach(s[1..]);
      DecodeOfEscapeEach(s[1..]);
      var e := EscapeChar(s[0]) + rest;
      if |EscapeChar(s[0])| == 2 {
        assert e[2..] == rest && e[0] == '\\' && e[1] == EscapeChar(s[0])[1];
      } else {
        assert e[1..] == rest && e[0] == s[0];
      }
      assert s == [s[0]] + s[1..];
    }
  }

  /** Reading undoes escaping, for every text. */
  lemma DecodeOfEscape(s: string)
    ensures Decode(Escape(s)) == Some(s)
  {
    EscapeIsCharacterwise(s);
    DecodeOfEscapeEach(s);
  }

  lemma EscapeIsInjective(s: string, t: string)
    ensures Escape(s) == Escape(t) <==> s == t
  {
    DecodeOfEscape(s);
    DecodeOfEscape(t);
  }

  lemma {:induction false} EscapeEachHasNoLineFeed(s: string)
    ensures '\n' !in EscapeEach(s)
  {
    if s != "" { EscapeEachHasNoLineFeed(s[1..]); }
  }

  /** Escaped text never holds a line feed, so it cannot break its content line. */
  lemma EscapeHasNoLineFeed(s: string)
    ensures '\n' !in Escape(s)
  {
    EscapeIsCharacterwise(s);
    EscapeEachHasNoLineFeed(s);
  }

  // ----- joined texts -----

  lemma {:induction false} JoinLengths(parts: seq<string>, s: string, t: string)
    requires parts != []
    ensures |Join(parts, s)| - |Join(parts, t)| == (|parts| - 1) * (|s| - |t|)
  {
    if |parts| > 1 {
      JoinLengths(parts[1..], s, t);
      assert (|parts| - 1) * (|s| - |t|) == (|parts| - 2) * (|s| - |t|) + (|s| - |t|);
    }
  }

  /** A description joined with backslash and `n` before it is escaped reads back as those two characters:
      never as the same parts on lines of their own. */
  lemma DescriptionKeepsBackslashN(parts: seq<string>)
    requires |parts| >= 2
    ensures Decode(Escape(Join(parts, "\\n"))) == Some(Join(parts, "\\n"))
    ensures Decode(Escape(Join(parts, "\\n"))) != Some(Join(parts, "\n"))
  {
    DecodeOfEscape(Join(parts, "\\n"));
    JoinLengths(parts, "\\n", "\n");
  }

  // ----- content lines -----

  predicate StartsCrlf(s: string) { |s| >= 2 && s[0] == '\r' && s[1] == '\n' }

  predicate HasCrlf(s: string) { s != "" && (StartsCrlf(s) || HasCrlf(s[1..])) }

  /** The lines of a text, ended by CRLF. */
  function SplitCrlf(s: string): (lines: seq<string>)
    ensures lines != []
  {
    if s == "" then [""]
    else if StartsCrlf(s) then [""] + SplitCrlf(s[2..])
    else
      var rest := SplitCrlf(s[1..]);
      [[s[0]] + rest[0]] + rest[1..]
  }

  /** No line that splitting yields holds a CRLF. */
  lemma {:induction false} SplitLinesAreClean(s: string, i: nat)
    requires i < |SplitCrlf(s)|
    ensures !HasCrlf(SplitCrlf(s)[i])
    ensures i == 0 && s != "" && !StartsCrlf(s) ==> SplitCrlf(s)[0] != "" && SplitCrlf(s)[0][0] == s[0]
    ensures SplitCrlf(s)[0] <= s
  {
    if s != "" {
      if StartsCrlf(s) {
        if i > 0 { SplitLinesAreClean(s[2..], i - 1); }
      } else {
        var rest := SplitCrlf(s[1..]);
        SplitLinesAreClean(s[1..], i);
        SplitLinesAreClean(s[1..], 0);
        if i == 0 {
          var line := [s[0]] + rest[0];
          assert line[1..] == rest[0];
          assert |rest[0]| > 0 ==> rest[0][0] == s[1];
        }
      }
    }
  }

  lemma {:induction false} SplitOfLine(line: string, rest: string)
    requires !HasCrlf(line)
    ensures SplitCrlf(line + "\r\n" + rest) == [line] + SplitCrlf(rest)
  {
    var s := line + "\r\n" + rest;
    if line == "" {
      assert s == "\r\n" + rest && s[2..] == rest;
    } else {
      assert s[1..] == line[1..] + "\r\n" + rest;
      SplitOfLine(line[1..], rest);
      assert !StartsCrlf(s) by {
        if |line| >= 2 { assert s[0] == line[0] && s[1] == line[1]; } else { assert s[1] == '\r'; }
      }
      assert [line[0]] + line[1..] == line;
    }
  }

  lemma {:induction false} SplitOfLast(line: string)
    requires !HasCrlf(line)
    ensures SplitCrlf(line) == [line]
  {
    if line != "" {
      SplitOfLast(line[1..]);
      assert [line[0]] + line[1..] == line;
    }
  }

  /** Splitting gives back exactly the joined lines if and only if none of them holds a CRLF. */
  lemma {:induction false} SplitOfJoin(lines: seq<string>)
    requires lines != []
    ensures SplitCrlf(Join(lines, "\r\n")) == lines <==> forall i :: 0 <= i < |lines| ==> !HasCrlf(lines[i])
  {
    if forall i :: 0 <= i < |lines| ==> !HasCrlf(lines[i]) {
      SplitOfCleanLines(lines);
    } else if SplitCrlf(Join(lines, "\r\n")) == lines {
      var i :| 0 <= i < |lines| && HasCrlf(lines[i]);
      SplitLinesAreClean(Join(lines, "\r\n"), i);
    }
  }

  lemma {:induction false} SplitOfCleanLines(lines: seq<string>)
    requires lines != [] && forall i :: 0 <= i < |lines| ==> !HasCrlf(lines[i])
    ensures SplitCrlf(Join(lines, "\r\n")) == lines
  {
    if |lines| == 1 {
      SplitOfLast(lines[0]);
    } else {
      SplitOfCleanLines(lines[1..]);
      SplitOfLine(lines[0], Join(lines[1..], "\r\n"));
    }
  }

  lemma {:induction false} NoLineFeedNoCrlf(s: string)
    requires '\n' !in s
    ensures !HasCrlf(s)
  {
    if s != "" { NoLineFeedNoCrlf(s[1..]); }
  }
}
