/** CSV as both exporters print it, and a reader that follows section 2 of RFC 4180 with LF ending records. */
module Csv {
  import opened Options

  // ----- printing -----

  predicate IsSpecial(c: char) { c == '"' || c == ',' || c == '\n' || c == '\r' }

  predicate HasSpecial(s: string) { s != "" && (IsSpecial(s[0]) || HasSpecial(s[1..])) }

  /** `value.replaceAll('"', '""')`. */
  function DoubleQuotes(s: string): string {
    if s == "" then "" else (if s[0] == '"' then "\"\"" else [s[0]]) + DoubleQuotes(s[1..])
  }

  /** `escapeCsvCell`. */
  function EscapeCell(s: string): string {
    if !HasSpecial(s) then s else "\"" + DoubleQuotes(s) + "\""
  }

  function PrintRow(row: seq<string>): string {
    if row == [] then ""
    else if |row| == 1 then EscapeCell(row[0])
    else EscapeCell(row[0]) + "," + PrintRow(row[1..])
  }

  function Print(rows: seq<seq<string>>): string {
    if rows == [] then ""
    else if |rows| == 1 then PrintRow(rows[0])
    else PrintRow(rows[0]) + "\n" + Print(rows[1..])
  }

  lemma {:induction false} SpecialIff(s: string)
    ensures HasSpecial(s) <==> exists i :: 0 <= i < |s| && s[i] in {'"', ',', '\n', '\r'}
  {
    if s != "" {
      SpecialIff(s[1..]);
      if HasSpecial(s[1..]) {
        var i :| 0 <= i < |s[1..]| && s[1..][i] in {'"', ',', '\n', '\r'};
        assert s[i + 1] == s[1..][i];
      }
      if i :| 0 < i < |s| && s[i] in {'"', ',', '\n', '\r'} { assert s[1..][i - 1] == s[i]; }
    }
  }

  lemma {:induction false} DoublingIsNoShorter(s: string)
    ensures |DoubleQuotes(s)| >= |s|
  {
    if s != "" { DoublingIsNoShorter(s[1..]); }
  }

  /** A cell is printed as it is exactly when it holds no quote, comma, LF or CR; else it is put in quotes. */
  lemma QuotedIff(s: string)
    ensures EscapeCell(s) == s <==> forall i :: 0 <= i < |s| ==> s[i] !in {'"', ',', '\n', '\r'}
    ensures EscapeCell(s) != s ==> |EscapeCell(s)| >= |s| + 2 && EscapeCell(s)[0] == '"'
                                   && EscapeCell(s)[|EscapeCell(s)| - 1] == '"'
  {
    SpecialIff(s);
    DoublingIsNoShorter(s);
  }

  // ----- reading -----

  /** What has been read, and what follows. */
  datatype Cell = Cell(text: string, rest: string)

  datatype Row = Row(cells: seq<string>, rest: string)

  /** After an opening quote: up to the closing quote, with pairs of quotes standing for one. */
  function ReadQuoted(s: string): (r: Option<Cell>)
    ensures r.Some? ==> |r.value.rest| < |s|
  {
    if s == "" then None
    else if s[0] == '"' then
      if |s| >= 2 && s[1] == '"' then
        var r := ReadQuoted(s[2..]);
        if r.None? then None else Some(Cell("\"" + r.value.text, r.value.rest))
      else Some(Cell("", s[1..]))
    else
      var r := ReadQuoted(s[1..]);
      if r.None? then None else Some(Cell([s[0]] + r.value.text, r.value.rest))
  }

  /** A bare cell: up to the next special character. */
  function ReadBare(s: string): (r: Cell)
    ensures |r.rest| <= |s|
  {
    if s == "" || IsSpecial(s[0]) then Cell("", s)
    else
      var r := ReadBare(s[1..]);
      Cell([s[0]] + r.text, r.rest)
  }

  function ReadCell(s: string): (r: Option<Cell>)
    ensures r.Some? ==> |r.value.rest| <= |s|
  {
    if s != "" && s[0] == '"' then ReadQuoted(s[1..]) else Some(ReadBare(s))
  }

  /** Cells separated by commas; the record ends before a line feed or at the end. */
  function ReadRow(s: string): (r: Option<Row>)
    ensures r.Some? ==> |r.value.rest| <= |s|
    ensures r.Some? ==> r.value.rest == "" || r.value.rest[0] == '\n'
    decreases |s|
  {
    var c := ReadCell(s);
    if c.None? then None
    else if c.value.rest == "" || c.value.rest[0] == '\n' then Some(Row([c.value.text], c.value.rest))
    else if c.value.rest[0] == ',' then
      var more := ReadRow(c.value.rest[1..]);
      if more.None? then None else Some(Row([c.value.text] + more.value.cells, more.value.rest))
    else None
  }

  function Read(s: string): Option<seq<seq<string>>>
    decreases |s|
  {
    var row := ReadRow(s);
    if row.None? then None
    else if row.value.rest == "" then Some([row.value.cells])
    else
      var more := Read(row.value.rest[1..]);
      if more.None? then None else Some([row.value.cells] + more.value)
  }

  // ----- reading undoes printing -----

  /** What may follow a cell. */
  predicate EndsCell(s: string) { s == "" || s[0] == ',' || s[0] == '\n' }

  lemma {:induction false} QuotedReads(s: string, rest: string)
    requires EndsCell(rest)
    ensures ReadQuoted(DoubleQuotes(s) + "\"" + rest) == Some(Cell(s, rest))
  {
    var t := DoubleQuotes(s) + "\"" + rest;
    if s == "" {
      assert t == "\"" + rest;
      assert t[1..] == rest;
    } else {
      QuotedReads(s[1..], rest);
      var u := DoubleQuotes(s[1..]) + "\"" + rest;
      if s[0] == '"' {
        assert t == "\"\"" + u;
        assert t[2..] == u;
      } else {
        assert t == [s[0]] + u;
        assert t[1..] == u;
      }
      assert s == [s[0]] + s[1..];
    }
  }

  lemma {:induction false} BareReads(s: string, rest: string)
    requires !HasSpecial(s) && EndsCell(rest)
    ensures ReadBare(s + rest) == Cell(s, rest)
  {
    if s == "" {
      assert s + rest == rest;
    } else {
      assert (s + rest)[1..] == s[1..] + rest;
      BareReads(s[1..], rest);
      assert s == [s[0]] + s[1..];
    }
  }

  lemma QuotedCellReads(s: string, rest: string)
    requires EndsCell(rest)
    ensures ReadCell("\"" + DoubleQuotes(s) + "\"" + rest) == Some(Cell(s, rest))
  {
    var u := DoubleQuotes(s) + "\"" + rest;
    var t := "\"" + DoubleQuotes(s) + "\"" + rest;
    QuotedReads(s, rest);
    assert t == "\"" + u;
    assert t[1..] == u;
  }

  lemma BareCellReads(s: string, rest: string)
    requires !HasSpecial(s) && EndsCell(rest)
    ensures ReadCell(s + rest) == Some(Cell(s, rest))
  {
    BareReads(s, rest);
    assert s + rest != "" ==> (s + rest)[0] == if s == "" then rest[0] else s[0];
  }

  /** Every cell, with any quotes, commas, CR or LF in it, reads back. */
  lemma CellReads(s: string, rest: string)
    requires EndsCell(rest)
    ensures ReadCell(EscapeCell(s) + rest) == Some(Cell(s, rest))
  {
    if HasSpecial(s) {
      QuotedCellReads(s, rest);
    } else {
      BareCellReads(s, rest);
    }
  }

  lemma RowEnds(s: string, cell: string, rest: string)
    requires ReadCell(s) == Some(Cell(cell, rest)) && (rest == "" || rest[0] == '\n')
    ensures ReadRow(s) == Some(Row([cell], rest))
  {}

  lemma RowGoesOn(s: string, cell: string, tail: string, row: Row)
    requires ReadCell(s) == Some(Cell(cell, "," + tail)) && ReadRow(tail) == Some(row)
    ensures ReadRow(s) == Some(Row([cell] + row.cells, row.rest))
  {
    assert ("," + tail)[1..] == tail;
  }

  lemma {:induction false} RowReads(row: seq<string>, rest: string)
    requires row != [] && (rest == "" || rest[0] == '\n')
    ensures ReadRow(PrintRow(row) + rest) == Some(Row(row, rest))
  {
    if |row| == 1 {
      CellReads(row[0], rest);
      RowEnds(PrintRow(row) + rest, row[0], rest);
      assert row == [row[0]];
    } else {
      var tail := PrintRow(row[1..]) + rest;
      assert PrintRow(row) + rest == EscapeCell(row[0]) + ("," + tail);
      CellReads(row[0], "," + tail);
      RowReads(row[1..], rest);
      RowGoesOn(PrintRow(row) + rest, row[0], tail, Row(row[1..], rest));
      assert row == [row[0]] + row[1..];
    }
  }

  lemma FileEnds(s: string, row: seq<string>)
    requires ReadRow(s) == Some(Row(row, ""))
    ensures Read(s) == Some([row])
  {}

  lemma FileGoesOn(s: string, row: seq<string>, tail: string, rows: seq<seq<string>>)
    requires ReadRow(s) == Some(Row(row, "\n" + tail)) && Read(tail) == Some(rows)
    ensures Read(s) == Some([row] + rows)
  {
    assert ("\n" + tail)[1..] == tail;
  }

  /** Reading undoes printing for every table with at least one row, and at least one cell in each. */
  lemma {:induction false} ReadOfPrint(rows: seq<seq<string>>)
    requires rows != [] && forall i :: 0 <= i < |rows| ==> rows[i] != []
    ensures Read(Print(rows)) == Some(rows)
  {
    if |rows| == 1 {
      assert PrintRow(rows[0]) + "" == PrintRow(rows[0]);
      RowReads(rows[0], "");
      FileEnds(Print(rows), rows[0]);
      assert rows == [rows[0]];
    } else {
      var tail := Print(rows[1..]);
      assert Print(rows) == PrintRow(rows[0]) + ("\n" + tail);
      RowReads(rows[0], "\n" + tail);
      ReadOfPrint(rows[1..]);
      FileGoesOn(Print(rows), rows[0], tail, rows[1..]);
      assert rows == [rows[0]] + rows[1..];
    }
  }
}
