/**
 * CSV export of the data-capture page: `escapeCSVCell` and the text that
 * `handleDownloadCSV` builds, with a reader for that text as its partner.
 * Quoting follows section 2 of RFC 4180; records end in a line feed.
 */
module Csv {
  import opened Wrappers
  import opened Tables

  /** A string must be quoted when it holds a comma, a line feed or a double quote. */
  predicate NeedsQuotes(s: string)
  {
    ',' in s || '\n' in s || '"' in s
  }

  /** `str.replace(/"/g, '""')`: every double quote written twice. */
  function DoubleQuotes(s: string): string
  {
    if s == [] then []
    else (if s[0] == '"' then "\"\"" else [s[0]]) + DoubleQuotes(s[1..])
  }

  /** `escapeCSVCell` on a present value. */
  function EscapeText(s: string): (e: string)
    ensures !NeedsQuotes(s) ==> e == s
    ensures NeedsQuotes(s) ==> |e| >= 2 && e[0] == '"' && e[|e| - 1] == '"'
  {
    if NeedsQuotes(s) then "\"" + DoubleQuotes(s) + "\"" else s
  }

  /** `escapeCSVCell`: null and undefined become the empty string. */
  function EscapeCell(c: Cell): (e: string)
    ensures c.None? ==> e == ""
    ensures c.Some? ==> e == EscapeText(c.value)
  {
    match c
    case None => ""
    case Some(s) => EscapeText(s)
  }

  /** `parts.join(',')`. */
  function Join(parts: seq<string>): string
  {
    if |parts| == 0 then ""
    else if |parts| == 1 then parts[0]
    else parts[0] + "," + Join(parts[1..])
  }

  /** `cells.map(escapeCSVCell).join(',') + '\n'`: one record of the file. */
  function Line(cells: seq<Cell>): string
  {
    Join(seq(|cells|, i requires 0 <= i < |cells| => EscapeCell(cells[i]))) + "\n"
  }

  /** The records of the rows, in order. */
  function Lines(rows: seq<seq<Cell>>): string
  {
    if rows == [] then "" else Line(rows[0]) + Lines(rows[1..])
  }

  /** The whole file: the header record, then one record per row and nothing else. */
  function CsvText(headers: seq<Cell>, rows: seq<seq<Cell>>): string
  {
    Line(headers) + Lines(rows)
  }

  /**
   * `handleDownloadCSV`: nothing for no data, a refusal when the table source
   * is missing or has no headers or no rows, otherwise the CSV text, built
   * record by record as the source's `rows.forEach` does.
   */
  method DownloadCsv(data: Option<ExportData>) returns (r: Export<string>)
    ensures r.Ignored? <==> data.None?
    ensures r.Refused? <==> data.Some? && !Exportable(TableSource(data.value))
    ensures r.Exported? ==>
      && data.Some? && Exportable(TableSource(data.value))
      && r.file == CsvText(Headers(TableSource(data.value)), Rows(TableSource(data.value)))
  {
    if data.None? {
      return Ignored;
    }
    var source := TableSource(data.value);
    if !Exportable(source) {
      return Refused;
    }
    var headers, rows := Headers(source), Rows(source);
    var csv := Line(headers);
    var i := 0;
    while i < |rows|
      invariant 0 <= i <= |rows|
      invariant csv == Line(headers) + Lines(rows[..i])
    {
      LinesSnoc(rows[..i], rows[i]);
      assert rows[..i + 1] == rows[..i] + [rows[i]];
      csv := csv + Line(rows[i]);
      i := i + 1;
    }
    assert rows[..|rows|] == rows;
    r := Exported(csv);
  }

  lemma {:induction false} LinesSnoc(rows: seq<seq<Cell>>, row: seq<Cell>)
    ensures Lines(rows + [row]) == Lines(rows) + Line(row)
  {
    if rows == [] {
      assert [] + [row] == [row];
      assert Lines([row]) == Line(row) + Lines([]);
    } else {
      assert (rows + [row])[1..] == rows[1..] + [row];
      LinesSnoc(rows[1..], row);
    }
  }

  // ---------------------------------------------------------------------
  // Reading the text back: the partner of the encoder.
  // ---------------------------------------------------------------------

  /** A field ends at the end of the text or before a comma or a line feed. */
  predicate Separated(t: string)
  {
    t == [] || t[0] == ',' || t[0] == '\n'
  }

  /** Reads an unquoted field: everything up to the next comma or line feed. */
  function ReadBare(s: string): (r: (string, string))
    ensures r.0 + r.1 == s
    ensures ',' !in r.0 && '\n' !in r.0
    ensures Separated(r.1)
  {
    if Separated(s) then ([], s)
    else
      var p := ReadBare(s[1..]);
      ([s[0]] + p.0, p.1)
  }

  /**
   * Reads the body of a quoted field, just after its opening quote: a doubled
   * quote stands for one quote, a single quote closes the field.
   */
  function ReadQuoted(s: string): (r: Option<(string, string)>)
    ensures r.Some? ==> |r.value.1| < |s|
  {
    if s == [] then None
    else if s[0] == '"' then
      if |s| > 1 && s[1] == '"' then
        match ReadQuoted(s[2..])
        case None => None
        case Some(p) => Some(("\"" + p.0, p.1))
      else Some(([], s[1..]))
    else
      match ReadQuoted(s[1..])
      case None => None
      case Some(p) => Some(([s[0]] + p.0, p.1))
  }

  /** Reads one field, quoted or not; a quoted field must be followed by a separator. */
  function ParseField(s: string): (r: Option<(string, string)>)
    ensures r.Some? ==> |r.value.1| <= |s| && Separated(r.value.1)
  {
    if s != [] && s[0] == '"' then
      match ReadQuoted(s[1..])
      case None => None
      case Some(p) => if Separated(p.1) then Some(p) else None
    else Some(ReadBare(s))
  }

  /** Reads one record: fields separated by commas, ended by a line feed or the end of the text. */
  function ParseRecord(s: string): (r: Option<(seq<string>, string)>)
    ensures r.Some? ==> |r.value.0| >= 1 && |r.value.1| <= |s|
    ensures r.Some? && s != [] ==> |r.value.1| < |s|
    decreases |s|
  {
    match ParseField(s)
    case None => None
    case Some(p) =>
      if p.1 == [] then Some(([p.0], []))
      else if p.1[0] == '\n' then Some(([p.0], p.1[1..]))
      else
        match ParseRecord(p.1[1..])
        case None => None
        case Some(q) => Some(([p.0] + q.0, q.1))
  }

  /** Reads a whole CSV text into its records. */
  function ParseCsv(s: string): (r: Option<seq<seq<string>>>)
    decreases |s|
  {
    if s == [] then Some([])
    else
      match ParseRecord(s)
      case None => None
      case Some(p) =>
        match ParseCsv(p.1)
        case None => None
        case Some(records) => Some([p.0] + records)
  }

  /** The text a cell stands for: null and undefined read back as the empty string. */
  function Text(c: Cell): string
  {
    match c
    case None => ""
    case Some(s) => s
  }

  function Texts(cells: seq<Cell>): seq<string>
  {
    seq(|cells|, i requires 0 <= i < |cells| => Text(cells[i]))
  }

  /**
   * The fields a record reads back as: its cells' texts, except that a row
   * with no cells is written as a bare line feed, which reads back as one
   * empty field.
   */
  function RecordTexts(cells: seq<Cell>): seq<string>
  {
    if cells == [] then [""] else Texts(cells)
  }

  function TextRows(rows: seq<seq<Cell>>): seq<seq<string>>
  {
    seq(|rows|, i requires 0 <= i < |rows| => RecordTexts(rows[i]))
  }

  lemma {:induction false} ReadBarePlain(s: string, t: string)
    requires !NeedsQuotes(s) && Separated(t)
    ensures ReadBare(s + t) == (s, t)
  {
    if s != [] {
      assert s[0] in s;
      assert forall c :: c in s[1..] ==> c in s;
      assert (s + t)[0] == s[0];
      assert (s + t)[1..] == s[1..] + t;
      ReadBarePlain(s[1..], t);
      assert !Separated(s + t);
      assert [s[0]] + s[1..] == s;
    } else {
      assert s + t == t;
    }
  }

  lemma {:induction false} ReadQuotedDoubled(s: string, t: string)
    requires t == [] || t[0] != '"'
    ensures ReadQuoted(DoubleQuotes(s) + "\"" + t) == Some((s, t))
  {
    if s == [] {
      assert DoubleQuotes(s) + "\"" + t == "\"" + t;
    } else {
      ReadQuotedDoubled(s[1..], t);
      var rest := DoubleQuotes(s[1..]) + "\"" + t;
      assert [s[0]] + s[1..] == s;
      if s[0] == '"' {
        assert DoubleQuotes(s) + "\"" + t == "\"\"" + rest;
        assert ("\"\"" + rest)[2..] == rest;
      } else {
        assert DoubleQuotes(s) + "\"" + t == [s[0]] + rest;
        assert ([s[0]] + rest)[1..] == rest;
      }
    }
  }

  /**
   * Unescaping an escaped cell gives the cell back, whatever follows it in
   * the record; with `t` empty this is the round trip of `escapeCSVCell`.
   */
  lemma FieldRoundTrip(s: string, t: string)
    requires Separated(t)
    ensures ParseField(EscapeText(s) + t) == Some((s, t))
  {
    var e := EscapeText(s) + t;
    if NeedsQuotes(s) {
      var body := DoubleQuotes(s) + "\"" + t;
      assert e == "\"" + body;
      assert e[0] == '"' && e[1..] == body;
      ReadQuotedDoubled(s, t);
      assert ReadQuoted(e[1..]) == Some((s, t));
    } else {
      ReadBarePlain(s, t);
      assert e == s + t;
      assert e == [] || e[0] != '"' by {
        if s != [] {
          assert e[0] == s[0] && s[0] in s;
        }
      }
    }
  }

  lemma LineEmpty(cells: seq<Cell>)
    requires cells == []
    ensures Line(cells) == "\n"
  {
    assert seq(|cells|, i requires 0 <= i < |cells| => EscapeCell(cells[i])) == [];
  }

  lemma LineSingle(cells: seq<Cell>)
    requires |cells| == 1
    ensures Line(cells) == EscapeCell(cells[0]) + "\n"
  {
    assert seq(|cells|, i requires 0 <= i < |cells| => EscapeCell(cells[i])) == [EscapeCell(cells[0])];
  }

  lemma LineCons(cells: seq<Cell>)
    requires |cells| >= 2
    ensures Line(cells) == EscapeCell(cells[0]) + "," + Line(cells[1..])
  {
    var escaped := seq(|cells|, i requires 0 <= i < |cells| => EscapeCell(cells[i]));
    var tail := cells[1..];
    assert escaped[1..] == seq(|tail|, i requires 0 <= i < |tail| => EscapeCell(tail[i]));
  }

  /** One record reads back as the texts of its cells, in order. */
  lemma {:induction false} RecordRoundTrip(cells: seq<Cell>, rest: string)
    ensures ParseRecord(Line(cells) + rest) == Some((RecordTexts(cells), rest))
  {
    if cells == [] {
      LineEmpty(cells);
      var s := Line(cells) + rest;
      assert s == "\n" + rest && s[0] == '\n';
      assert ReadBare(s) == ([], s);
      assert s[1..] == rest;
      return;
    }
    var c := cells[0];
    assert EscapeCell(c) == EscapeText(Text(c));
    if |cells| == 1 {
      LineSingle(cells);
      assert Line(cells) + rest == EscapeText(Text(c)) + ("\n" + rest);
      FieldRoundTrip(Text(c), "\n" + rest);
      assert Texts(cells) == [Text(c)];
    } else {
      var tail := cells[1..];
      LineCons(cells);
      var more := Line(tail) + rest;
      assert Line(cells) + rest == EscapeText(Text(c)) + ("," + more);
      FieldRoundTrip(Text(c), "," + more);
      RecordRoundTrip(tail, rest);
      assert ("," + more)[1..] == more;
      assert Texts(cells) == [Text(c)] + Texts(tail);
    }
  }

  lemma TextRowsCons(rows: seq<seq<Cell>>)
    requires rows != []
    ensures TextRows(rows) == [RecordTexts(rows[0])] + TextRows(rows[1..])
  {
  }

  /** The row records read back as the rows' texts, one record per row, in order. */
  lemma {:induction false} LinesRoundTrip(rows: seq<seq<Cell>>)
    ensures ParseCsv(Lines(rows)) == Some(TextRows(rows))
  {
    if rows != [] {
      var tail := Lines(rows[1..]);
      assert Lines(rows) == Line(rows[0]) + tail;
      assert |Lines(rows)| > 0;
      RecordRoundTrip(rows[0], tail);
      LinesRoundTrip(rows[1..]);
      TextRowsCons(rows);
    } else {
      assert Lines(rows) == [];
      assert TextRows(rows) == [];
    }
  }

  /**
   * The exported file reads back as the header texts followed by the row
   * texts: nothing is lost, added or reordered, except that null cells read
   * back as empty strings and a row with no cells as one empty field.
   */
  lemma CsvRoundTrip(headers: seq<Cell>, rows: seq<seq<Cell>>)
    ensures ParseCsv(CsvText(headers, rows)) == Some([RecordTexts(headers)] + TextRows(rows))
  {
    RecordRoundTrip(headers, Lines(rows));
    LinesRoundTrip(rows);
  }

  /** `1,2` and `x"y` need quotes; the quote inside the second is doubled. */
  lemma EscapeExample()
    ensures EscapeText("1,2") == "\"1,2\""
    ensures EscapeText("x\"y") == "\"x\"\"y\""
    ensures EscapeText("A") == "A"
  {
    assert NeedsQuotes("1,2") by { assert "1,2"[1] == ','; }
    assert NeedsQuotes("x\"y") by { assert "x\"y"[1] == '"'; }
    assert DoubleQuotes("x\"y") == "x\"\"y" by {
      assert DoubleQuotes("y") == "y";
      assert DoubleQuotes("\"y") == "\"\"" + DoubleQuotes("y");
    }
    assert DoubleQuotes("1,2") == "1,2" by {
      assert DoubleQuotes("2") == "2";
      assert DoubleQuotes(",2") == "," + DoubleQuotes("2");
    }
  }

  /** Headers `A`, `B` and the row `1,2` | `x"y` export as `A,B`, then `"1,2","x""y"`. */
  lemma ExportExample()
    ensures CsvText([Some("A"), Some("B")], [[Some("1,2"), Some("x\"y")]])
         == "A,B\n\"1,2\",\"x\"\"y\"\n"
  {
    var headers: seq<Cell> := [Some("A"), Some("B")];
    var row: seq<Cell> := [Some("1,2"), Some("x\"y")];
    EscapeExample();
    assert EscapeText("B") == "B";
    assert Line(headers) == "A,B\n" by {
      assert seq(|headers|, i requires 0 <= i < |headers| => EscapeCell(headers[i])) == ["A", "B"];
      assert ["A", "B"][1..] == ["B"];
      assert Join(["A", "B"]) == "A" + "," + Join(["B"]);
    }
    assert Line(row) == "\"1,2\",\"x\"\"y\"\n" by {
      var parts := ["\"1,2\"", "\"x\"\"y\""];
      assert seq(|row|, i requires 0 <= i < |row| => EscapeCell(row[i])) == parts;
      assert parts[1..] == [parts[1]];
      assert Join(parts) == parts[0] + "," + Join([parts[1]]);
    }
    assert Lines([row]) == Line(row) + Lines([]);
  }
}
