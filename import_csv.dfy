/**
 * The receipts import: a quote-aware CSV line tokenizer, the file reader
 * built on it, and the loop that validates each row and hands it to the
 * database. The database insert and the date-fns date check are parameters.
 */
module ImportCsv {
  import opened Optional
  import opened Text
  import opened ExportCsv
  import opened ReceiptTypes

  // ---------------------------------------------------------------------
  // One line: the tokenizer as a specification function
  // ---------------------------------------------------------------------

  /** `t` with `a` put in front of its first field. */
  function AppendFront(a: string, t: seq<string>): (r: seq<string>)
    requires |t| >= 1
    ensures |r| == |t| && r[0] == a + t[0] && r[1..] == t[1..]
  {
    [a + t[0]] + t[1..]
  }

  /**
   * The fields read from `s` when the scan starts in the quote state
   * `inQuotes` with an empty current field. Inside quotes a doubled quote
   * is one literal quote; any other quote only toggles the state; a comma
   * outside quotes ends a field; every other character joins the field.
   */
  function Fields(s: string, inQuotes: bool): (fields: seq<string>)
    ensures |fields| >= 1
    decreases |s|
  {
    if s == [] then [""]
    else if s[0] == '"' then
      if inQuotes && |s| >= 2 && s[1] == '"' then AppendFront("\"", Fields(s[2..], inQuotes))
      else Fields(s[1..], !inQuotes)
    else if s[0] == ',' && !inQuotes then [""] + Fields(s[1..], inQuotes)
    else AppendFront([s[0]], Fields(s[1..], inQuotes))
  }

  /** The fields finished so far, the current one, and the fields still to read. */
  function Glue(done: seq<string>, current: string, rest: seq<string>): seq<string>
    requires |rest| >= 1
  {
    done + AppendFront(current, rest)
  }

  lemma GlueChar(done: seq<string>, current: string, c: string, rest: seq<string>)
    requires |rest| >= 1
    ensures Glue(done, current, AppendFront(c, rest)) == Glue(done, current + c, rest)
  {
    assert current + (c + rest[0]) == (current + c) + rest[0];
  }

  lemma GlueComma(done: seq<string>, current: string, rest: seq<string>)
    requires |rest| >= 1
    ensures Glue(done, current, [""] + rest) == Glue(done + [current], "", rest)
  {
    assert current + "" == current;
    assert "" + rest[0] == rest[0];
    assert ([""] + rest)[1..] == rest;
    assert [rest[0]] + rest[1..] == rest;
  }

  /** `parseCSVLine`. */
  method ParseCsvLine(line: string) returns (result: seq<string>)
    ensures result == Fields(line, false)
    ensures |result| >= 1
  {
    result := [];
    var current := "";
    var inQuotes := false;
    var i := 0;
    ghost var all := Fields(line, false);
    assert "" + all[0] == all[0] && [all[0]] + all[1..] == all;
    assert line[0..] == line;
    while i < |line|
      invariant 0 <= i <= |line|
      invariant Glue(result, current, Fields(line[i..], inQuotes)) == Fields(line, false)
    {
      var c := line[i];
      assert line[i..][1..] == line[i + 1..];
      if c == '"' {
        if inQuotes && i + 1 < |line| && line[i + 1] == '"' {
          assert line[i..][2..] == line[i + 2..];
          assert Fields(line[i..], inQuotes) == AppendFront("\"", Fields(line[i + 2..], inQuotes));
          GlueChar(result, current, "\"", Fields(line[i + 2..], inQuotes));
          current := current + "\"";
          i := i + 1;
        } else {
          assert Fields(line[i..], inQuotes) == Fields(line[i + 1..], !inQuotes);
          inQuotes := !inQuotes;
        }
      } else if c == ',' && !inQuotes {
        assert Fields(line[i..], inQuotes) == [""] + Fields(line[i + 1..], inQuotes);
        GlueComma(result, current, Fields(line[i + 1..], inQuotes));
        result := result + [current];
        current := "";
      } else {
        assert Fields(line[i..], inQuotes) == AppendFront([c], Fields(line[i + 1..], inQuotes));
        GlueChar(result, current, [c], Fields(line[i + 1..], inQuotes));
        current := current + [c];
      }
      i := i + 1;
    }
    assert line[i..] == [];
    assert current + "" == current;
    result := result + [current];
  }

  // ---------------------------------------------------------------------
  // What the tokenizer does
  // ---------------------------------------------------------------------

  /** The commas the tokenizer sees outside quotes. */
  function CommasOutside(s: string, inQuotes: bool): nat
    decreases |s|
  {
    if s == [] then 0
    else if s[0] == '"' then
      if inQuotes && |s| >= 2 && s[1] == '"' then CommasOutside(s[2..], inQuotes)
      else CommasOutside(s[1..], !inQuotes)
    else if s[0] == ',' && !inQuotes then 1 + CommasOutside(s[1..], inQuotes)
    else CommasOutside(s[1..], inQuotes)
  }

  /** One field more than there are commas outside quotes. */
  lemma {:induction false} FieldCount(s: string, inQuotes: bool)
    ensures |Fields(s, inQuotes)| == CommasOutside(s, inQuotes) + 1
    decreases |s|
  {
    if s == [] {
    } else if s[0] == '"' {
      if inQuotes && |s| >= 2 && s[1] == '"' {
        FieldCount(s[2..], inQuotes);
      } else {
        FieldCount(s[1..], !inQuotes);
      }
    } else {
      FieldCount(s[1..], inQuotes);
    }
  }

  /**
   * A run without double quotes joins the current field whole: inside
   * quotes, commas and line feeds included; outside quotes, when it holds
   * no comma.
   */
  lemma {:induction false} RunKept(a: string, rest: string, inQuotes: bool)
    requires '"' !in a && (!inQuotes ==> ',' !in a)
    ensures Fields(a + rest, inQuotes) == AppendFront(a, Fields(rest, inQuotes))
    decreases |a|
  {
    var t := Fields(rest, inQuotes);
    if a == [] {
      assert a + rest == rest;
      assert a + t[0] == t[0];
      assert [t[0]] + t[1..] == t;
    } else {
      var s := a + rest;
      assert s[0] == a[0] && a[0] in a;
      assert s[1..] == a[1..] + rest;
      RunKept(a[1..], rest, inQuotes);
      assert [a[0]] + (a[1..] + t[0]) == a + t[0];
    }
  }

  /** A line with no double quote and no comma is one field, the line itself. */
  lemma PlainLine(line: string)
    requires '"' !in line && ',' !in line
    ensures Fields(line, false) == [line]
  {
    RunKept(line, "", false);
    assert line + "" == line;
  }

  /** A comma inside quotes stays in the field: `"a,b"` is one field `a,b`. */
  lemma QuotedComma(a: string, b: string)
    requires '"' !in a && '"' !in b
    ensures Fields("\"" + a + "," + b + "\"", false) == [a + "," + b]
  {
    var s := "\"" + a + "," + b + "\"";
    var inner := a + "," + b;
    assert s[0] == '"';
    assert s[1..] == inner + "\"";
    assert '"' !in inner by {
      assert forall k :: 0 <= k < |inner| ==> inner[k] == (if k < |a| then a[k] else if k == |a| then ',' else b[k - |a| - 1]);
    }
    RunKept(inner, "\"", true);
    assert Fields("\"", true) == Fields("", false) == [""];
    assert inner + "" == inner;
    assert Fields(s, false) == Fields(s[1..], true);
  }

  /** No two double quotes side by side. */
  predicate NoDoubledQuote(s: string) {
    forall i :: 0 <= i < |s| - 1 ==> !(s[i] == '"' && s[i + 1] == '"')
  }

  /** Without a doubled quote, no field ever holds a double quote. */
  lemma {:induction false} LoneQuotesNotEmitted(s: string, inQuotes: bool)
    requires NoDoubledQuote(s)
    ensures forall k :: 0 <= k < |Fields(s, inQuotes)| ==> '"' !in Fields(s, inQuotes)[k]
    decreases |s|
  {
    if s != [] {
      assert NoDoubledQuote(s[1..]) by {
        forall i | 0 <= i < |s[1..]| - 1 ensures !(s[1..][i] == '"' && s[1..][i + 1] == '"') {
          assert s[1..][i] == s[i + 1] && s[1..][i + 1] == s[i + 2];
        }
      }
      if s[0] == '"' {
        LoneQuotesNotEmitted(s[1..], !inQuotes);
      } else {
        LoneQuotesNotEmitted(s[1..], inQuotes);
      }
    }
  }

  // ---------------------------------------------------------------------
  // The round trip with escapeValue
  // ---------------------------------------------------------------------

  /**
   * Inside quotes, a doubled-quote run followed by the closing quote reads
   * back as the original text, provided what follows the closing quote is
   * the end of the line or a comma.
   */
  lemma {:induction false} ReadDoubled(f: string, rest: string)
    requires rest == [] || rest[0] == ','
    ensures Fields(DoubleQuotes(f) + "\"" + rest, true) == AppendFront(f, Fields(rest, false))
    decreases |f|
  {
    var t := Fields(rest, false);
    if f == [] {
      assert DoubleQuotes(f) + "\"" + rest == ['"'] + rest;
      CloseQuote(rest);
      assert [t[0]] + t[1..] == t;
    } else {
      var tail := DoubleQuotes(f[1..]) + "\"" + rest;
      ReadDoubled(f[1..], rest);
      DoubleQuotesHead(f, rest);
      if f[0] == '"' {
        DoubledStep(tail);
      } else {
        PlainStep(f[0], tail);
      }
      AppendFrontTwice([f[0]], f[1..], t);
      assert [f[0]] + f[1..] == f;
    }
  }

  /** The closing quote, before the end of the line or a comma, is dropped and ends the quotes. */
  lemma CloseQuote(rest: string)
    requires rest == [] || rest[0] == ','
    ensures Fields(['"'] + rest, true) == Fields(rest, false)
  {
    assert (['"'] + rest)[1..] == rest;
  }

  /** Inside quotes, a doubled quote is one literal quote. */
  lemma DoubledStep(tail: string)
    ensures Fields("\"\"" + tail, true) == AppendFront("\"", Fields(tail, true))
  {
    assert ("\"\"" + tail)[2..] == tail;
  }

  /** Inside quotes, any other character joins the field, a comma included. */
  lemma PlainStep(c: char, tail: string)
    requires c != '"'
    ensures Fields([c] + tail, true) == AppendFront([c], Fields(tail, true))
  {
    assert ([c] + tail)[1..] == tail;
  }

  /** The doubled text of a non-empty value starts with its first character, doubled if it is a quote. */
  lemma DoubleQuotesHead(f: string, rest: string)
    requires f != []
    ensures DoubleQuotes(f) + "\"" + rest
      == (if f[0] == '"' then "\"\"" else [f[0]]) + (DoubleQuotes(f[1..]) + "\"" + rest)
  {
    Regroup(if f[0] == '"' then "\"\"" else [f[0]], DoubleQuotes(f[1..]), "\"", rest);
  }

  /** Concatenation regrouped to the right. */
  lemma Regroup(a: string, b: string, c: string, d: string)
    ensures a + b + c + d == a + (b + c + d)
  {
  }

  lemma AppendFrontTwice(x: string, y: string, t: seq<string>)
    requires |t| >= 1
    ensures AppendFront(x, AppendFront(y, t)) == AppendFront(x + y, t)
  {
    assert x + (y + t[0]) == (x + y) + t[0];
  }

  /** A quoted value opens quotes, reads back its doubled text, and closes them. */
  lemma ReadQuoted(f: string, rest: string)
    requires NeedsQuoting(f)
    requires rest == [] || rest[0] == ','
    ensures Fields(EscapeValue(f) + rest, false) == AppendFront(f, Fields(rest, false))
  {
    QuotedShape(f, rest);
    OpenQuote(DoubleQuotes(f) + "\"" + rest);
    ReadDoubled(f, rest);
  }

  /** A quoted value followed by more text: the opening quote, then the doubled text and the closing quote. */
  lemma QuotedShape(f: string, rest: string)
    requires NeedsQuoting(f)
    ensures EscapeValue(f) + rest == ['"'] + (DoubleQuotes(f) + "\"" + rest)
  {
    assert EscapeValue(f) == ['"'] + DoubleQuotes(f) + "\"";
    Regroup(['"'], DoubleQuotes(f), "\"", rest);
  }

  /** A quote outside quotes is dropped and opens them. */
  lemma OpenQuote(body: string)
    ensures Fields(['"'] + body, false) == Fields(body, true)
  {
    assert (['"'] + body)[1..] == body;
  }

  /** An escaped value reads back as the value itself, up to the next comma. */
  lemma ReadEscaped(f: string, rest: string)
    requires rest == [] || rest[0] == ','
    ensures Fields(EscapeValue(f) + rest, false) == AppendFront(f, Fields(rest, false))
  {
    if NeedsQuoting(f) {
      ReadQuoted(f, rest);
    } else {
      assert EscapeValue(f) == f;
      RunKept(f, rest, false);
    }
  }

  /** Escaping every value, joining with commas, then parsing gives the values back. */
  lemma LineRoundTrip(fs: seq<string>)
    requires |fs| >= 1
    ensures Fields(CsvLine(fs), false) == fs
  {
    JoinedRoundTrip(fs, seq(|fs|, i requires 0 <= i < |fs| => EscapeValue(fs[i])));
  }

  /** LineRoundTrip, by induction over the escaped values `esc` of `fs`. */
  lemma {:induction false} JoinedRoundTrip(fs: seq<string>, esc: seq<string>)
    requires |fs| >= 1 && |esc| == |fs|
    requires forall i :: 0 <= i < |fs| ==> esc[i] == EscapeValue(fs[i])
    ensures Fields(JoinWith(esc, ','), false) == fs
    decreases |fs|
  {
    if |fs| == 1 {
      ReadEscaped(fs[0], "");
      assert JoinWith(esc, ',') == esc[0] == EscapeValue(fs[0]);
      assert esc[0] + "" == esc[0];
      assert fs[0] + "" == fs[0] && [fs[0]] == fs;
    } else {
      var tail := JoinWith(esc[1..], ',');
      assert JoinWith(esc, ',') == esc[0] + ("," + tail);
      JoinedRoundTrip(fs[1..], esc[1..]);
      ReadEscaped(fs[0], "," + tail);
      assert ("," + tail)[1..] == tail;
      assert fs[0] + "" == fs[0];
      assert [fs[0]] + fs[1..] == fs;
    }
  }

  // ---------------------------------------------------------------------
  // A whole file
  // ---------------------------------------------------------------------

  /** `lines.filter(line => line.trim())`. */
  function NonBlank(lines: seq<string>): (kept: seq<string>)
    ensures |kept| <= |lines|
    ensures forall k :: 0 <= k < |kept| ==> !IsBlank(kept[k])
    ensures forall k :: 0 <= k < |lines| && !IsBlank(lines[k]) ==> lines[k] in kept
    decreases |lines|
  {
    if lines == [] then []
    else
      var rest := NonBlank(lines[1..]);
      if IsBlank(lines[0]) then rest else [lines[0]] + rest
  }

  /** Filtering distributes over concatenation: every non-blank line is kept, in order. */
  lemma {:induction false} NonBlankAppend(a: seq<string>, b: seq<string>)
    ensures NonBlank(a + b) == NonBlank(a) + NonBlank(b)
    decreases |a|
  {
    if a != [] {
      assert (a + b)[1..] == a[1..] + b;
      NonBlankAppend(a[1..], b);
      assert (a + b)[0] == a[0];
    } else {
      assert a + b == b;
    }
  }

  /** A single line is kept exactly when it is not blank. */
  lemma NonBlankOne(line: string)
    ensures NonBlank([line]) == (if IsBlank(line) then [] else [line])
  {
  }

  /** Dropping blank lines keeps a list that has none as it is. */
  lemma {:induction false} NonBlankKeepsAll(lines: seq<string>)
    requires forall k :: 0 <= k < |lines| ==> !IsBlank(lines[k])
    ensures NonBlank(lines) == lines
    decreases |lines|
  {
    if lines != [] {
      NonBlankKeepsAll(lines[1..]);
      assert [lines[0]] + lines[1..] == lines;
    }
  }

  /** The header line without a leading byte-order mark. */
  function StripBom(line: string): (r: string)
    ensures line != [] && line[0] == '\U{FEFF}' ==> r == line[1..]
    ensures !(line != [] && line[0] == '\U{FEFF}') ==> r == line
  {
    if line != [] && line[0] == '\U{FEFF}' then line[1..] else line
  }

  /** `values[index]?.trim() || ''`. */
  function CellValue(values: seq<string>, j: nat): string {
    if j < |values| then Trim(values[j]) else ""
  }

  /** Each header trimmed, in order. */
  function TrimmedHeaders(headers: seq<string>): (names: seq<string>)
    ensures |names| == |headers|
    ensures forall i :: 0 <= i < |headers| ==> names[i] == Trim(headers[i])
    decreases |headers|
  {
    if headers == [] then [] else TrimmedHeaders(headers[..|headers| - 1]) + [Trim(headers[|headers| - 1])]
  }

  /** `headers.forEach((header, index) => row[header.trim()] = ...)`: a later header wins. */
  function RowMap(headers: seq<string>, values: seq<string>): (row: map<string, string>)
    ensures |headers| > 0 ==> Trim(headers[|headers| - 1]) in row && row[Trim(headers[|headers| - 1])] == CellValue(values, |headers| - 1)
    decreases |headers|
  {
    if headers == [] then map[]
    else
      var n := |headers| - 1;
      RowMap(headers[..n], values)[Trim(headers[n]) := CellValue(values, n)]
  }

  /** A row's keys are exactly the trimmed header names. */
  lemma {:induction false} RowMapKeys(headers: seq<string>, values: seq<string>)
    ensures forall k :: k in RowMap(headers, values) <==> k in TrimmedHeaders(headers)
    decreases |headers|
  {
    if headers != [] {
      RowMapKeys(headers[..|headers| - 1], values);
    }
  }

  /** With header names distinct after trimming, each one maps to its own column's value. */
  lemma {:induction false} RowMapLookup(headers: seq<string>, values: seq<string>, j: nat)
    requires j < |headers|
    requires forall a, b :: 0 <= a < b < |headers| ==> Trim(headers[a]) != Trim(headers[b])
    ensures Trim(headers[j]) in RowMap(headers, values)
    ensures RowMap(headers, values)[Trim(headers[j])] == CellValue(values, j)
    decreases |headers|
  {
    var n := |headers| - 1;
    if j < n {
      var prefix := headers[..n];
      assert forall a :: 0 <= a < n ==> prefix[a] == headers[a];
      RowMapLookup(prefix, values, j);
      assert Trim(headers[n]) != Trim(headers[j]);
    }
  }

  /** One row object per data line, in order. */
  function RowsOf(headers: seq<string>, lines: seq<string>): (rows: seq<map<string, string>>)
    ensures |rows| == |lines|
    decreases |lines|
  {
    if lines == [] then [] else [RowMap(headers, Fields(lines[0], false))] + RowsOf(headers, lines[1..])
  }

  lemma {:induction false} RowsOfAt(headers: seq<string>, lines: seq<string>, i: nat)
    requires i < |lines|
    ensures RowsOf(headers, lines)[i] == RowMap(headers, Fields(lines[i], false))
    decreases i
  {
    if i > 0 {
      RowsOfAt(headers, lines[1..], i - 1);
    }
  }

  /** `parseCSV`, as a function of the file text. */
  function ParseCsvSpec(text: string): (rows: seq<map<string, string>>)
    ensures var lines := NonBlank(SplitOn(text, '\n'));
      |rows| == if |lines| < 2 then 0 else |lines| - 1
  {
    var lines := NonBlank(SplitOn(text, '\n'));
    if |lines| < 2 then []
    else RowsOf(Fields(StripBom(lines[0]), false), lines[1..])
  }

  /**
   * What `parseCSV` yields: nothing when fewer than two non-blank lines
   * remain; otherwise one row per non-blank line after the header, built
   * from the header line (its byte-order mark removed) and that line.
   */
  lemma ParseCsvRows(text: string)
    ensures var lines := NonBlank(SplitOn(text, '\n'));
      var rows := ParseCsvSpec(text);
      && (|lines| < 2 ==> rows == [])
      && (|lines| >= 2 ==> |rows| == |lines| - 1 && forall i :: 0 <= i < |rows| ==>
            rows[i] == RowMap(Fields(StripBom(lines[0]), false), Fields(lines[i + 1], false)))
  {
    var lines := NonBlank(SplitOn(text, '\n'));
    if |lines| >= 2 {
      var headers := Fields(StripBom(lines[0]), false);
      forall i | 0 <= i < |lines| - 1
        ensures ParseCsvSpec(text)[i] == RowMap(headers, Fields(lines[i + 1], false))
      {
        RowsOfAt(headers, lines[1..], i);
      }
    }
  }

  /** The text of a file with header values `hs` and rows `cells`, as the export lays it out. */
  function FileText(hs: seq<string>, cells: seq<seq<string>>): string {
    Bom + CsvLine(hs) + "\n" + JoinWith(RowLines(cells), '\n')
  }

  /** Values fit for a file: two or more columns, rows as wide as the header, no line feeds. */
  predicate FileShaped(hs: seq<string>, cells: seq<seq<string>>) {
    && |hs| >= 2
    && (forall j :: 0 <= j < |hs| ==> '\n' !in hs[j])
    && (forall i :: 0 <= i < |cells| ==> |cells[i]| == |hs|)
    && (forall i, j :: 0 <= i < |cells| && 0 <= j < |cells[i]| ==> '\n' !in cells[i][j])
  }

  /** The first line of a file: the mark and the header line, one non-blank line. */
  lemma HeaderLineReads(hs: seq<string>)
    requires |hs| >= 2 && forall j :: 0 <= j < |hs| ==> '\n' !in hs[j]
    ensures var first := Bom + CsvLine(hs);
      && '\n' !in first && !IsBlank(first)
      && Fields(StripBom(first), false) == hs
  {
    var header := CsvLine(hs);
    var first := Bom + header;
    CsvLineNoLineFeed(hs);
    CsvLineHasComma(hs);
    assert '\n' !in first;
    var k :| 0 <= k < |header| && header[k] == ',';
    assert first[k + 1] == ',';
    NotBlankAt(first, k + 1);
    assert first[0] == '\U{FEFF}' && first[1..] == header;
    LineRoundTrip(hs);
  }

  /** Every row line of a file is one non-blank line. */
  lemma RowLinesRead(cells: seq<seq<string>>)
    requires forall i :: 0 <= i < |cells| ==> |cells[i]| >= 2
    requires forall i, j :: 0 <= i < |cells| && 0 <= j < |cells[i]| ==> '\n' !in cells[i][j]
    ensures forall i :: 0 <= i < |cells| ==> '\n' !in RowLines(cells)[i] && !IsBlank(RowLines(cells)[i])
  {
    var lines := RowLines(cells);
    forall i | 0 <= i < |lines| ensures '\n' !in lines[i] && !IsBlank(lines[i]) {
      CsvLineNoLineFeed(cells[i]);
      CsvLineHasComma(cells[i]);
      var k :| 0 <= k < |lines[i]| && lines[i][k] == ',';
      NotBlankAt(lines[i], k);
    }
  }

  /** The non-blank lines of a file: the first line, then one line per row. */
  lemma FileLines(hs: seq<string>, cells: seq<seq<string>>)
    requires FileShaped(hs, cells)
    ensures NonBlank(SplitOn(FileText(hs, cells), '\n')) == [Bom + CsvLine(hs)] + RowLines(cells)
  {
    var first := Bom + CsvLine(hs);
    var lines := RowLines(cells);
    var body := JoinWith(lines, '\n');
    var content := FileText(hs, cells);
    assert content == first + ['\n'] + body;
    HeaderLineReads(hs);
    RowLinesRead(cells);
    SplitAfterPart(first, '\n', body);
    if |lines| == 0 {
      assert SplitOn(content, '\n') == [first, ""];
      assert IsBlank("");
      assert NonBlank([first, ""]) == [first] + NonBlank([""]);
    } else {
      SplitJoin(lines, '\n');
      NonBlankKeepsAll([first] + lines);
    }
  }

  /** A file parses to one row object per row line, keyed by its header line. */
  lemma FileParsesToRows(hs: seq<string>, cells: seq<seq<string>>)
    requires FileShaped(hs, cells)
    ensures ParseCsvSpec(FileText(hs, cells)) == RowsOf(hs, RowLines(cells))
  {
    var lines := RowLines(cells);
    var first := Bom + CsvLine(hs);
    FileLines(hs, cells);
    HeaderLineReads(hs);
    var all := [first] + lines;
    assert all[0] == first && all[1..] == lines;
  }

  /** Parsed rows that give back, under each header name, the trimmed value of that column. */
  predicate ReadsBack(rows: seq<map<string, string>>, names: seq<string>, cells: seq<seq<string>>) {
    |rows| == |cells| &&
    forall i, j :: 0 <= i < |rows| && 0 <= j < |names| && j < |cells[i]| ==>
      names[j] in rows[i] && rows[i][names[j]] == Trim(cells[i][j])
  }

  /** Header names as the export writes them: distinct, without surrounding whitespace. */
  predicate CleanHeaders(hs: seq<string>) {
    && (forall j :: 0 <= j < |hs| ==> Trim(hs[j]) == hs[j])
    && (forall a, b :: 0 <= a < b < |hs| ==> hs[a] != hs[b])
  }

  /** One value of a parsed file row. */
  lemma FileCell(hs: seq<string>, cells: seq<seq<string>>, i: nat, j: nat)
    requires FileShaped(hs, cells) && CleanHeaders(hs) && i < |cells| && j < |hs|
    ensures var rows := RowsOf(hs, RowLines(cells));
      hs[j] in rows[i] && rows[i][hs[j]] == Trim(cells[i][j])
  {
    RowsOfAt(hs, RowLines(cells), i);
    LineRoundTrip(cells[i]);
    RowMapLookup(hs, cells[i], j);
  }

  /**
   * A file reads back: when no value holds a line feed and the header names
   * are clean, `parseCSV` yields one row per line, mapping every header name
   * to that row's value, trimmed.
   */
  lemma FileRoundTrip(hs: seq<string>, cells: seq<seq<string>>)
    requires FileShaped(hs, cells) && CleanHeaders(hs)
    ensures ReadsBack(ParseCsvSpec(FileText(hs, cells)), hs, cells)
  {
    FileParsesToRows(hs, cells);
    var rows := RowsOf(hs, RowLines(cells));
    forall i, j | 0 <= i < |rows| && 0 <= j < |hs| && j < |cells[i]|
      ensures hs[j] in rows[i] && rows[i][hs[j]] == Trim(cells[i][j])
    {
      FileCell(hs, cells, i, j);
    }
  }

  /**
   * The exported file reads back: when no exported value holds a line feed,
   * `parseCSV` of the export yields one row per receipt, mapping every header
   * to that receipt's value, trimmed.
   */
  lemma ExportThenParse(receipts: seq<Receipt>, day: string -> string, stamp: string -> string)
    requires forall i, j :: 0 <= i < |receipts| && 0 <= j < |Headers| ==> '\n' !in Rows(receipts, day, stamp)[i][j]
    ensures ReadsBack(ParseCsvSpec(CsvContent(receipts, day, stamp)), Headers, Rows(receipts, day, stamp))
  {
    var cells := Rows(receipts, day, stamp);
    HeadersTrimmed();
    HeadersDistinct();
    HeadersOneLine();
    assert FileText(Headers, cells) == CsvContent(receipts, day, stamp);
    FileRoundTrip(Headers, cells);
  }

  /** The row object `m` holds `value` under `name`. */
  predicate Holds(m: map<string, string>, name: string, value: string) {
    name in m && m[name] == value
  }

  /**
   * A parsed row object holds, under each header, the trimmed value of the
   * receipt field that header names.
   */
  predicate HoldsFields(m: map<string, string>, r: Receipt, index: nat, day: string -> string, stamp: string -> string) {
    && Holds(m, "S.N.", NatToString(index + 1))
    && Holds(m, "Receipt #", NatToString(r.receipt_number))
    && Holds(m, "Customer Name", Trim(r.customer_name))
    && Holds(m, "Phone", Trim(r.customer_phone))
    && Holds(m, "Email", Trim(OrEmpty(r.customer_email)))
    && Holds(m, "Device Type", Trim(r.device_type))
    && Holds(m, "Device Model", Trim(OrEmpty(r.device_model)))
    && Holds(m, "Serial Number", Trim(OrEmpty(r.serial_number)))
    && Holds(m, "Accessories", Trim(OrEmpty(r.accessories)))
    && Holds(m, "Problem Description", Trim(r.problem_description))
    && Holds(m, "Repair Notes", Trim(OrEmpty(r.repair_notes)))
    && Holds(m, "Device Password", Trim(OrEmpty(r.device_password)))
    && Holds(m, "Received Date", Trim(day(r.received_date)))
    && Holds(m, "Estimated Delivery", Trim(DateCell(r.estimated_delivery_date, day)))
    && Holds(m, "Actual Delivery", Trim(DateCell(r.actual_delivery_date, day)))
    && Holds(m, "Status", StatusName(r.status))
    && Holds(m, "Created At", Trim(stamp(r.created_at)))
    && Holds(m, "Updated At", Trim(stamp(r.updated_at)))
  }

  /** A number written in decimal has no surrounding whitespace. */
  lemma DigitsTrimmed(s: string)
    requires s != [] && AllDigits(s)
    ensures Trim(s) == s
  {
    assert IsDigit(s[0]) && IsDigit(s[|s| - 1]);
    TrimUnchanged(s);
  }

  /** A status name has no surrounding whitespace. */
  lemma StatusTrimmed(st: Status)
    ensures Trim(StatusName(st)) == StatusName(st)
  {
    TrimUnchanged(StatusName(st));
  }

  /** A row object that reads back the exported row of `r` holds its fields by name. */
  lemma ReadBackNamesFields(m: map<string, string>, row: seq<string>, r: Receipt, index: nat, day: string -> string, stamp: string -> string)
    requires row == Row(r, index, day, stamp)
    requires forall j :: 0 <= j < |Headers| ==> Holds(m, Headers[j], Trim(row[j]))
    ensures HoldsFields(m, r, index, day, stamp)
  {
    HeaderNames();
    CustomerColumns(r, index, day, stamp);
    DeviceColumns(r, index, day, stamp);
    RepairColumns(r, index, day, stamp);
    DigitsTrimmed(row[0]);
    DigitsTrimmed(row[1]);
    StatusTrimmed(r.status);
    assert Holds(m, Headers[0], Trim(row[0]));
    assert Holds(m, Headers[1], Trim(row[1]));
    assert Holds(m, Headers[2], Trim(row[2]));
    assert Holds(m, Headers[3], Trim(row[3]));
    assert Holds(m, Headers[4], Trim(row[4]));
    assert Holds(m, Headers[5], Trim(row[5]));
    assert Holds(m, Headers[6], Trim(row[6]));
    assert Holds(m, Headers[7], Trim(row[7]));
    assert Holds(m, Headers[8], Trim(row[8]));
    assert Holds(m, Headers[9], Trim(row[9]));
    assert Holds(m, Headers[10], Trim(row[10]));
    assert Holds(m, Headers[11], Trim(row[11]));
    assert Holds(m, Headers[12], Trim(row[12]));
    assert Holds(m, Headers[13], Trim(row[13]));
    assert Holds(m, Headers[14], Trim(row[14]));
    assert Holds(m, Headers[15], Trim(row[15]));
    assert Holds(m, Headers[16], Trim(row[16]));
    assert Holds(m, Headers[17], Trim(row[17]));
  }

  /**
   * The backup read back by name: the `i`-th parsed row holds, under each
   * header, the trimmed value of the `i`-th receipt's field that header names.
   */
  lemma ExportedFieldsReadBack(receipts: seq<Receipt>, day: string -> string, stamp: string -> string, i: nat)
    requires forall i, j :: 0 <= i < |receipts| && 0 <= j < |Headers| ==> '\n' !in Rows(receipts, day, stamp)[i][j]
    requires i < |receipts|
    ensures var rows := ParseCsvSpec(CsvContent(receipts, day, stamp));
      |rows| == |receipts| && HoldsFields(rows[i], receipts[i], i, day, stamp)
  {
    ExportThenParse(receipts, day, stamp);
    var rows := ParseCsvSpec(CsvContent(receipts, day, stamp));
    var cells := Rows(receipts, day, stamp);
    assert ReadsBack(rows, Headers, cells);
    assert |cells[i]| == |Headers|;
    forall j | 0 <= j < |Headers| ensures Holds(rows[i], Headers[j], Trim(cells[i][j])) {
    }
    ReadBackNamesFields(rows[i], cells[i], receipts[i], i, day, stamp);
  }

  /** The `forEach` that fills one row object from a line's values. */
  method FillRow(headers: seq<string>, values: seq<string>) returns (row: map<string, string>)
    ensures row == RowMap(headers, values)
  {
    row := map[];
    var j := 0;
    while j < |headers|
      invariant 0 <= j <= |headers| && row == RowMap(headers[..j], values)
    {
      assert headers[..j + 1][..j] == headers[..j];
      row := row[Trim(headers[j]) := CellValue(values, j)];
      j := j + 1;
    }
    assert headers[..|headers|] == headers;
  }

  /** `parseCSV`. */
  method ParseCsv(text: string) returns (rows: seq<map<string, string>>)
    ensures rows == ParseCsvSpec(text)
  {
    var lines := NonBlank(SplitOn(text, '\n'));
    if |lines| < 2 {
      return [];
    }
    var headerLine := lines[0];
    if headerLine != [] && headerLine[0] == '\U{FEFF}' {
      headerLine := headerLine[1..];
    }
    var headers := ParseCsvLine(headerLine);
    assert headers == Fields(StripBom(lines[0]), false);
    rows := ReadRows(headers, lines[1..]);
  }

  /** The `for` loop of `parseCSV` over the data lines. */
  method ReadRows(headers: seq<string>, lines: seq<string>) returns (rows: seq<map<string, string>>)
    ensures rows == RowsOf(headers, lines)
  {
    rows := [];
    var i := 0;
    assert lines == lines[i..];
    while i < |lines|
      invariant 0 <= i <= |lines|
      invariant rows + RowsOf(headers, lines[i..]) == RowsOf(headers, lines)
    {
      var values := ParseCsvLine(lines[i]);
      var row := FillRow(headers, values);
      assert lines[i..][1..] == lines[i + 1..];
      assert rows + RowsOf(headers, lines[i..]) == (rows + [row]) + RowsOf(headers, lines[i + 1..]);
      rows := rows + [row];
      i := i + 1;
    }
    assert rows + RowsOf(headers, lines[i..]) == rows;
  }

  // ---------------------------------------------------------------------
  // Importing the rows
  // ---------------------------------------------------------------------

  /** The record handed to the database insert. */
  datatype InsertData = InsertData(
    customer_name: string,
    customer_phone: string,
    customer_email: Option<string>,
    device_type: string,
    device_model: Option<string>,
    serial_number: Option<string>,
    accessories: Option<string>,
    problem_description: string,
    repair_notes: Option<string>,
    device_password: Option<string>,
    received_date: string,
    estimated_delivery_date: Option<string>,
    actual_delivery_date: Option<string>,
    status: string)

  /** What the database insert did with one record. */
  datatype InsertOutcome =
    | Inserted
    | DbError(message: string)     // the insert returned an error
    | Threw(message: string)       // the call raised an exception

  /** `row[key]`, with an absent column read as the empty string. */
  function Get(row: map<string, string>, key: string): string {
    if key in row then row[key] else ""
  }

  /**
   * `parseDate`: blank text is no date; any other text is kept when the
   * date-fns `yyyy-MM-dd` parse (the parameter `accepts`) succeeds.
   */
  function ParseDate(s: string, accepts: string -> bool): (r: Option<string>)
    ensures IsBlank(s) ==> r == None
    ensures r.Some? <==> !IsBlank(s) && accepts(s)
    ensures r.Some? ==> r.value == s
  {
    if IsBlank(s) then None
    else if accepts(s) then Some(s)
    else None
  }

  /** The four columns a row must have. */
  predicate HasRequired(row: map<string, string>) {
    && Get(row, "Customer Name") != ""
    && Get(row, "Phone") != ""
    && Get(row, "Device Type") != ""
    && Get(row, "Problem Description") != ""
  }

  /** The insert record of a valid row; `today` is the date part of now. */
  function ToInsert(row: map<string, string>, today: string, accepts: string -> bool): (d: InsertData)
    requires HasRequired(row)
    ensures d.customer_name == Get(row, "Customer Name") && d.customer_phone == Get(row, "Phone")
    ensures d.device_type == Get(row, "Device Type") && d.problem_description == Get(row, "Problem Description")
    ensures d.customer_name != "" && d.customer_phone != "" && d.device_type != "" && d.problem_description != ""
    ensures d.status != "" && (Get(row, "Status") == "" ==> d.status == "received")
    ensures Get(row, "Status") != "" ==> d.status == Get(row, "Status")
    ensures ParseDate(Get(row, "Received Date"), accepts).Some? ==> d.received_date == Get(row, "Received Date")
    ensures ParseDate(Get(row, "Received Date"), accepts).None? ==> d.received_date == today
  {
    InsertData(
      Get(row, "Customer Name"),
      Get(row, "Phone"),
      OrNull(Get(row, "Email")),
      Get(row, "Device Type"),
      OrNull(Get(row, "Device Model")),
      OrNull(Get(row, "Serial Number")),
      OrNull(Get(row, "Accessories")),
      Get(row, "Problem Description"),
      OrNull(Get(row, "Repair Notes")),
      OrNull(Get(row, "Device Password")),
      ParseDate(Get(row, "Received Date"), accepts).GetOr(today),
      ParseDate(Get(row, "Estimated Delivery"), accepts),
      ParseDate(Get(row, "Actual Delivery"), accepts),
      if Get(row, "Status") == "" then "received" else Get(row, "Status"))
  }

  /** The running totals of the import, and the records handed to the insert. */
  datatype Tally = Tally(success: nat, failed: nat, errors: seq<string>, inserts: seq<InsertData>)

  function MissingMessage(row: map<string, string>): string {
    "Row missing required fields: " + (if Get(row, "Customer Name") == "" then "Unknown" else Get(row, "Customer Name"))
  }

  /**
   * One pass of the loop body for the `index`-th row: the row is counted
   * once, with one message per failure, and its record is handed over only
   * when the row is valid.
   */
  function Step(t: Tally, row: map<string, string>, index: nat, insert: (nat, InsertData) -> InsertOutcome,
                now: nat -> string, accepts: string -> bool): (u: Tally)
    ensures u.success + u.failed == t.success + t.failed + 1
    ensures |u.errors| - u.failed == |t.errors| - t.failed
    ensures u.inserts == t.inserts + (if HasRequired(row) then [ToInsert(row, Before(now(index), 'T'), accepts)] else [])
    ensures !HasRequired(row) ==> u.success == t.success && u.failed == t.failed + 1 && u.errors == t.errors + [MissingMessage(row)]
    ensures HasRequired(row) ==>
      (u.success == t.success + 1 <==> insert(index, ToInsert(row, Before(now(index), 'T'), accepts)).Inserted?)
  {
    if !HasRequired(row) then
      Tally(t.success, t.failed + 1, t.errors + [MissingMessage(row)], t.inserts)
    else
      var data := ToInsert(row, Before(now(index), 'T'), accepts);
      match insert(index, data)
      case Inserted => Tally(t.success + 1, t.failed, t.errors, t.inserts + [data])
      case DbError(m) =>
        Tally(t.success, t.failed + 1, t.errors + ["Failed to insert: " + Get(row, "Customer Name") + " - " + m], t.inserts + [data])
      case Threw(m) => Tally(t.success, t.failed + 1, t.errors + ["Error processing row: " + m], t.inserts + [data])
  }

  /**
   * The tally after the first `k` rows: each of them counted exactly once,
   * as a success or a failure, with one error message per failure.
   */
  function ImportSpec(rows: seq<map<string, string>>, k: nat, insert: (nat, InsertData) -> InsertOutcome,
                      now: nat -> string, accepts: string -> bool): (t: Tally)
    requires k <= |rows|
    ensures t.success + t.failed == k && |t.errors| == t.failed
    decreases k
  {
    if k == 0 then Tally(0, 0, [], [])
    else Step(ImportSpec(rows, k - 1, insert, now, accepts), rows[k - 1], k - 1, insert, now, accepts)
  }

  /** The insert records of the valid rows among `rows`, in order. */
  function ValidInserts(rows: seq<map<string, string>>, now: nat -> string, accepts: string -> bool): (ds: seq<InsertData>)
    ensures |ds| <= |rows|
    decreases |rows|
  {
    if rows == [] then []
    else
      var n := |rows| - 1;
      ValidInserts(rows[..n], now, accepts) + (if HasRequired(rows[n]) then [ToInsert(rows[n], Before(now(n), 'T'), accepts)] else [])
  }

  /** The `i`-th row is valid and its insert reports no error. */
  predicate Succeeds(rows: seq<map<string, string>>, i: nat, insert: (nat, InsertData) -> InsertOutcome,
                     now: nat -> string, accepts: string -> bool)
    requires i < |rows|
  {
    HasRequired(rows[i]) && insert(i, ToInsert(rows[i], Before(now(i), 'T'), accepts)).Inserted?
  }

  /** How many of the first `k` rows succeed. */
  function InsertedCount(rows: seq<map<string, string>>, k: nat, insert: (nat, InsertData) -> InsertOutcome,
                         now: nat -> string, accepts: string -> bool): (n: nat)
    requires k <= |rows|
    ensures n <= k
    decreases k
  {
    if k == 0 then 0
    else InsertedCount(rows, k - 1, insert, now, accepts) + (if Succeeds(rows, k - 1, insert, now, accepts) then 1 else 0)
  }

  /** The rows among the first `k` that lack a required field. */
  function InvalidCount(rows: seq<map<string, string>>, k: nat): (n: nat)
    requires k <= |rows|
    ensures n <= k
    decreases k
  {
    if k == 0 then 0 else InvalidCount(rows, k - 1) + (if HasRequired(rows[k - 1]) then 0 else 1)
  }

  /**
   * `success` counts exactly the rows whose insert reported no error, and
   * every other row is counted as failed; in particular every row missing
   * a required field is among the failures.
   */
  lemma {:induction false} ImportOutcomes(rows: seq<map<string, string>>, k: nat,
      insert: (nat, InsertData) -> InsertOutcome, now: nat -> string, accepts: string -> bool)
    requires k <= |rows|
    ensures var t := ImportSpec(rows, k, insert, now, accepts);
      && t.success == InsertedCount(rows, k, insert, now, accepts)
      && t.failed == k - InsertedCount(rows, k, insert, now, accepts)
      && t.failed >= InvalidCount(rows, k)
    decreases k
  {
    if k > 0 {
      ImportOutcomes(rows, k - 1, insert, now, accepts);
    }
  }

  /**
   * Every row is counted exactly once, as a success or a failure; each
   * failure leaves one error message; and the records handed to the insert
   * are those of the valid rows, in order, so an invalid row is never
   * inserted.
   */
  lemma ImportAccounting(rows: seq<map<string, string>>, k: nat,
      insert: (nat, InsertData) -> InsertOutcome, now: nat -> string, accepts: string -> bool)
    requires k <= |rows|
    ensures var t := ImportSpec(rows, k, insert, now, accepts);
      && t.success + t.failed == k
      && |t.errors| == t.failed
      && t.inserts == ValidInserts(rows[..k], now, accepts)
      && t.success == InsertedCount(rows, k, insert, now, accepts)
      && t.failed >= InvalidCount(rows, k)
  {
    ImportInserts(rows, k, insert, now, accepts);
    ImportOutcomes(rows, k, insert, now, accepts);
  }

  /** The insert-record half of ImportAccounting. */
  lemma {:induction false} ImportInserts(rows: seq<map<string, string>>, k: nat,
      insert: (nat, InsertData) -> InsertOutcome, now: nat -> string, accepts: string -> bool)
    requires k <= |rows|
    ensures ImportSpec(rows, k, insert, now, accepts).inserts == ValidInserts(rows[..k], now, accepts)
    decreases k
  {
    if k > 0 {
      ImportInserts(rows, k - 1, insert, now, accepts);
      assert rows[..k][..k - 1] == rows[..k - 1];
      assert rows[..k][k - 1] == rows[k - 1];
    }
  }

  /** A record handed to the insert has every required field and a status. */
  lemma {:induction false} InsertsAreValid(rows: seq<map<string, string>>, now: nat -> string, accepts: string -> bool)
    ensures forall d :: d in ValidInserts(rows, now, accepts) ==>
      d.customer_name != "" && d.customer_phone != "" && d.device_type != "" && d.problem_description != "" && d.status != ""
    decreases |rows|
  {
    if rows != [] {
      InsertsAreValid(rows[..|rows| - 1], now, accepts);
    }
  }

  /** The loop body of `importReceiptsFromCsv` for the `index`-th row. */
  method ImportRow(success: nat, failed: nat, errors: seq<string>, inserts: seq<InsertData>,
                   row: map<string, string>, index: nat, insert: (nat, InsertData) -> InsertOutcome,
                   now: nat -> string, accepts: string -> bool)
    returns (success': nat, failed': nat, errors': seq<string>, inserts': seq<InsertData>)
    ensures Tally(success', failed', errors', inserts')
         == Step(Tally(success, failed, errors, inserts), row, index, insert, now, accepts)
  {
    success', failed', errors', inserts' := success, failed, errors, inserts;
    if !HasRequired(row) {
      errors' := errors' + [MissingMessage(row)];
      failed' := failed' + 1;
    } else {
      var data := ToInsert(row, Before(now(index), 'T'), accepts);
      inserts' := inserts' + [data];
      var outcome := insert(index, data);
      match outcome {
        case Inserted =>
          success' := success' + 1;
        case DbError(m) =>
          errors' := errors' + ["Failed to insert: " + Get(row, "Customer Name") + " - " + m];
          failed' := failed' + 1;
        case Threw(m) =>
          errors' := errors' + ["Error processing row: " + m];
          failed' := failed' + 1;
      }
    }
  }

  /**
   * `importReceiptsFromCsv` after `parseCSV`: `insert` stands for the
   * database call, and `now(i)` for `new Date().toISOString()` evaluated
   * while the `i`-th row is processed.
   */
  method ImportReceipts(rows: seq<map<string, string>>, insert: (nat, InsertData) -> InsertOutcome,
                        now: nat -> string, accepts: string -> bool)
    returns (success: nat, failed: nat, errors: seq<string>, inserts: seq<InsertData>)
    ensures Tally(success, failed, errors, inserts) == ImportSpec(rows, |rows|, insert, now, accepts)
    ensures success + failed == |rows| && |errors| == failed
    ensures inserts == ValidInserts(rows, now, accepts)
    ensures success == InsertedCount(rows, |rows|, insert, now, accepts) && failed >= InvalidCount(rows, |rows|)
  {
    success, failed, errors, inserts := 0, 0, [], [];
    var i := 0;
    while i < |rows|
      invariant 0 <= i <= |rows|
      invariant Tally(success, failed, errors, inserts) == ImportSpec(rows, i, insert, now, accepts)
    {
      success, failed, errors, inserts := ImportRow(success, failed, errors, inserts, rows[i], i, insert, now, accepts);
      i := i + 1;
    }
    ImportAccounting(rows, |rows|, insert, now, accepts);
    assert rows[..|rows|] == rows;
  }
}
