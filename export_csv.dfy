/**
 * The receipts backup export: one CSV line per receipt under a fixed header,
 * each value escaped with the quoting rules of section 2 of RFC 4180
 * (rules 5 to 7), the whole prefixed with a byte-order mark.
 *
 * Dates are formatted by date-fns; the two formats used are parameters here
 * (`day` for `yyyy-MM-dd`, `stamp` for `yyyy-MM-dd HH:mm`).
 */
module ExportCsv {
  import opened Optional
  import opened Text
  import opened ReceiptTypes

  const Headers: seq<string> := [
    "S.N.", "Receipt #", "Customer Name", "Phone", "Email", "Device Type",
    "Device Model", "Serial Number", "Accessories", "Problem Description",
    "Repair Notes", "Device Password", "Received Date", "Estimated Delivery",
    "Actual Delivery", "Status", "Created At", "Updated At"]

  /** The byte-order mark put in front of the file. */
  const Bom: string := "\U{FEFF}"

  /** A value holding a comma, a double quote or a line feed must be quoted. */
  predicate NeedsQuoting(s: string) {
    ',' in s || '"' in s || '\n' in s
  }

  /** `s.replace(/"/g, '""')`: every double quote doubled, everything else kept. */
  function DoubleQuotes(s: string): (r: string)
    ensures '"' !in s ==> r == s
    ensures |r| >= |s|
    decreases |s|
  {
    if s == [] then []
    else (if s[0] == '"' then "\"\"" else [s[0]]) + DoubleQuotes(s[1..])
  }

  /**
   * `escapeValue`: unchanged unless it needs quoting; otherwise wrapped in
   * double quotes with the inner ones doubled.
   */
  function EscapeValue(s: string): (r: string)
    ensures !NeedsQuoting(s) ==> r == s
    ensures NeedsQuoting(s) ==> |r| >= |s| + 2 && r[0] == '"' && r[|r| - 1] == '"' && r[1..|r| - 1] == DoubleQuotes(s)
  {
    if NeedsQuoting(s) then "\"" + DoubleQuotes(s) + "\"" else s
  }

  /** Doubling quotes adds no other character and drops none. */
  lemma {:induction false} DoubleQuotesKeepsChars(s: string, c: char)
    requires c != '"'
    ensures c in DoubleQuotes(s) <==> c in s
    decreases |s|
  {
    if s != [] {
      DoubleQuotesKeepsChars(s[1..], c);
      var head := if s[0] == '"' then "\"\"" else [s[0]];
      assert DoubleQuotes(s) == head + DoubleQuotes(s[1..]);
      assert c in s <==> c == s[0] || c in s[1..];
    }
  }

  /** Escaping never adds or removes a line feed. */
  lemma EscapeKeepsLineFeeds(s: string)
    ensures '\n' in EscapeValue(s) <==> '\n' in s
  {
    DoubleQuotesKeepsChars(s, '\n');
  }

  /** No value of the list has to be quoted. */
  predicate AllPlain(cells: seq<string>) {
    forall j :: 0 <= j < |cells| ==> !NeedsQuoting(cells[j])
  }

  /** `cells.map(escapeValue).join(',')`: one CSV line; plain values are joined as they are. */
  function CsvLine(cells: seq<string>): (line: string)
    ensures AllPlain(cells) ==> line == JoinWith(cells, ',')
  {
    EscapePlain(cells);
    JoinWith(seq(|cells|, i requires 0 <= i < |cells| => EscapeValue(cells[i])), ',')
  }

  /** Escaping leaves a list of plain values as it is. */
  lemma EscapePlain(cells: seq<string>)
    ensures AllPlain(cells) ==> seq(|cells|, i requires 0 <= i < |cells| => EscapeValue(cells[i])) == cells
  {
  }

  /** A line built from values without line feeds holds no line feed. */
  lemma CsvLineNoLineFeed(cells: seq<string>)
    requires forall j :: 0 <= j < |cells| ==> '\n' !in cells[j]
    ensures '\n' !in CsvLine(cells)
  {
    var esc := seq(|cells|, i requires 0 <= i < |cells| => EscapeValue(cells[i]));
    forall i | 0 <= i < |esc| ensures '\n' !in esc[i] {
      EscapeKeepsLineFeeds(cells[i]);
    }
    JoinWithAvoids(esc, ',', '\n');
  }

  /** A line of two or more values holds a comma. */
  lemma CsvLineHasComma(cells: seq<string>)
    requires |cells| >= 2
    ensures ',' in CsvLine(cells)
  {
    JoinWithHasSeparator(seq(|cells|, i requires 0 <= i < |cells| => EscapeValue(cells[i])), ',');
  }

  /** The header names have no surrounding whitespace. */
  lemma HeadersTrimmed()
    ensures forall j :: 0 <= j < |Headers| ==> Trim(Headers[j]) == Headers[j]
  {
    forall j | 0 <= j < |Headers| ensures Trim(Headers[j]) == Headers[j] {
      TrimUnchanged(Headers[j]);
    }
  }

  /** There are 18 header names, and none of them holds a line feed. */
  lemma HeadersOneLine()
    ensures |Headers| == 18 && forall j :: 0 <= j < |Headers| ==> '\n' !in Headers[j]
  {
  }

  /** The header names are distinct. */
  lemma HeadersDistinct()
    ensures forall a, b :: 0 <= a < b < |Headers| ==> Headers[a] != Headers[b]
  {
  }

  /** A nullable date column: formatted when set and non-empty, `''` otherwise. */
  function DateCell(o: Option<string>, day: string -> string): (cell: string)
    ensures o == None || o == Some("") ==> cell == ""
    ensures o.Some? && o.value != "" ==> cell == day(o.value)
  {
    if o.Some? && o.value != "" then day(o.value) else ""
  }

  /** The values of the `index`-th receipt, in header order. */
  function Row(r: Receipt, index: nat, day: string -> string, stamp: string -> string): (row: seq<string>)
    ensures |row| == |Headers|
    ensures row[0] == NatToString(index + 1)
    ensures row[1] == NatToString(r.receipt_number)
  {
    [ NatToString(index + 1),
      NatToString(r.receipt_number),
      r.customer_name,
      r.customer_phone,
      OrEmpty(r.customer_email),
      r.device_type,
      OrEmpty(r.device_model),
      OrEmpty(r.serial_number),
      OrEmpty(r.accessories),
      r.problem_description,
      OrEmpty(r.repair_notes),
      OrEmpty(r.device_password),
      day(r.received_date),
      DateCell(r.estimated_delivery_date, day),
      DateCell(r.actual_delivery_date, day),
      StatusName(r.status),
      stamp(r.created_at),
      stamp(r.updated_at) ]
  }

  /** Empty nullable device columns export as `''`. */
  lemma DeviceNullsExportEmpty(r: Receipt, index: nat, day: string -> string, stamp: string -> string)
    ensures var row := Row(r, index, day, stamp);
      && (r.customer_email == None ==> row[4] == "")
      && (r.device_model == None ==> row[6] == "")
      && (r.serial_number == None ==> row[7] == "")
      && (r.accessories == None ==> row[8] == "")
  {
  }

  /** Empty nullable repair columns export as `''`. */
  lemma RepairNullsExportEmpty(r: Receipt, index: nat, day: string -> string, stamp: string -> string)
    ensures var row := Row(r, index, day, stamp);
      && (r.repair_notes == None ==> row[10] == "")
      && (r.device_password == None ==> row[11] == "")
      && (r.estimated_delivery_date == None ==> row[13] == "")
      && (r.actual_delivery_date == None ==> row[14] == "")
  {
  }

  /** The header names, column by column. */
  lemma HeaderNames()
    ensures |Headers| == 18
      && Headers[0] == "S.N."
      && Headers[1] == "Receipt #"
      && Headers[2] == "Customer Name"
      && Headers[3] == "Phone"
      && Headers[4] == "Email"
      && Headers[5] == "Device Type"
      && Headers[6] == "Device Model"
      && Headers[7] == "Serial Number"
      && Headers[8] == "Accessories"
      && Headers[9] == "Problem Description"
      && Headers[10] == "Repair Notes"
      && Headers[11] == "Device Password"
      && Headers[12] == "Received Date"
      && Headers[13] == "Estimated Delivery"
      && Headers[14] == "Actual Delivery"
      && Headers[15] == "Status"
      && Headers[16] == "Created At"
      && Headers[17] == "Updated At"
  {
  }

  /**
   * Which receipt field each column holds: column k of a row is the value
   * written under `Headers[k]` (see `HeaderNames`; `Row` itself states
   * columns 0 and 1). The customer columns 2 to 4:
   */
  lemma CustomerColumns(r: Receipt, index: nat, day: string -> string, stamp: string -> string)
    ensures var row := Row(r, index, day, stamp);
      && row[2] == r.customer_name
      && row[3] == r.customer_phone
      && row[4] == OrEmpty(r.customer_email)
  {
  }

  /** The device columns 5 to 9. */
  lemma DeviceColumns(r: Receipt, index: nat, day: string -> string, stamp: string -> string)
    ensures var row := Row(r, index, day, stamp);
      && row[5] == r.device_type
      && row[6] == OrEmpty(r.device_model)
      && row[7] == OrEmpty(r.serial_number)
      && row[8] == OrEmpty(r.accessories)
      && row[9] == r.problem_description
  {
  }

  /** The repair, date and status columns 10 to 17. */
  lemma RepairColumns(r: Receipt, index: nat, day: string -> string, stamp: string -> string)
    ensures var row := Row(r, index, day, stamp);
      && row[10] == OrEmpty(r.repair_notes)
      && row[11] == OrEmpty(r.device_password)
      && row[12] == day(r.received_date)
      && row[13] == DateCell(r.estimated_delivery_date, day)
      && row[14] == DateCell(r.actual_delivery_date, day)
      && row[15] == StatusName(r.status)
      && row[16] == stamp(r.created_at)
      && row[17] == stamp(r.updated_at)
  {
  }

  /** `receipts.map((receipt, index) => [...])`: rows numbered 1..n in input order. */
  function Rows(receipts: seq<Receipt>, day: string -> string, stamp: string -> string): (rows: seq<seq<string>>)
    ensures |rows| == |receipts|
    ensures forall i :: 0 <= i < |rows| ==> rows[i] == Row(receipts[i], i, day, stamp)
  {
    seq(|receipts|, i requires 0 <= i < |receipts| => Row(receipts[i], i, day, stamp))
  }

  /** The CSV lines of the rows, before they are joined by line feeds. */
  function RowLines(rows: seq<seq<string>>): (lines: seq<string>)
    ensures |lines| == |rows|
    ensures forall i :: 0 <= i < |rows| ==> lines[i] == CsvLine(rows[i])
  {
    seq(|rows|, i requires 0 <= i < |rows| => CsvLine(rows[i]))
  }

  /** `csvContent`: the mark, the header line, a line feed, then the row lines. */
  function CsvContent(receipts: seq<Receipt>, day: string -> string, stamp: string -> string): (content: string)
    ensures |content| > |Bom| && content[..|Bom|] == Bom
  {
    Bom + CsvLine(Headers) + "\n" + JoinWith(RowLines(Rows(receipts, day, stamp)), '\n')
  }
}
