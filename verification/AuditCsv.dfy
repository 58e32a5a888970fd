/** The audit export as CSV, and a reader that follows section 2 of RFC 4180 with LF for its line breaks. */
module AuditCsv {
  import opened Prelude

  const HEADER := ["eventId", "createdAt", "type", "ticketId", "runId", "correlationId", "payloadSummary"]

  /** The text starts with a character that a spreadsheet reads as a formula. */
  predicate Formula(text: string) {
    text != "" && text[0] in {'=', '+', '-', '@'}
  }

  /** `sanitizeCsvCell`: an absent value is the empty text. */
  function Guarded(cell: Option<string>): string {
    var text := if cell.Some? then cell.value else "";
    if Formula(text) then "'" + text else text
  }

  function GuardedRow(row: seq<Option<string>>): (r: seq<string>)
    ensures |r| == |row| && forall i :: 0 <= i < |row| ==> r[i] == Guarded(row[i])
  {
    seq(|row|, i requires 0 <= i < |row| => Guarded(row[i]))
  }

  function GuardedRows(rows: seq<seq<Option<string>>>): (r: seq<seq<string>>)
    ensures |r| == |rows| && forall i :: 0 <= i < |rows| ==> r[i] == GuardedRow(rows[i])
  {
    seq(|rows|, i requires 0 <= i < |rows| => GuardedRow(rows[i]))
  }

  // Printing.

  function Doubled(text: string): string {
    if text == "" then "" else (if text[0] == '"' then "\"\"" else [text[0]]) + Doubled(text[1..])
  }

  function Quoted(text: string): string {
    "\"" + Doubled(text) + "\""
  }

  function Join(parts: seq<string>, separator: char): string {
    if parts == [] then ""
    else if |parts| == 1 then parts[0]
    else parts[0] + [separator] + Join(parts[1..], separator)
  }

  function QuotedRow(cells: seq<string>): (r: seq<string>)
    ensures |r| == |cells| && forall i :: 0 <= i < |cells| ==> r[i] == Quoted(cells[i])
  {
    seq(|cells|, i requires 0 <= i < |cells| => Quoted(cells[i]))
  }

  function Lines(rows: seq<seq<Option<string>>>): (r: seq<string>)
    ensures |r| == |rows| && forall i :: 0 <= i < |rows| ==> r[i] == Join(QuotedRow(GuardedRow(rows[i])), ',')
  {
    seq(|rows|, i requires 0 <= i < |rows| => Join(QuotedRow(GuardedRow(rows[i])), ','))
  }

  /** `exportAuditCsv`, from the cells of its rows. */
  function ExportAuditCsv(rows: seq<seq<Option<string>>>): string {
    Join([Join(HEADER, ',')] + Lines(rows), '\n')
  }

  // Reading.

  /** Where a reader stands: before a field, in a plain or quoted one, or behind a quote in a quoted one. */
  datatype Mode = Start | Plain | InQuotes | AfterQuote

  /** Reads `text` given the field, record and records read so far; `None` is malformed text. */
  function Scan(text: string, mode: Mode, field: string, record: seq<string>, records: seq<seq<string>>): Option<seq<seq<string>>>
    decreases |text|
  {
    if text == "" then
      if mode == InQuotes then None
      else if mode == Start && record == [] then Some(records)
      else Some(records + [record + [field]])
    else
      var c, rest := text[0], text[1..];
      match mode
      case InQuotes =>
        if c == '"' then Scan(rest, AfterQuote, field, record, records)
        else Scan(rest, InQuotes, field + [c], record, records)
      case _ =>
        if c == ',' then Scan(rest, Start, "", record + [field], records)
        else if c == '\n' then Scan(rest, Start, "", [], records + [record + [field]])
        else if c == '"' then
          if mode == Start then Scan(rest, InQuotes, "", record, records)
          else if mode == AfterQuote then Scan(rest, InQuotes, field + [c], record, records)
          else None
        else if mode == AfterQuote then None
        else Scan(rest, Plain, field + [c], record, records)
  }

  function Parse(text: string): Option<seq<seq<string>>> {
    Scan(text, Start, "", [], [])
  }

  // Round trip.

  lemma {:induction false} ScanDoubled(text: string, rest: string, field: string, record: seq<string>, records: seq<seq<string>>)
    ensures Scan(Doubled(text) + rest, InQuotes, field, record, records) == Scan(rest, InQuotes, field + text, record, records)
  {
    if text == "" {
      assert Doubled(text) + rest == rest && field + text == field;
    } else {
      var c := text[0];
      var tail := Doubled(text[1..]) + rest;
      assert field + text == (field + [c]) + text[1..];
      ScanDoubled(text[1..], rest, field + [c], record, records);
      if c == '"' {
        assert Doubled(text) + rest == "\"\"" + tail;
        assert ("\"\"" + tail)[1..] == "\"" + tail;
        assert ("\"" + tail)[1..] == tail;
      } else {
        assert Doubled(text) + rest == [c] + tail;
        assert ([c] + tail)[1..] == tail;
      }
    }
  }

  lemma ScanQuoted(text: string, rest: string, record: seq<string>, records: seq<seq<string>>)
    ensures Scan(Quoted(text) + rest, Start, "", record, records) == Scan(rest, AfterQuote, text, record, records)
  {
    var inside := Doubled(text) + ("\"" + rest);
    assert Quoted(text) + rest == "\"" + inside;
    assert ("\"" + inside)[1..] == inside;
    ScanDoubled(text, "\"" + rest, "", record, records);
    assert "" + text == text;
    assert ("\"" + rest)[1..] == rest;
  }

  predicate PlainText(text: string) {
    '"' !in text && ',' !in text && '\n' !in text
  }

  lemma {:induction false} ScanPlain(text: string, rest: string, mode: Mode, field: string, record: seq<string>, records: seq<seq<string>>)
    requires PlainText(text) && text != "" && (mode == Plain || (mode == Start && field == ""))
    ensures Scan(text + rest, mode, field, record, records) == Scan(rest, Plain, field + text, record, records)
  {
    var c := text[0];
    assert c in text;
    assert (text + rest)[1..] == text[1..] + rest;
    if |text| == 1 {
      assert text[1..] + rest == rest && field + text == field + [c];
    } else {
      assert forall d :: d in text[1..] ==> d in text;
      assert field + text == (field + [c]) + text[1..];
      ScanPlain(text[1..], rest, Plain, field + [c], record, records);
    }
  }

  /** The mode a reader is in behind the fields of a line. */
  function Behind(quoted: bool): Mode {
    if quoted then AfterQuote else Plain
  }

  /** Field `i` of the line, as printed. */
  function Printed(cell: string, quoted: bool): string {
    if quoted then Quoted(cell) else cell
  }

  function PrintedAll(cells: seq<string>, quoted: bool): (r: seq<string>)
    ensures |r| == |cells| && forall i :: 0 <= i < |cells| ==> r[i] == Printed(cells[i], quoted)
  {
    seq(|cells|, i requires 0 <= i < |cells| => Printed(cells[i], quoted))
  }

  predicate Printable(cells: seq<string>, quoted: bool) {
    cells != [] && (!quoted ==> forall i :: 0 <= i < |cells| ==> cells[i] != "" && PlainText(cells[i]))
  }

  lemma ScanField(cell: string, quoted: bool, rest: string, record: seq<string>, records: seq<seq<string>>)
    requires Printable([cell], quoted)
    ensures Scan(Printed(cell, quoted) + rest, Start, "", record, records) == Scan(rest, Behind(quoted), cell, record, records)
  {
    if quoted {
      ScanQuoted(cell, rest, record, records);
    } else {
      assert [cell][0] == cell;
      ScanPlain(cell, rest, Start, "", record, records);
      assert "" + cell == cell;
    }
  }

  // One character of punctuation behind a field.

  lemma ScanComma(rest: string, quoted: bool, field: string, record: seq<string>, records: seq<seq<string>>)
    ensures Scan("," + rest, Behind(quoted), field, record, records) == Scan(rest, Start, "", record + [field], records)
  {
    assert ("," + rest)[1..] == rest;
  }

  lemma ScanBreak(rest: string, quoted: bool, field: string, record: seq<string>, records: seq<seq<string>>)
    ensures Scan("\n" + rest, Behind(quoted), field, record, records)
            == Scan(rest, Start, "", [], records + [record + [field]])
  {
    assert ("\n" + rest)[1..] == rest;
  }

  lemma ScanEnd(quoted: bool, field: string, record: seq<string>, records: seq<seq<string>>)
    ensures Scan("", Behind(quoted), field, record, records) == Some(records + [record + [field]])
  {
  }

  lemma JoinCons(parts: seq<string>, separator: char, rest: string)
    requires |parts| > 1
    ensures Join(parts, separator) + rest == parts[0] + ([separator] + (Join(parts[1..], separator) + rest))
  {
  }

  lemma Reassociate<T>(xs: seq<T>, ys: seq<T>)
    requires ys != []
    ensures (xs + [ys[0]]) + ys[1..] == xs + ys
    ensures |ys| > 1 ==> (xs + [ys[0]]) + ys[1..][..|ys| - 2] == xs + ys[..|ys| - 1]
  {
  }

  /** Reading a printed line leaves its last field open, the others in the record. */
  lemma {:induction false} ScanLine(cells: seq<string>, quoted: bool, rest: string, record: seq<string>, records: seq<seq<string>>)
    requires Printable(cells, quoted)
    ensures Scan(Join(PrintedAll(cells, quoted), ',') + rest, Start, "", record, records)
            == Scan(rest, Behind(quoted), cells[|cells| - 1], record + cells[..|cells| - 1], records)
  {
    var parts := PrintedAll(cells, quoted);
    assert Printable([cells[0]], quoted);
    if |cells| == 1 {
      ScanField(cells[0], quoted, rest, record, records);
      assert record + cells[..0] == record;
    } else {
      var tail := Join(parts[1..], ',') + rest;
      JoinCons(parts, ',', rest);
      ScanField(cells[0], quoted, "," + tail, record, records);
      ScanComma(tail, quoted, cells[0], record, records);
      assert parts[1..] == PrintedAll(cells[1..], quoted);
      ScanLine(cells[1..], quoted, rest, record + [cells[0]], records);
      Reassociate(record, cells);
    }
  }

  /** A line and its break, and the last line. */
  lemma ScanLineAndBreak(cells: seq<string>, quoted: bool, rest: string, records: seq<seq<string>>)
    requires Printable(cells, quoted)
    ensures Scan(Join(PrintedAll(cells, quoted), ',') + ("\n" + rest), Start, "", [], records)
            == Scan(rest, Start, "", [], records + [cells])
  {
    ScanLine(cells, quoted, "\n" + rest, [], records);
    ScanBreak(rest, quoted, cells[|cells| - 1], [] + cells[..|cells| - 1], records);
    assert [] + cells[..|cells| - 1] + [cells[|cells| - 1]] == cells;
  }

  lemma ScanLastLine(cells: seq<string>, quoted: bool, records: seq<seq<string>>)
    requires Printable(cells, quoted)
    ensures Scan(Join(PrintedAll(cells, quoted), ','), Start, "", [], records) == Some(records + [cells])
  {
    var line, front := Join(PrintedAll(cells, quoted), ','), cells[..|cells| - 1];
    assert line + "" == line && [] + front == front && front + [cells[|cells| - 1]] == cells;
    ScanLine(cells, quoted, "", [], records);
    ScanEnd(quoted, cells[|cells| - 1], front, records);
  }

  predicate PrintedLine(line: string, cells: seq<string>) {
    cells != [] && line == Join(PrintedAll(cells, true), ',')
  }

  /** Reading printed lines, each followed by a break but the last. */
  lemma {:induction false} ScanRows(rows: seq<seq<string>>, lines: seq<string>, records: seq<seq<string>>)
    requires rows != [] && |lines| == |rows|
    requires forall i :: 0 <= i < |rows| ==> PrintedLine(lines[i], rows[i])
    ensures Scan(Join(lines, '\n'), Start, "", [], records) == Some(records + rows)
  {
    assert PrintedLine(lines[0], rows[0]);
    if |rows| == 1 {
      ScanLastLine(rows[0], true, records);
      assert rows == [rows[0]];
    } else {
      var tail := Join(lines[1..], '\n');
      assert Join(lines, '\n') == lines[0] + ("\n" + tail);
      ScanLineAndBreak(rows[0], true, tail, records);
      ScanRows(rows[1..], lines[1..], records + [rows[0]]);
      Reassociate(records, rows);
    }
  }

  lemma HeaderNames()
    ensures PlainText("eventId") && PlainText("createdAt") && PlainText("type") && PlainText("ticketId")
  {
  }

  lemma MoreHeaderNames()
    ensures PlainText("runId") && PlainText("correlationId") && PlainText("payloadSummary")
  {
  }

  lemma HeaderIsPlain()
    ensures Printable(HEADER, false)
  {
    HeaderNames();
    MoreHeaderNames();
  }

  lemma UnquotedAsIs(cells: seq<string>)
    ensures PrintedAll(cells, false) == cells
  {
  }

  lemma LinesArePrinted(rows: seq<seq<Option<string>>>, i: nat)
    requires i < |rows| && rows[i] != []
    ensures PrintedLine(Lines(rows)[i], GuardedRows(rows)[i])
  {
    assert QuotedRow(GuardedRow(rows[i])) == PrintedAll(GuardedRow(rows[i]), true);
  }

  lemma ExportReads(header: seq<string>, rows: seq<seq<string>>, lines: seq<string>)
    requires Printable(header, false) && |lines| == |rows|
    requires forall i :: 0 <= i < |rows| ==> PrintedLine(lines[i], rows[i])
    ensures Parse(Join([Join(header, ',')] + lines, '\n')) == Some([header] + rows)
  {
    UnquotedAsIs(header);
    var first := Join(header, ',');
    if rows == [] {
      ScanLastLine(header, false, []);
      assert [first] + lines == [first] && [header] + rows == [header] && [] + [header] == [header];
    } else {
      assert ([first] + lines)[1..] == lines;
      assert Join([first] + lines, '\n') == first + ("\n" + Join(lines, '\n'));
      ScanLineAndBreak(header, false, Join(lines, '\n'), []);
      assert [] + [header] == [header];
      ScanRows(rows, lines, [header]);
    }
  }

  /** Round trip: reading the export gives back the header and the guarded cells, whatever quotes, commas
      and line breaks the cells hold. */
  lemma CsvRoundTrip(rows: seq<seq<Option<string>>>)
    requires forall i :: 0 <= i < |rows| ==> rows[i] != []
    ensures Parse(ExportAuditCsv(rows)) == Some([HEADER] + GuardedRows(rows))
  {
    HeaderIsPlain();
    forall i | 0 <= i < |rows| ensures PrintedLine(Lines(rows)[i], GuardedRows(rows)[i]) {
      LinesArePrinted(rows, i);
    }
    ExportReads(HEADER, GuardedRows(rows), Lines(rows));
  }

  /** The first record that a reader recovers names the seven columns. */
  lemma HeaderNamesColumns(rows: seq<seq<Option<string>>>)
    requires forall k :: 0 <= k < |rows| ==> rows[k] != []
    ensures var table := Parse(ExportAuditCsv(rows));
            && table.Some? && |table.value| == |rows| + 1
            && table.value[0] == ["eventId", "createdAt", "type", "ticketId", "runId", "correlationId", "payloadSummary"]
  {
    CsvRoundTrip(rows);
  }

  lemma GuardIsInert(cell: Option<string>)
    ensures !Formula(Guarded(cell))
    ensures Guarded(cell) == (if cell.Some? then cell.value else "") <==> !(cell.Some? && Formula(cell.value))
  {
    if cell.Some? && Formula(cell.value) {
      assert |"'" + cell.value| == |cell.value| + 1;
    }
  }

  /** No cell that a reader recovers starts with one of the four characters that start a formula, and a cell is
      recovered as it was exactly when it did not start with one itself, and otherwise behind an apostrophe. */
  lemma RecoveredCellsAreInert(rows: seq<seq<Option<string>>>, i: nat, j: nat)
    requires forall k :: 0 <= k < |rows| ==> rows[k] != []
    requires i < |rows| && j < |rows[i]|
    ensures var table := Parse(ExportAuditCsv(rows));
            && table.Some? && i + 1 < |table.value| && j < |table.value[i + 1]|
            && var cell, recovered := if rows[i][j].Some? then rows[i][j].value else "", table.value[i + 1][j];
            && (recovered != "" ==> recovered[0] != '=' && recovered[0] != '+' && recovered[0] != '-' && recovered[0] != '@')
            && (recovered == cell <==>
                  cell == "" || (cell[0] != '=' && cell[0] != '+' && cell[0] != '-' && cell[0] != '@'))
            && (recovered != cell ==> recovered == ['\''] + cell)
  {
    CsvRoundTrip(rows);
    assert ([HEADER] + GuardedRows(rows))[i + 1] == GuardedRow(rows[i]);
    GuardIsInert(rows[i][j]);
  }

  /** Guarding is not reversible: two different texts are exported alike exactly when one is the other, a
      formula, behind an apostrophe. */
  lemma GuardedCollideExactly(a: string, b: string)
    ensures Guarded(Some(a)) == Guarded(Some(b)) <==>
            a == b || (Formula(a) && b == "'" + a) || (Formula(b) && a == "'" + b)
  {
    if Formula(a) && Formula(b) && "'" + a == "'" + b {
      assert ("'" + a)[1..] == a && ("'" + b)[1..] == b;
    }
    if Formula(a) {
      assert !Formula("'" + a);
    }
    if Formula(b) {
      assert !Formula("'" + b);
    }
  }
}
