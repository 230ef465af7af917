/** ExportService.java: writing a query result as CSV, as INSERT statements
    or as a fixed-width text table. The file is not modelled: each export
    gives the lines it prints, in order. */
module ExportService {
  import opened Wrappers
  import opened Text
  import opened Jdbc
  import opened QueryResult
  import opened SqlSyntax

  // =====================================================================
  // CSV

  /** A cell that has to be quoted: it holds a comma, a quote or a line break. */
  predicate NeedsQuoting(s: string) {
    ',' in s || '"' in s || '\n' in s || '\r' in s
  }

  /** CRLF, then LF, then CR, each replaced by one space. */
  function Flatten(s: string): string {
    ReplaceChar(ReplaceChar(ReplacePair(s, '\r', '\n', " "), '\n', " "), '\r', " ")
  }

  /** The text written for one value: empty for SQL NULL, toString()
      otherwise, quoted when it needs to be. */
  function CsvCell(v: Value): string {
    var s := if Shown(v).Some? then Shown(v).value else "";
    if NeedsQuoting(s) then "\"" + Double(Flatten(s), '"') + "\"" else s
  }

  function CsvCells(row: seq<Value>): (r: seq<string>)
    ensures |r| == |row| && forall i :: 0 <= i < |row| ==> r[i] == CsvCell(row[i])
  {
    seq(|row|, i requires 0 <= i < |row| => CsvCell(row[i]))
  }

  /** The lines exportToCSV prints: the column names joined by commas, as
      they are, then one line per row. */
  function CsvLines(result: QueryResult): (lines: seq<string>)
    ensures |lines| == 1 + |result.rows| && lines[0] == Join(",", result.columnNames)
    ensures forall k :: 0 <= k < |result.rows| ==> lines[k + 1] == Join(",", CsvCells(result.rows[k]))
  {
    [Join(",", result.columnNames)]
      + seq(|result.rows|, k requires 0 <= k < |result.rows| => Join(",", CsvCells(result.rows[k])))
  }

  /** A character that is not a quote survives doubling the quotes. */
  lemma DoubleKeepsAbsent(s: string, q: char, d: char)
    requires d !in s && d != q
    ensures d !in Double(s, q)
  {
    ReplaceCharKeepsAbsent(s, q, [q, q], d);
  }

  /** Flattening leaves no line break. */
  lemma FlattenRemovesLineBreaks(s: string)
    ensures '\n' !in Flatten(s) && '\r' !in Flatten(s)
  {
    var a := ReplacePair(s, '\r', '\n', " ");
    var b := ReplaceChar(a, '\n', " ");
    ReplaceCharRemoves(a, '\n', " ");
    ReplaceCharRemoves(b, '\r', " ");
    ReplaceCharKeepsAbsent(b, '\r', " ", '\n');
  }

  /** Flattening changes nothing in a text without line breaks. */
  lemma FlattenKeepsSingleLine(s: string)
    requires '\n' !in s && '\r' !in s
    ensures Flatten(s) == s
  {
    ReplacePairAbsent(s, '\r', '\n', " ");
    ReplaceCharAbsent(s, '\n', " ");
    ReplaceCharAbsent(s, '\r', " ");
  }

  /** No cell contains a line break, so a row is always one line. A cell that
      did not need quoting is the value's text unchanged (and holds no comma
      or quote); one that did reads back, as a quoted CSV field, as the text
      with its line breaks turned into spaces. */
  lemma CsvCellSpec(v: Value)
    ensures '\n' !in CsvCell(v) && '\r' !in CsvCell(v)
    ensures var s := if Shown(v).Some? then Shown(v).value else "";
      && (v.Null? ==> CsvCell(v) == "")
      && (!NeedsQuoting(s) ==> CsvCell(v) == s && ',' !in CsvCell(v) && '"' !in CsvCell(v))
      && (NeedsQuoting(s) ==> ReadQuoted(CsvCell(v), '"') == Some((Flatten(s), "")))
  {
    var s := if Shown(v).Some? then Shown(v).value else "";
    if NeedsQuoting(s) {
      FlattenRemovesLineBreaks(s);
      DoubleKeepsAbsent(Flatten(s), '"', '\n');
      DoubleKeepsAbsent(Flatten(s), '"', '\r');
      QuotedReadsBack(Flatten(s), '"', "");
      assert "\"" + Double(Flatten(s), '"') + "\"" == ['"'] + Double(Flatten(s), '"') + ['"'] + [];
    }
  }

  /** Every line after the header is a single line of the file: it holds no
      line break, whatever the values. */
  lemma CsvRowsAreSingleLines(result: QueryResult)
    ensures forall k :: 1 <= k < |CsvLines(result)| ==>
      '\n' !in CsvLines(result)[k] && '\r' !in CsvLines(result)[k]
  {
    forall k | 1 <= k < |CsvLines(result)|
      ensures '\n' !in CsvLines(result)[k] && '\r' !in CsvLines(result)[k]
    {
      var cells := CsvCells(result.rows[k - 1]);
      forall i | 0 <= i < |cells| ensures '\n' !in cells[i] && '\r' !in cells[i] {
        CsvCellSpec(result.rows[k - 1][i]);
      }
      JoinExcludes(",", cells, '\n');
      JoinExcludes(",", cells, '\r');
    }
  }

  /** The cells of one row, escaped one by one. */
  method CsvRow(row: seq<Value>) returns (values: seq<string>)
    ensures values == CsvCells(row)
  {
    values := [];
    for i := 0 to |row|
      invariant |values| == i && forall j :: 0 <= j < i ==> values[j] == CsvCell(row[j])
    {
      var text := if Shown(row[i]).Some? then Shown(row[i]).value else "";
      if NeedsQuoting(text) {
        text := Flatten(text);
        text := "\"" + Double(text, '"') + "\"";
      }
      values := values + [text];
    }
  }

  /** exportToCSV(result, filename) */
  method ExportToCsv(result: QueryResult) returns (lines: seq<string>)
    ensures lines == CsvLines(result)
  {
    lines := [Join(",", result.columnNames)];
    for k := 0 to |result.rows|
      invariant |lines| == k + 1 && lines[0] == Join(",", result.columnNames)
      invariant forall j :: 0 <= j < k ==> lines[j + 1] == Join(",", CsvCells(result.rows[j]))
    {
      var values := CsvRow(result.rows[k]);
      lines := lines + [Join(",", values)];
    }
  }

  // =====================================================================
  // INSERT statements

  const EmptyIdentifier: string := "Identifier must not be null or empty"

  /** quoteIdentifier: a null or empty name is an argument error; otherwise
      the name in double quotes with every double quote doubled. */
  function QuoteIdentifier(identifier: Option<string>): Result<string> {
    if identifier.None? || identifier.value == "" then Failure(IllegalArgument(EmptyIdentifier))
    else Success("\"" + Double(identifier.value, '"') + "\"")
  }

  /** Refused exactly for null and empty names; an accepted name reads back,
      as a delimited identifier, as the name itself. */
  lemma QuoteIdentifierSpec(identifier: Option<string>)
    ensures QuoteIdentifier(identifier).Failure? <==> identifier.None? || identifier.value == ""
    ensures QuoteIdentifier(identifier).Failure? ==>
      QuoteIdentifier(identifier).error == IllegalArgument(EmptyIdentifier)
    ensures QuoteIdentifier(identifier).Success? ==>
      ReadQuoted(QuoteIdentifier(identifier).value, '"') == Some((identifier.value, ""))
  {
    if identifier.Some? && identifier.value != "" {
      var id := identifier.value;
      QuotedReadsBack(id, '"', "");
      assert "\"" + Double(id, '"') + "\"" == ['"'] + Double(id, '"') + ['"'] + [];
    }
  }

  /** The column names quoted in order; the first that cannot be decides. */
  function QuoteAll(columns: seq<string>): Result<seq<string>> {
    if columns == [] then Success([])
    else match QuoteAll(columns[..|columns| - 1])
      case Failure(e) => Failure(e)
      case Success(done) =>
        match QuoteIdentifier(Some(columns[|columns| - 1]))
        case Failure(e) => Failure(e)
        case Success(q) => Success(done + [q])
  }

  /** All names are quoted exactly when none is empty. */
  lemma {:induction false} QuoteAllSpec(columns: seq<string>)
    ensures QuoteAll(columns).Success? <==> forall i :: 0 <= i < |columns| ==> columns[i] != ""
    ensures QuoteAll(columns).Failure? ==> QuoteAll(columns).error == IllegalArgument(EmptyIdentifier)
    ensures QuoteAll(columns).Success? ==>
      |QuoteAll(columns).value| == |columns|
      && forall i :: 0 <= i < |columns| ==> Success(QuoteAll(columns).value[i]) == QuoteIdentifier(Some(columns[i]))
  {
    if columns != [] {
      var init := columns[..|columns| - 1];
      QuoteAllSpec(init);
      assert forall i :: 0 <= i < |init| ==> init[i] == columns[i];
    }
  }

  lemma {:induction false} QuoteAllFailsEarly(columns: seq<string>, k: nat)
    requires k <= |columns| && QuoteAll(columns[..k]).Failure?
    ensures QuoteAll(columns) == QuoteAll(columns[..k])
    decreases |columns| - k
  {
    if k < |columns| {
      assert columns[..k + 1][..k] == columns[..k];
      QuoteAllFailsEarly(columns, k + 1);
    } else {
      assert columns[..k] == columns;
    }
  }

  /** The SQL text of one value: NULL; a string with each backslash doubled,
      then each single quote doubled, in single quotes; otherwise toString(). */
  function SqlValue(v: Value): string {
    match v
    case Null => "NULL"
    case Str(s) => "'" + Double(Double(s, '\\'), '\'') + "'"
    case Num(n) => IntToString(n)
    case Obj(t) => t
  }

  function SqlValues(row: seq<Value>): (r: seq<string>)
    ensures |r| == |row| && forall i :: 0 <= i < |row| ==> r[i] == SqlValue(row[i])
  {
    seq(|row|, i requires 0 <= i < |row| => SqlValue(row[i]))
  }

  /** A string value is one complete SQL literal: it reads back as a literal
      whose text, with doubled backslashes read as one, is the string; so no
      string, whatever it holds, ends the literal early, and none is written
      as NULL. */
  lemma SqlStringReadsBack(s: string)
    ensures ReadLiteral(SqlValue(Str(s))) == Some((Double(s, '\\'), ""))
    ensures Undouble(Double(s, '\\'), '\\') == s
    ensures SqlValue(Str(s)) != SqlValue(Null)
  {
    var t := Double(s, '\\');
    QuotedReadsBack(t, '\'', "");
    assert "'" + Double(t, '\'') + "'" == ['\''] + Double(t, '\'') + ['\''] + [];
    UndoubleDouble(s, '\\');
    assert SqlValue(Str(s))[0] == '\'';
  }

  /** One INSERT statement. */
  function InsertLine(quotedTable: string, quotedColumns: seq<string>, row: seq<Value>): string {
    "INSERT INTO " + quotedTable + " (" + Join(", ", quotedColumns) + ") VALUES ("
      + Join(", ", SqlValues(row)) + ");"
  }

  function InsertLines(quotedTable: string, quotedColumns: seq<string>, rows: seq<seq<Value>>): (r: seq<string>)
    ensures |r| == |rows| && forall k :: 0 <= k < |rows| ==> r[k] == InsertLine(quotedTable, quotedColumns, rows[k])
  {
    seq(|rows|, k requires 0 <= k < |rows| => InsertLine(quotedTable, quotedColumns, rows[k]))
  }

  /** The lines exportToSQL prints: the table name is quoted first, then the
      column names, and only then is a statement written per row. */
  function SqlLines(result: QueryResult, tableName: Option<string>): Result<seq<string>> {
    match QuoteIdentifier(tableName)
    case Failure(e) => Failure(e)
    case Success(quotedTable) =>
      match QuoteAll(result.columnNames)
      case Failure(e) => Failure(e)
      case Success(quotedColumns) =>
        Success(InsertLines(quotedTable, quotedColumns, result.rows))
  }

  /** The export fails, before any row is written and even with no rows,
      exactly when the table name or a column name is null or empty. Otherwise
      there is one statement per row, in order, naming the table and the
      columns as they read back, and listing that row's values. */
  lemma SqlLinesSpec(result: QueryResult, tableName: Option<string>)
    ensures SqlLines(result, tableName).Failure? <==>
      tableName.None? || tableName.value == "" || exists i :: 0 <= i < |result.columnNames| && result.columnNames[i] == ""
    ensures SqlLines(result, tableName).Failure? ==>
      SqlLines(result, tableName).error == IllegalArgument(EmptyIdentifier)
    ensures SqlLines(result, tableName).Success? ==>
      var lines := SqlLines(result, tableName).value;
      var quotedTable := QuoteIdentifier(tableName).value;
      var quotedColumns := QuoteAll(result.columnNames).value;
      && |lines| == |result.rows|
      && ReadQuoted(quotedTable, '"') == Some((tableName.value, ""))
      && |quotedColumns| == |result.columnNames|
      && (forall i :: 0 <= i < |quotedColumns| ==>
            ReadQuoted(quotedColumns[i], '"') == Some((result.columnNames[i], "")))
      && forall k :: 0 <= k < |lines| ==>
           lines[k] == "INSERT INTO " + quotedTable + " (" + Join(", ", quotedColumns) + ") VALUES ("
                       + Join(", ", SqlValues(result.rows[k])) + ");"
  {
    QuoteIdentifierSpec(tableName);
    QuoteAllSpec(result.columnNames);
    if SqlLines(result, tableName).Success? {
      var quotedColumns := QuoteAll(result.columnNames).value;
      forall i | 0 <= i < |quotedColumns|
        ensures ReadQuoted(quotedColumns[i], '"') == Some((result.columnNames[i], ""))
      {
        QuoteIdentifierSpec(Some(result.columnNames[i]));
      }
    }
  }

  /** The values of one row, joined by ", ". */
  method RenderValues(row: seq<Value>) returns (text: string)
    ensures text == Join(", ", SqlValues(row))
  {
    text := "";
    for i := 0 to |row|
      invariant text == Join(", ", SqlValues(row[..i]))
    {
      assert SqlValues(row[..i + 1])[..i] == SqlValues(row[..i]);
      if i > 0 {
        text := text + ", ";
      }
      text := text + SqlValue(row[i]);
    }
    assert row[..|row|] == row;
  }

  /** exportToSQL(result, tableName, filename) */
  method ExportToSql(result: QueryResult, tableName: Option<string>) returns (r: Result<seq<string>>)
    ensures r == SqlLines(result, tableName)
  {
    var columns := result.columnNames;
    var quotedTable := QuoteIdentifier(tableName);
    if quotedTable.Failure? {
      return Failure(quotedTable.error);
    }
    var quotedColumns: seq<string> := [];
    for i := 0 to |columns|
      invariant QuoteAll(columns[..i]) == Success(quotedColumns)
    {
      var q := QuoteIdentifier(Some(columns[i]));
      assert columns[..i + 1][..i] == columns[..i];
      if q.Failure? {
        QuoteAllFailsEarly(columns, i + 1);
        return Failure(q.error);
      }
      quotedColumns := quotedColumns + [q.value];
    }
    assert columns[..|columns|] == columns;
    var lines: seq<string> := [];
    for k := 0 to |result.rows|
      invariant |lines| == k
      invariant forall j :: 0 <= j < k ==> lines[j] == InsertLine(quotedTable.value, quotedColumns, result.rows[j])
    {
      var values := RenderValues(result.rows[k]);
      var sql := "INSERT INTO " + quotedTable.value + " (" + Join(", ", quotedColumns) + ") VALUES (" + values + ");";
      lines := lines + [sql];
    }
    assert lines == InsertLines(quotedTable.value, quotedColumns, result.rows);
    r := Success(lines);
  }

  // =====================================================================
  // Text table

  /** The text shown for a value: toString(), or NULL. */
  function CellText(v: Value): string {
    if Shown(v).Some? then Shown(v).value else "NULL"
  }

  function CellTexts(row: seq<Value>): (r: seq<string>)
    ensures |r| == |row| && forall i :: 0 <= i < |row| ==> r[i] == CellText(row[i])
  {
    seq(|row|, i requires 0 <= i < |row| => CellText(row[i]))
  }

  function Max(a: nat, b: nat): nat {
    if a >= b then a else b
  }

  /** One row's pass of the widths loop: each of its cells may widen its
      column; a row with more values than there are columns runs off the end
      of the widths array. */
  function Widen(widths: seq<nat>, row: seq<Value>): (r: Result<seq<nat>>)
    ensures r.Success? <==> |row| <= |widths|
    ensures r.Failure? ==> r.error == IndexOutOfBounds(|widths|)
    ensures r.Success? ==> |r.value| == |widths| && forall j :: 0 <= j < |widths| ==>
      && widths[j] <= r.value[j]
      && (j < |row| ==> |CellText(row[j])| <= r.value[j])
      && (r.value[j] == widths[j] || (j < |row| && r.value[j] == |CellText(row[j])|))
  {
    if |row| > |widths| then Failure(IndexOutOfBounds(|widths|))
    else Success(seq(|widths|, j requires 0 <= j < |widths| =>
                       if j < |row| then Max(widths[j], |CellText(row[j])|) else widths[j]))
  }

  /** The column widths after the loop over the rows. */
  function Widths(columns: seq<string>, rows: seq<seq<Value>>): (r: Result<seq<nat>>)
    ensures r.Success? ==> |r.value| == |columns| && forall k :: 0 <= k < |rows| ==> |rows[k]| <= |columns|
  {
    if rows == [] then Success(seq(|columns|, j requires 0 <= j < |columns| => |columns[j]|))
    else match Widths(columns, rows[..|rows| - 1])
      case Failure(e) => Failure(e)
      case Success(w) => Widen(w, rows[|rows| - 1])
  }

  /** The widths are computed exactly when no row is longer than the header,
      and then each is the largest of the header's length and the lengths of
      that column's cells: no smaller than any, and equal to one. */
  lemma {:induction false} WidthsSpec(columns: seq<string>, rows: seq<seq<Value>>)
    ensures Widths(columns, rows).Success? <==> forall k :: 0 <= k < |rows| ==> |rows[k]| <= |columns|
    ensures Widths(columns, rows).Failure? ==> Widths(columns, rows).error == IndexOutOfBounds(|columns|)
    ensures Widths(columns, rows).Success? ==>
      var w := Widths(columns, rows).value;
      && |w| == |columns|
      && (forall j :: 0 <= j < |columns| ==> |columns[j]| <= w[j])
      && (forall k, j :: 0 <= k < |rows| && 0 <= j < |rows[k]| ==> |CellText(rows[k][j])| <= w[j])
      && (forall j :: 0 <= j < |columns| ==>
            w[j] == |columns[j]| || exists k :: 0 <= k < |rows| && j < |rows[k]| && w[j] == |CellText(rows[k][j])|)
  {
    if rows != [] {
      var init := rows[..|rows| - 1];
      var last := rows[|rows| - 1];
      WidthsSpec(columns, init);
      assert forall k :: 0 <= k < |init| ==> init[k] == rows[k];
      if Widths(columns, init).Success? && |last| <= |columns| {
        var v := Widths(columns, init).value;
        var w := Widths(columns, rows).value;
        forall j | 0 <= j < |columns|
          ensures w[j] == |columns[j]| || exists k :: 0 <= k < |rows| && j < |rows[k]| && w[j] == |CellText(rows[k][j])|
        {
          if w[j] != v[j] {
            assert j < |rows[|rows| - 1]| && w[j] == |CellText(rows[|rows| - 1][j])|;
          } else if v[j] != |columns[j]| {
            var k :| 0 <= k < |init| && j < |init[k]| && v[j] == |CellText(init[k][j])|;
            assert j < |rows[k]| && w[j] == |CellText(rows[k][j])|;
          }
        }
      }
    }
  }

  /** The texts padded on the right to their columns' widths. */
  function Padded(texts: seq<string>, widths: seq<nat>): (r: seq<string>)
    requires |texts| <= |widths|
    ensures |r| == |texts| && forall i :: 0 <= i < |texts| ==> r[i] == PadRight(texts[i], widths[i])
  {
    seq(|texts|, i requires 0 <= i < |texts| => PadRight(texts[i], widths[i]))
  }

  /** The dash runs of the separator line. */
  function Dashes(widths: seq<nat>): (r: seq<string>)
    ensures |r| == |widths| && forall i :: 0 <= i < |widths| ==> r[i] == Repeat('-', widths[i])
  {
    seq(|widths|, i requires 0 <= i < |widths| => Repeat('-', widths[i]))
  }

  /** A row's line: its cells padded and joined by " | ". */
  function RowLine(row: seq<Value>, widths: seq<nat>): string
    requires |row| <= |widths|
  {
    Join(" | ", Padded(CellTexts(row), widths))
  }

  /** One line per row, in row order. */
  function RowLines(rows: seq<seq<Value>>, widths: seq<nat>): (r: seq<string>)
    requires forall k :: 0 <= k < |rows| ==> |rows[k]| <= |widths|
    ensures |r| == |rows|
  {
    if rows == [] then [] else RowLines(rows[..|rows| - 1], widths) + [RowLine(rows[|rows| - 1], widths)]
  }

  /** The k-th line is the k-th row's. */
  lemma {:induction false} RowLinesAt(rows: seq<seq<Value>>, widths: seq<nat>)
    requires forall k :: 0 <= k < |rows| ==> |rows[k]| <= |widths|
    ensures forall k :: 0 <= k < |rows| ==> RowLines(rows, widths)[k] == RowLine(rows[k], widths)
  {
    if rows != [] {
      var init := rows[..|rows| - 1];
      assert forall k :: 0 <= k < |init| ==> init[k] == rows[k];
      RowLinesAt(init, widths);
    }
  }

  /** The header line, the separator line and one line per row: cells
      left-justified to their widths and joined by " | ", dashes joined by
      "-+-". A column of width 0 is written without padding. */
  function TextTable(columns: seq<string>, rows: seq<seq<Value>>): Result<seq<string>> {
    match Widths(columns, rows)
    case Failure(e) => Failure(e)
    case Success(w) =>
      Success([Join(" | ", Padded(columns, w)), Join("-+-", Dashes(w))] + RowLines(rows, w))
  }

  function Sum(widths: seq<nat>): nat {
    if widths == [] then 0 else Sum(widths[..|widths| - 1]) + widths[|widths| - 1]
  }

  lemma {:induction false} TotalLengthOfWidths(parts: seq<string>, widths: seq<nat>)
    requires |parts| == |widths| && forall i :: 0 <= i < |parts| ==> |parts[i]| == widths[i]
    ensures TotalLength(parts) == Sum(widths)
  {
    if parts != [] {
      TotalLengthOfWidths(parts[..|parts| - 1], widths[..|widths| - 1]);
    }
  }

  /** Texts no longer than their widths make a line of fixed length. */
  lemma PaddedLineLength(texts: seq<string>, widths: seq<nat>)
    requires |texts| == |widths| && texts != []
    requires forall j :: 0 <= j < |texts| ==> |texts[j]| <= widths[j]
    ensures |Join(" | ", Padded(texts, widths))| == Sum(widths) + 3 * (|widths| - 1)
  {
    var cells := Padded(texts, widths);
    forall j | 0 <= j < |cells| ensures |cells[j]| == widths[j] {
      PadRightShape(texts[j], widths[j]);
    }
    TotalLengthOfWidths(cells, widths);
    JoinLength(" | ", cells);
  }

  lemma DashesLength(widths: seq<nat>)
    requires widths != []
    ensures |Join("-+-", Dashes(widths))| == Sum(widths) + 3 * (|widths| - 1)
  {
    TotalLengthOfWidths(Dashes(widths), widths);
    JoinLength("-+-", Dashes(widths));
  }

  /** A full row whose cells fit their widths is a line of fixed length. */
  lemma RowLineLength(row: seq<Value>, widths: seq<nat>)
    requires |row| == |widths| && widths != []
    requires forall j :: 0 <= j < |row| ==> |CellText(row[j])| <= widths[j]
    ensures |RowLine(row, widths)| == Sum(widths) + 3 * (|widths| - 1)
  {
    PaddedLineLength(CellTexts(row), widths);
  }

  /** Every full row's line has the length of a line of those widths. */
  lemma RowLinesAligned(rows: seq<seq<Value>>, w: seq<nat>)
    requires w != [] && forall k :: 0 <= k < |rows| ==> |rows[k]| <= |w|
    requires forall k, j :: 0 <= k < |rows| && 0 <= j < |rows[k]| ==> |CellText(rows[k][j])| <= w[j]
    ensures forall k :: 0 <= k < |rows| && |rows[k]| == |w| ==>
      |RowLines(rows, w)[k]| == Sum(w) + 3 * (|w| - 1)
  {
    RowLinesAt(rows, w);
    forall k | 0 <= k < |rows| && |rows[k]| == |w|
      ensures |RowLines(rows, w)[k]| == Sum(w) + 3 * (|w| - 1)
    {
      RowLineLength(rows[k], w);
    }
  }

  /** The lines of a table laid out to widths its cells fit. */
  lemma LinesAligned(columns: seq<string>, rows: seq<seq<Value>>, w: seq<nat>)
    requires |w| == |columns| && columns != []
    requires forall k :: 0 <= k < |rows| ==> |rows[k]| <= |w|
    requires forall j :: 0 <= j < |columns| ==> |columns[j]| <= w[j]
    requires forall k, j :: 0 <= k < |rows| && 0 <= j < |rows[k]| ==> |CellText(rows[k][j])| <= w[j]
    ensures var lines := [Join(" | ", Padded(columns, w)), Join("-+-", Dashes(w))] + RowLines(rows, w);
      var width := Sum(w) + 3 * (|columns| - 1);
      && |lines| == 2 + |rows|
      && |lines[0]| == width && |lines[1]| == width
      && (forall k :: 0 <= k < |rows| && |rows[k]| == |columns| ==> |lines[2 + k]| == width)
  {
    var body := RowLines(rows, w);
    var lines := [Join(" | ", Padded(columns, w)), Join("-+-", Dashes(w))] + body;
    PaddedLineLength(columns, w);
    DashesLength(w);
    RowLinesAligned(rows, w);
    assert forall k :: 0 <= k < |rows| ==> lines[2 + k] == body[k];
  }

  /** Every cell is padded to exactly its column's width, so the header, the
      separator and every full row are lines of one and the same length. */
  lemma TextTableAligned(columns: seq<string>, rows: seq<seq<Value>>)
    requires TextTable(columns, rows).Success? && columns != []
    ensures var lines := TextTable(columns, rows).value;
      var w := Widths(columns, rows).value;
      var width := Sum(w) + 3 * (|columns| - 1);
      && |lines| == 2 + |rows|
      && |lines[0]| == width && |lines[1]| == width
      && (forall k :: 0 <= k < |rows| && |rows[k]| == |columns| ==> |lines[2 + k]| == width)
  {
    WidthsSpec(columns, rows);
    LinesAligned(columns, rows, Widths(columns, rows).value);
  }

  /** The widths loop, on the widths array: the header lengths, then each
      row widening its columns. */
  method ComputeWidths(columns: seq<string>, rows: seq<seq<Value>>) returns (r: Result<array<nat>>)
    ensures r.Failure? ==> Widths(columns, rows).Failure? && r == Failure(Widths(columns, rows).error)
    ensures r.Success? ==> fresh(r.value) && Widths(columns, rows) == Success(r.value[..])
  {
    var n := |columns|;
    var widths := new nat[n];
    for i := 0 to n
      invariant forall j :: 0 <= j < i ==> widths[j] == |columns[j]|
    {
      widths[i] := |columns[i]|;
    }
    assert widths[..] == seq(n, j requires 0 <= j < n => |columns[j]|);
    for k := 0 to |rows|
      invariant Widths(columns, rows[..k]) == Success(widths[..])
    {
      var row := rows[k];
      ghost var before := widths[..];
      for i := 0 to |row|
        invariant i <= n
        invariant forall j :: 0 <= j < n ==>
          widths[j] == if j < i then Max(before[j], |CellText(row[j])|) else before[j]
      {
        if i >= n {
          WidthsSpec(columns, rows);
          return Failure(IndexOutOfBounds(n));
        }
        var value := if Shown(row[i]).Some? then Shown(row[i]).value else "NULL";
        widths[i] := Max(widths[i], |value|);
      }
      assert rows[..k + 1][..k] == rows[..k];
      assert Widen(before, row).Success?;
      assert Widen(before, row).value == widths[..];
    }
    assert rows[..|rows|] == rows;
    r := Success(widths);
  }

  /** One line of the table: the texts padded to their widths, joined by " | ". */
  method PaddedLine(texts: seq<string>, widths: array<nat>) returns (line: string)
    requires |texts| <= widths.Length
    ensures line == Join(" | ", Padded(texts, widths[..]))
  {
    line := "";
    for i := 0 to |texts|
      invariant line == Join(" | ", Padded(texts[..i], widths[..]))
    {
      assert Padded(texts[..i + 1], widths[..])[..i] == Padded(texts[..i], widths[..]);
      if i > 0 {
        line := line + " | ";
      }
      line := line + PadRight(texts[i], widths[i]);
    }
    assert texts[..|texts|] == texts;
  }

  /** The separator line. */
  method SeparatorLine(widths: array<nat>) returns (line: string)
    ensures line == Join("-+-", Dashes(widths[..]))
  {
    line := "";
    for i := 0 to widths.Length
      invariant line == Join("-+-", Dashes(widths[..i]))
    {
      assert Dashes(widths[..i + 1])[..i] == Dashes(widths[..i]);
      if i > 0 {
        line := line + "-+-";
      }
      line := line + Repeat('-', widths[i]);
    }
    assert widths[..widths.Length] == widths[..];
  }

  /** The texts of one row's values, NULL for SQL NULL. */
  method RowTexts(row: seq<Value>) returns (texts: seq<string>)
    ensures texts == CellTexts(row)
  {
    texts := [];
    for i := 0 to |row|
      invariant |texts| == i && forall j :: 0 <= j < i ==> texts[j] == CellText(row[j])
    {
      var value := if Shown(row[i]).Some? then Shown(row[i]).value else "NULL";
      texts := texts + [value];
    }
  }

  /** exportToText(result, filename), with a column of width 0 written
      unpadded. */
  method ExportToText(result: QueryResult) returns (r: Result<seq<string>>)
    ensures r == TextTable(result.columnNames, result.rows)
  {
    var columns := result.columnNames;
    var rows := result.rows;
    var computed := ComputeWidths(columns, rows);
    if computed.Failure? {
      return Failure(computed.error);
    }
    var widths := computed.value;
    ghost var w := widths[..];
    var header := PaddedLine(columns, widths);
    var separator := SeparatorLine(widths);
    var body: seq<string> := [];
    for k := 0 to |rows|
      invariant widths[..] == w
      invariant |body| == k && forall j :: 0 <= j < k ==> body[j] == RowLine(rows[j], w)
    {
      var texts := RowTexts(rows[k]);
      var line := PaddedLine(texts, widths);
      body := body + [line];
    }
    RowLinesAt(rows, w);
    assert body == RowLines(rows, w);
    var lines := [header, separator] + body;
    r := Success(lines);
  }

  // ---------------------------------------------------------------------
  // The table as the source writes it

  /** String.format("%-" + w + "s", s): the flag '-' needs a width, and
      "%-0s" has none (the 0 reads as a flag), so a width of 0 throws. */
  function FormatLeft(s: string, w: nat): Result<string> {
    if w == 0 then Failure(MissingFormatWidth("%-0s")) else Success(PadRight(s, w))
  }

  /** The cells of one line formatted in order; the first failure decides. */
  function FormatCells(texts: seq<string>, widths: seq<nat>): Result<seq<string>>
    requires |texts| <= |widths|
  {
    if texts == [] then Success([])
    else match FormatCells(texts[..|texts| - 1], widths)
      case Failure(e) => Failure(e)
      case Success(done) =>
        match FormatLeft(texts[|texts| - 1], widths[|texts| - 1])
        case Failure(e) => Failure(e)
        case Success(cell) => Success(done + [cell])
  }

  /** The row lines, formatted in order. */
  function FormatRows(rows: seq<seq<Value>>, widths: seq<nat>): Result<seq<string>>
    requires forall k :: 0 <= k < |rows| ==> |rows[k]| <= |widths|
  {
    if rows == [] then Success([])
    else match FormatRows(rows[..|rows| - 1], widths)
      case Failure(e) => Failure(e)
      case Success(done) =>
        match FormatCells(CellTexts(rows[|rows| - 1]), widths)
        case Failure(e) => Failure(e)
        case Success(cells) => Success(done + [Join(" | ", cells)])
  }

  /** exportToText exactly as written: every cell goes through FormatLeft. */
  function TextTableAsWritten(columns: seq<string>, rows: seq<seq<Value>>): Result<seq<string>> {
    match Widths(columns, rows)
    case Failure(e) => Failure(e)
    case Success(w) =>
      match FormatCells(columns, w)
      case Failure(e) => Failure(e)
      case Success(header) =>
        match FormatRows(rows, w)
        case Failure(e) => Failure(e)
        case Success(lines) => Success([Join(" | ", header), Join("-+-", Dashes(w))] + lines)
  }

  /** With only positive widths every cell formats as its padding. */
  lemma {:induction false} FormatCellsPositive(texts: seq<string>, widths: seq<nat>)
    requires |texts| <= |widths| && forall j :: 0 <= j < |texts| ==> widths[j] > 0
    ensures FormatCells(texts, widths) == Success(Padded(texts, widths))
  {
    if texts != [] {
      FormatCellsPositive(texts[..|texts| - 1], widths);
      assert Padded(texts, widths) == Padded(texts[..|texts| - 1], widths) + [PadRight(texts[|texts| - 1], widths[|texts| - 1])];
    }
  }

  /** A zero width among the cells of a line makes the line throw. */
  lemma {:induction false} FormatCellsZero(texts: seq<string>, widths: seq<nat>, j: nat)
    requires |texts| <= |widths| && j < |texts| && widths[j] == 0
    ensures FormatCells(texts, widths) == Failure(MissingFormatWidth("%-0s"))
  {
    if j < |texts| - 1 {
      FormatCellsZero(texts[..|texts| - 1], widths, j);
    } else if FormatCells(texts[..|texts| - 1], widths).Failure? {
      FormatCellsFail(texts[..|texts| - 1], widths);
    }
  }

  /** The only way formatting a line fails. */
  lemma {:induction false} FormatCellsFail(texts: seq<string>, widths: seq<nat>)
    requires |texts| <= |widths| && FormatCells(texts, widths).Failure?
    ensures FormatCells(texts, widths).error == MissingFormatWidth("%-0s")
  {
    if texts != [] && FormatCells(texts[..|texts| - 1], widths).Failure? {
      FormatCellsFail(texts[..|texts| - 1], widths);
    }
  }

  lemma {:induction false} FormatRowsPositive(rows: seq<seq<Value>>, widths: seq<nat>)
    requires forall k :: 0 <= k < |rows| ==> |rows[k]| <= |widths|
    requires forall j :: 0 <= j < |widths| ==> widths[j] > 0
    ensures FormatRows(rows, widths) == Success(RowLines(rows, widths))
  {
    if rows != [] {
      var init := rows[..|rows| - 1];
      var last := rows[|rows| - 1];
      assert forall k :: 0 <= k < |init| ==> init[k] == rows[k];
      FormatRowsPositive(init, widths);
      FormatCellsPositive(CellTexts(last), widths);
    }
  }


  /** Where every width is positive, the source's table is the one modelled
      above. */
  lemma TextTableAgreesWhenWidthsPositive(columns: seq<string>, rows: seq<seq<Value>>)
    requires Widths(columns, rows).Success?
    requires forall j :: 0 <= j < |Widths(columns, rows).value| ==> Widths(columns, rows).value[j] > 0
    ensures TextTableAsWritten(columns, rows) == TextTable(columns, rows)
  {
    WidthsSpec(columns, rows);
    var w := Widths(columns, rows).value;
    FormatCellsPositive(columns, w);
    FormatRowsPositive(rows, w);
  }

  /** But a column whose header and cells are all empty has width 0, and then
      the source throws before the header line is complete. */
  lemma TextTableAsWrittenFailsOnZeroWidth(columns: seq<string>, rows: seq<seq<Value>>, j: nat)
    requires Widths(columns, rows).Success? && j < |columns| && Widths(columns, rows).value[j] == 0
    ensures TextTableAsWritten(columns, rows) == Failure(MissingFormatWidth("%-0s"))
    ensures TextTable(columns, rows).Success?
  {
    WidthsSpec(columns, rows);
    FormatCellsZero(columns, Widths(columns, rows).value, j);
  }

  /** The smallest instance: one column named "" and no rows. The source
      throws; the table is an empty header and an empty separator. */
  lemma EmptyColumnNameCounterexample()
    ensures TextTableAsWritten([""], []) == Failure(MissingFormatWidth("%-0s"))
    ensures TextTable([""], []) == Success(["", ""])
  {
    var w := Widths([""], []).value;
    assert |w| == 1 && w[0] == 0;
    assert w == [0];
    assert Padded([""], w) == [""];
    assert Dashes(w) == [""];
    assert RowLines([], w) == [];
    assert Join(" | ", [""]) == "" && Join("-+-", [""]) == "";
    var noRows: seq<seq<Value>> := [];
    var lines: seq<string> := ["", ""];
    assert lines + RowLines(noRows, w) == lines;
    assert TextTable([""], noRows) == Success(lines);
    TextTableAsWrittenFailsOnZeroWidth([""], noRows, 0);
  }
}
