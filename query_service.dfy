/** QueryService.java: running a statement on a connection, with optional
    pagination, and reading an execution plan. The clock is not modelled: the
    two readings executeQuery takes are parameters. */
module QueryService {
  import opened Wrappers
  import opened Text
  import opened Jdbc
  import opened Dialect
  import opened DialectFactory
  import opened QueryResult
  import opened DatabaseConnection
  import PostgresDialect
  import opened SqlSyntax

  /** The largest offset a paginated query may ask for. */
  const MaxQueryOffset: int := 1_000_000

  // ---------------------------------------------------------------------
  // Which statement runs

  /** The statement executeQuery sends: the query itself without a positive
      limit; otherwise, when the offset is within bounds, the query with the
      dialect's pagination. The offset is checked before the dialect is
      looked up. */
  function ExecutedSql(databaseType: Option<string>, mysql: MySQLDialect, query: string,
                       limit: Int32, offset: Int32): Result<string> {
    if limit <= 0 then Success(query)
    else if offset > MaxQueryOffset then
      Failure(IllegalArgument("Offset too large: " + IntToString(offset)
                              + ". Maximum allowed is " + IntToString(MaxQueryOffset)))
    else match GetDialect(databaseType, mysql)
      case Failure(e) => Failure(e)
      case Success(d) => AddPagination(d, query, limit, offset)
  }

  /** Without a positive limit the query runs as given, whatever the offset
      and even when the database type is null or unknown. */
  lemma UnpaginatedRunsQuery(databaseType: Option<string>, mysql: MySQLDialect, query: string,
                             limit: Int32, offset: Int32)
    requires limit <= 0
    ensures ExecutedSql(databaseType, mysql, query, limit, offset) == Success(query)
  {
  }

  /** The bound as the message spells it. */
  lemma MaxQueryOffsetText()
    ensures IntToString(MaxQueryOffset) == "1000000"
  {
    PowerOfTenText(6);
  }

  /** 10^k is written as a one and k zeros. */
  lemma {:induction false} PowerOfTenText(k: nat)
    ensures NatToString(TenTo(k)) == "1" + Repeat('0', k)
  {
    if k > 0 {
      PowerOfTenText(k - 1);
      assert TenTo(k) / 10 == TenTo(k - 1) && TenTo(k) % 10 == 0;
      assert "1" + Repeat('0', k - 1) + "0" == "1" + Repeat('0', k);
    }
  }

  function TenTo(k: nat): (r: nat)
    ensures r >= 1
  {
    if k == 0 then 1 else 10 * TenTo(k - 1)
  }

  /** A positive limit with an offset above the bound is an argument error,
      raised before the database type is even looked at. */
  lemma OffsetGuard(databaseType: Option<string>, mysql: MySQLDialect, query: string,
                    limit: Int32, offset: Int32)
    requires limit > 0 && offset > MaxQueryOffset
    ensures ExecutedSql(databaseType, mysql, query, limit, offset) ==
      Failure(IllegalArgument("Offset too large: " + IntToString(offset) + ". Maximum allowed is 1000000"))
  {
    MaxQueryOffsetText();
    var head := "Offset too large: " + IntToString(offset);
    assert head + ". Maximum allowed is " + "1000000" == head + ". Maximum allowed is 1000000";
  }

  /** With a positive limit and an offset in bounds the statement is the
      dialect's pagination of the query; on PostgreSQL that is the query
      followed by a clause that reads back as the limit and the offset, and a
      negative offset is refused by the dialect. */
  lemma PaginatedRunsDialectPagination(databaseType: string, mysql: MySQLDialect, query: string,
                                       limit: Int32, offset: Int32)
    requires limit > 0 && offset <= MaxQueryOffset
    ensures var sql := ExecutedSql(Some(databaseType), mysql, query, limit, offset);
      && (GetDialect(Some(databaseType), mysql).Failure? ==>
            sql == Failure(GetDialect(Some(databaseType), mysql).error))
      && (GetDialect(Some(databaseType), mysql).Success? ==>
            sql == AddPagination(GetDialect(Some(databaseType), mysql).value, query, limit, offset))
    ensures EqualsIgnoreCase(databaseType, "postgresql") ==>
      var sql := ExecutedSql(Some(databaseType), mysql, query, limit, offset);
      && (offset < 0 ==> sql.Failure? && sql.error.IllegalArgument?)
      && (offset >= 0 ==>
            && sql.Success?
            && sql.value[..|query|] == query
            && ReadPagination(sql.value[|query|..]) == Some((limit as int, offset as int)))
  {
    if EqualsIgnoreCase(databaseType, "postgresql") {
      GetDialectSelects(databaseType, mysql);
      PostgresDialect.AddPaginationRejects(query, limit, offset);
      if offset >= 0 {
        PostgresDialect.AddPaginationReadsBack(query, limit, offset);
      }
    }
  }

  // ---------------------------------------------------------------------
  // Materialising a result set

  /** One row as executeQuery reads it: getObject(1) to getObject(n). A row
      shorter than the metadata's column count fails at the first missing
      index. */
  function RowValues(row: seq<Value>, n: nat): Result<seq<Value>> {
    if n <= |row| then Success(row[..n])
    else Failure(Sql("Invalid column index: " + IntToString(|row| + 1), []))
  }

  /** The attempt to read each row, in cursor order. */
  function RowReads(rows: seq<seq<Value>>, n: nat): (r: seq<Result<seq<Value>>>)
    ensures |r| == |rows|
    ensures forall k :: 0 <= k < |rows| ==> r[k] == RowValues(rows[k], n)
  {
    seq(|rows|, k requires 0 <= k < |rows| => RowValues(rows[k], n))
  }

  /** Every row, in cursor order; the first row that fails decides. */
  function Rows(rows: seq<seq<Value>>, n: nat): Result<seq<seq<Value>>> {
    Collect(RowReads(rows, n))
  }

  /** The rows are read exactly when every row has the column count's values;
      then each is that row's first n values, in order. Otherwise the error
      is the one of the first short row. */
  lemma RowsSpec(rows: seq<seq<Value>>, n: nat)
    ensures Rows(rows, n).Success? <==> forall i :: 0 <= i < |rows| ==> n <= |rows[i]|
    ensures Rows(rows, n).Success? ==>
      |Rows(rows, n).value| == |rows| && forall i :: 0 <= i < |rows| ==> Rows(rows, n).value[i] == rows[i][..n]
    ensures Rows(rows, n).Failure? ==>
      exists i :: 0 <= i < |rows| && |rows[i]| < n && (forall j :: 0 <= j < i ==> n <= |rows[j]|)
        && Rows(rows, n).error == Sql("Invalid column index: " + IntToString(|rows[i]| + 1), [])
  {
    var attempts := RowReads(rows, n);
    CollectSpec(attempts);
    if Rows(rows, n).Failure? {
      var i :| 0 <= i < |attempts| && attempts[i].Failure? && (forall j :: 0 <= j < i ==> attempts[j].Success?)
        && Collect(attempts).error == attempts[i].error;
      assert |rows[i]| < n;
    }
  }

  /** The QueryResult built from a result set. */
  function Materialised(cursor: Cursor, elapsed: int): Result<QueryResult> {
    match Rows(cursor.rows, |cursor.columns|)
    case Failure(e) => Failure(e)
    case Success(rows) => Success(NewQueryResult(cursor.columns, rows, elapsed))
  }

  /** The column names are the metadata's, in order; there is one row per
      cursor row, in cursor order, each with exactly column-count values, and
      the row count is the number of cursor rows. */
  lemma MaterialisedShape(cursor: Cursor, elapsed: int)
    ensures Materialised(cursor, elapsed).Success? <==>
      forall i :: 0 <= i < |cursor.rows| ==> |cursor.columns| <= |cursor.rows[i]|
    ensures Materialised(cursor, elapsed).Success? ==>
      var q := Materialised(cursor, elapsed).value;
      && q.Valid() && q.columnNames == cursor.columns && q.executionTimeMs == elapsed
      && q.rowCount == |cursor.rows|
      && forall i :: 0 <= i < |q.rows| ==>
           q.rows[i] == cursor.rows[i][..|cursor.columns|] && |q.rows[i]| == q.ColumnCount()
  {
    RowsSpec(cursor.rows, |cursor.columns|);
  }

  /** executeQuery(connection, query, limit, offset) */
  method ExecuteQuery(conn: DatabaseConnection, mysql: MySQLDialect, query: string,
                      limit: Int32, offset: Int32, startTime: int, endTime: int)
      returns (r: Result<QueryResult>)
    ensures var sql := ExecutedSql(conn.profile.databaseType, mysql, query, limit, offset);
      && (sql.Failure? ==> r == Failure(sql.error))
      && (sql.Success? ==>
            var answer := conn.ExecuteQuery(sql.value);
            && (answer.Failure? ==> r == Failure(answer.error))
            && (answer.Success? ==> r == Materialised(answer.value, endTime - startTime)))
  {
    var sql := ExecutedSql(conn.DatabaseType(), mysql, query, limit, offset);
    if sql.Failure? {
      return Failure(sql.error);
    }
    var answer := conn.ExecuteQuery(sql.value);
    if answer.Failure? {
      return Failure(answer.error);
    }
    var cursor := answer.value;
    var columnCount := |cursor.columns|;
    var columnNames: seq<string> := [];
    for i := 1 to columnCount + 1
      invariant columnNames == cursor.columns[..i - 1]
    {
      columnNames := columnNames + [cursor.columns[i - 1]];
    }
    assert columnNames == cursor.columns;
    ghost var attempts := RowReads(cursor.rows, columnCount);
    var rows: seq<seq<Value>> := [];
    var k := 0;
    while k < |cursor.rows|
      invariant 0 <= k <= |cursor.rows|
      invariant Collect(attempts[..k]) == Success(rows)
    {
      var source := cursor.rows[k];
      var row: seq<Value> := [];
      for i := 1 to columnCount + 1
        invariant i - 1 <= |source| && row == source[..i - 1]
      {
        var value := GetObject(source, i);
        if value.Failure? {
          assert attempts[..k + 1][..k] == attempts[..k];
          CollectFailsEarly(attempts, k + 1);
          return Failure(value.error);
        }
        row := row + [value.value];
      }
      assert attempts[..k + 1][..k] == attempts[..k];
      rows := rows + [row];
      k := k + 1;
    }
    assert attempts[..k] == attempts;
    r := Success(NewQueryResult(columnNames, rows, endTime - startTime));
  }

  /** executeQuery(connection, query): the query runs as given, without
      pagination. */
  method ExecuteQueryUnpaginated(conn: DatabaseConnection, mysql: MySQLDialect, query: string,
                                 startTime: int, endTime: int)
      returns (r: Result<QueryResult>)
    ensures var answer := conn.ExecuteQuery(query);
      && (answer.Failure? ==> r == Failure(answer.error))
      && (answer.Success? ==> r == Materialised(answer.value, endTime - startTime))
  {
    UnpaginatedRunsQuery(conn.profile.databaseType, mysql, query, -1, 0);
    r := ExecuteQuery(conn, mysql, query, -1, 0, startTime, endTime);
  }

  /** executeUpdate(connection, query): the count the database reports; a
      connection that was never opened, or is closed, fails first. */
  function ExecuteUpdate(conn: DatabaseConnection, query: string): (r: Result<int>)
    reads conn, conn.handle
    ensures conn.handle == null ==> r == Failure(NullPointer)
    ensures conn.handle != null && conn.handle.closed ==> r == Failure(Sql("Connection is closed", []))
    ensures conn.handle != null && !conn.handle.closed ==> r == conn.handle.engine.executeUpdate(query)
  {
    conn.ExecuteUpdate(query)
  }

  // ---------------------------------------------------------------------
  // Execution plans

  /** The texts getString gives for a row's values. */
  function PlanCells(row: seq<Value>): (r: seq<string>)
    ensures |r| == |row| && forall i :: 0 <= i < |row| ==> r[i] == ValueOf(Shown(row[i]))
  {
    seq(|row|, i requires 0 <= i < |row| => ValueOf(Shown(row[i])))
  }

  /** One row of the plan: its first n values joined by " | ", then a newline. */
  function PlanLine(row: seq<Value>, n: nat): Result<string> {
    if n <= |row| then Success(Join(" | ", PlanCells(row[..n])) + "\n")
    else Failure(Sql("Invalid column index: " + IntToString(|row| + 1), []))
  }

  /** The text getExplainPlan builds from a result set's rows. */
  function PlanText(rows: seq<seq<Value>>, n: nat): Result<string> {
    if rows == [] then Success("")
    else match PlanText(rows[..|rows| - 1], n)
      case Failure(e) => Failure(e)
      case Success(done) =>
        match PlanLine(rows[|rows| - 1], n)
        case Failure(e) => Failure(e)
        case Success(line) => Success(done + line)
  }

  /** Once a prefix of the rows fails, the whole plan fails the same way. */
  lemma {:induction false} PlanTextFailEarly(rows: seq<seq<Value>>, k: nat, n: nat)
    requires k <= |rows| && PlanText(rows[..k], n).Failure?
    ensures PlanText(rows, n) == PlanText(rows[..k], n)
    decreases |rows| - k
  {
    if k < |rows| {
      assert rows[..k + 1][..k] == rows[..k];
      PlanTextFailEarly(rows, k + 1, n);
    } else {
      assert rows[..k] == rows;
    }
  }

  /** The plan has one line per result row: when no value contains a line
      break, the text holds exactly as many newlines as there are rows, and
      it is empty or ends in a newline. */
  lemma {:induction false} PlanHasOneLinePerRow(rows: seq<seq<Value>>, n: nat)
    requires forall i, j :: 0 <= i < |rows| && 0 <= j < |rows[i]| ==> '\n' !in ValueOf(Shown(rows[i][j]))
    requires PlanText(rows, n).Success?
    ensures Count(PlanText(rows, n).value, '\n') == |rows|
    ensures PlanText(rows, n).value == "" || PlanText(rows, n).value[|PlanText(rows, n).value| - 1] == '\n'
  {
    if rows != [] {
      var init := rows[..|rows| - 1];
      var last := rows[|rows| - 1];
      assert forall i :: 0 <= i < |init| ==> init[i] == rows[i];
      PlanHasOneLinePerRow(init, n);
      var done := PlanText(init, n).value;
      var cells := PlanCells(last[..n]);
      assert forall k :: 0 <= k < |cells| ==> '\n' !in cells[k] by {
        forall k | 0 <= k < |cells| ensures '\n' !in cells[k] {
          assert last[..n][k] == last[k];
        }
      }
      JoinExcludes(" | ", cells, '\n');
      CountAbsent(Join(" | ", cells), '\n');
      CountAppend(Join(" | ", cells), "\n", '\n');
      CountAppend(done, Join(" | ", cells) + "\n", '\n');
    }
  }

  /** The inner loop of getExplainPlan: the values of one row, 1 to n, with
      " | " between them and a newline after them. */
  method PlanRow(source: seq<Value>, n: nat) returns (r: Result<string>)
    ensures r == PlanLine(source, n)
  {
    var line := "";
    for i := 1 to n + 1
      invariant i - 1 <= |source|
      invariant line == Join(" | ", PlanCells(source[..i - 1]))
    {
      var text := GetString(source, i);
      if text.Failure? {
        return Failure(text.error);
      }
      var cells := PlanCells(source[..i]);
      assert cells[..i - 1] == PlanCells(source[..i - 1]);
      if i > 1 {
        line := line + " | ";
      }
      line := line + ValueOf(text.value);
    }
    r := Success(line + "\n");
  }

  /** getExplainPlan(connection, query): runs the dialect's plan statement for
      the query and renders every row of its answer. */
  method GetExplainPlan(conn: DatabaseConnection, mysql: MySQLDialect, query: string)
      returns (r: Result<string>)
    ensures var d := GetDialect(conn.profile.databaseType, mysql);
      && (d.Failure? ==> r == Failure(d.error))
      && (d.Success? ==>
            var answer := conn.ExecuteQuery(ExplainQuery(d.value, query));
            && (answer.Failure? ==> r == Failure(answer.error))
            && (answer.Success? ==> r == PlanText(answer.value.rows, |answer.value.columns|)))
  {
    var dialect := GetDialect(conn.DatabaseType(), mysql);
    if dialect.Failure? {
      return Failure(dialect.error);
    }
    var answer := conn.ExecuteQuery(ExplainQuery(dialect.value, query));
    if answer.Failure? {
      return Failure(answer.error);
    }
    var rows := answer.value.rows;
    var columnCount := |answer.value.columns|;
    var result := "";
    var k := 0;
    while k < |rows|
      invariant 0 <= k <= |rows|
      invariant PlanText(rows[..k], columnCount) == Success(result)
    {
      var line := PlanRow(rows[k], columnCount);
      assert rows[..k + 1][..k] == rows[..k];
      if line.Failure? {
        PlanTextFailEarly(rows, k + 1, columnCount);
        return Failure(line.error);
      }
      result := result + line.value;
      k := k + 1;
    }
    assert rows[..k] == rows;
    r := Success(result);
  }
}
