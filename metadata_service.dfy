/** MetadataService.java: schemas, tables and columns of the connected
    database, read through the dialect's catalog queries. */
module MetadataService {
  import opened Wrappers
  import opened Text
  import opened Jdbc
  import opened Dialect
  import opened DialectFactory
  import opened DatabaseConnection

  // ---------------------------------------------------------------------
  // Schemas and tables

  /** getString(1) of every row, in order; the first row without a first
      column decides the error. */
  function FirstColumn(rows: seq<seq<Value>>): Result<seq<Option<string>>> {
    if rows == [] then Success([])
    else match FirstColumn(rows[..|rows| - 1])
      case Failure(e) => Failure(e)
      case Success(done) =>
        match GetString(rows[|rows| - 1], 1)
        case Failure(e) => Failure(e)
        case Success(v) => Success(done + [v])
  }

  /** The names read are the first values of the rows, one per row in cursor
      order; this fails exactly when some row has no value at all. */
  lemma {:induction false} FirstColumnSpec(rows: seq<seq<Value>>)
    ensures FirstColumn(rows).Success? <==> forall i :: 0 <= i < |rows| ==> rows[i] != []
    ensures FirstColumn(rows).Success? ==>
      |FirstColumn(rows).value| == |rows|
      && forall i :: 0 <= i < |rows| ==> FirstColumn(rows).value[i] == Shown(rows[i][0])
    ensures FirstColumn(rows).Failure? ==> FirstColumn(rows).error == Sql("Invalid column index: 1", [])
  {
    if rows != [] {
      var init := rows[..|rows| - 1];
      FirstColumnSpec(init);
      assert forall i :: 0 <= i < |init| ==> init[i] == rows[i];
      assert IntToString(1) == "1";
    }
  }

  /** Once a prefix of the rows fails, the whole list fails the same way. */
  lemma {:induction false} FirstColumnFailsEarly(rows: seq<seq<Value>>, k: nat)
    requires k <= |rows| && FirstColumn(rows[..k]).Failure?
    ensures FirstColumn(rows) == FirstColumn(rows[..k])
    decreases |rows| - k
  {
    if k < |rows| {
      assert rows[..k + 1][..k] == rows[..k];
      FirstColumnFailsEarly(rows, k + 1);
    } else {
      assert rows[..k] == rows;
    }
  }

  /** The loop listSchemas and listTables share: rs.getString(1) of each row. */
  method CollectFirstColumn(rows: seq<seq<Value>>) returns (r: Result<seq<Option<string>>>)
    ensures r == FirstColumn(rows)
  {
    var names: seq<Option<string>> := [];
    var k := 0;
    while k < |rows|
      invariant 0 <= k <= |rows|
      invariant FirstColumn(rows[..k]) == Success(names)
    {
      var name := GetString(rows[k], 1);
      assert rows[..k + 1][..k] == rows[..k];
      if name.Failure? {
        FirstColumnFailsEarly(rows, k + 1);
        return Failure(name.error);
      }
      names := names + [name.value];
      k := k + 1;
    }
    assert rows[..k] == rows;
    r := Success(names);
  }

  /** listSchemas(connection): the first column of the dialect's schemas query. */
  method ListSchemas(conn: DatabaseConnection, mysql: MySQLDialect) returns (r: Result<seq<Option<string>>>)
    ensures var d := GetDialect(conn.profile.databaseType, mysql);
      && (d.Failure? ==> r == Failure(d.error))
      && (d.Success? ==>
            var answer := conn.ExecuteQuery(ListSchemasQuery(d.value));
            && (answer.Failure? ==> r == Failure(answer.error))
            && (answer.Success? ==> r == FirstColumn(answer.value.rows)))
  {
    var dialect := GetDialect(conn.DatabaseType(), mysql);
    if dialect.Failure? {
      return Failure(dialect.error);
    }
    var answer := conn.ExecuteQuery(ListSchemasQuery(dialect.value));
    if answer.Failure? {
      return Failure(answer.error);
    }
    r := CollectFirstColumn(answer.value.rows);
  }

  /** listTables(connection, schema): the first column of the dialect's tables
      query for that schema. */
  method ListTables(conn: DatabaseConnection, mysql: MySQLDialect, schema: Option<string>)
      returns (r: Result<seq<Option<string>>>)
    ensures var d := GetDialect(conn.profile.databaseType, mysql);
      && (d.Failure? ==> r == Failure(d.error))
      && (d.Success? ==>
            var answer := conn.ExecuteQuery(ListTablesQuery(d.value, schema));
            && (answer.Failure? ==> r == Failure(answer.error))
            && (answer.Success? ==> r == FirstColumn(answer.value.rows)))
  {
    var dialect := GetDialect(conn.DatabaseType(), mysql);
    if dialect.Failure? {
      return Failure(dialect.error);
    }
    var answer := conn.ExecuteQuery(ListTablesQuery(dialect.value, schema));
    if answer.Failure? {
      return Failure(answer.error);
    }
    r := CollectFirstColumn(answer.value.rows);
  }

  // ---------------------------------------------------------------------
  // Columns

  /** MetadataService.ColumnInfo */
  datatype ColumnInfo = ColumnInfo(
    name: Option<string>,
    dataType: Option<string>,
    nullable: bool,
    defaultValue: Option<string>)
  {
    /** toString(): "name (type)" followed by " NULL" or " NOT NULL". */
    function ToString(): string {
      ValueOf(name) + " (" + ValueOf(dataType) + ")" + (if nullable then " NULL" else " NOT NULL")
    }
  }

  /** The text starts with the name and " (", and its end tells whether the
      column is nullable: ") NULL" exactly when it is, ") NOT NULL" exactly
      when it is not. */
  lemma ToStringShape(c: ColumnInfo)
    ensures var s := c.ToString();
      var head := ValueOf(c.name) + " (";
      && |head| <= |s| && s[..|head|] == head
      && (|s| >= 6 && s[|s| - 6..] == ") NULL" <==> c.nullable)
      && (|s| >= 10 && s[|s| - 10..] == ") NOT NULL" <==> !c.nullable)
  {
    var s := c.ToString();
    var head := ValueOf(c.name) + " (";
    var a := head + ValueOf(c.dataType);
    var tail := if c.nullable then ") NULL" else ") NOT NULL";
    assert s == head + ValueOf(c.dataType) + (")" + (if c.nullable then " NULL" else " NOT NULL"));
    assert s == a + tail;
    assert s[..|head|] == head;
    assert s[|a|..] == tail;
    if c.nullable {
      assert s[|s| - 6..] == ") NULL";
      if |s| >= 10 { assert s[|s| - 10..][4] == s[|s| - 6] == ')'; }
    } else {
      assert s[|s| - 10..] == ") NOT NULL";
      assert s[|s| - 6..][0] == 'T';
    }
  }

  /** One row of SQLite's PRAGMA table_info: the columns are read in the
      order name, type, notnull, dflt_value, and nullable means notnull = 0. */
  function PragmaColumn(columns: seq<string>, row: seq<Value>): Result<ColumnInfo> {
    match GetStringByLabel(columns, row, "name")
    case Failure(e) => Failure(e)
    case Success(name) =>
      match GetStringByLabel(columns, row, "type")
      case Failure(e) => Failure(e)
      case Success(dataType) =>
        match GetIntByLabel(columns, row, "notnull")
        case Failure(e) => Failure(e)
        case Success(notNull) =>
          match GetStringByLabel(columns, row, "dflt_value")
          case Failure(e) => Failure(e)
          case Success(defaultValue) => Success(ColumnInfo(name, dataType, notNull == 0, defaultValue))
  }

  /** One row of information_schema.columns: column_name, data_type,
      is_nullable, column_default; nullable means is_nullable is exactly YES. */
  function InformationSchemaColumn(columns: seq<string>, row: seq<Value>): Result<ColumnInfo> {
    match GetStringByLabel(columns, row, "column_name")
    case Failure(e) => Failure(e)
    case Success(name) =>
      match GetStringByLabel(columns, row, "data_type")
      case Failure(e) => Failure(e)
      case Success(dataType) =>
        match GetStringByLabel(columns, row, "is_nullable")
        case Failure(e) => Failure(e)
        case Success(isNullable) =>
          match GetStringByLabel(columns, row, "column_default")
          case Failure(e) => Failure(e)
          case Success(defaultValue) => Success(ColumnInfo(name, dataType, isNullable == Some("YES"), defaultValue))
  }

  /** A SQLite PRAGMA row, the four labels found (ignoring case) within the
      row: it reads exactly when notnull holds a number or SQL NULL, and the
      column is then nullable exactly when that value is NULL or 0; name, type
      and default are the row's values under name, type and dflt_value. */
  lemma PragmaNullable(columns: seq<string>, row: seq<Value>, name: nat, dataType: nat, notNull: nat, dflt: nat)
    requires FirstLabelled(columns, "name", name) && FirstLabelled(columns, "type", dataType)
    requires FirstLabelled(columns, "notnull", notNull) && FirstLabelled(columns, "dflt_value", dflt)
    requires name < |row| && dataType < |row| && notNull < |row| && dflt < |row|
    ensures PragmaColumn(columns, row).Success? <==> row[notNull].Null? || row[notNull].Num?
    ensures PragmaColumn(columns, row).Success? ==>
      PragmaColumn(columns, row).value ==
        ColumnInfo(Shown(row[name]), Shown(row[dataType]), row[notNull] == Null || row[notNull] == Num(0), Shown(row[dflt]))
  {
    FindColumnSpec(columns, "name");
    FindColumnSpec(columns, "type");
    FindColumnSpec(columns, "notnull");
    FindColumnSpec(columns, "dflt_value");
  }

  /** Any other backend's row, the four labels found within it: it always
      reads, and the column is nullable exactly when is_nullable shows as the
      text YES, compared case-sensitively, so "yes" and SQL NULL mean not
      nullable. */
  lemma InformationSchemaNullable(columns: seq<string>, row: seq<Value>,
                                  name: nat, dataType: nat, isNullable: nat, dflt: nat)
    requires FirstLabelled(columns, "column_name", name) && FirstLabelled(columns, "data_type", dataType)
    requires FirstLabelled(columns, "is_nullable", isNullable) && FirstLabelled(columns, "column_default", dflt)
    requires name < |row| && dataType < |row| && isNullable < |row| && dflt < |row|
    ensures InformationSchemaColumn(columns, row) ==
      Success(ColumnInfo(Shown(row[name]), Shown(row[dataType]), Shown(row[isNullable]) == Some("YES"), Shown(row[dflt])))
    ensures row[isNullable] == Null || row[isNullable] == Str("yes") ==>
      !InformationSchemaColumn(columns, row).value.nullable
  {
    FindColumnSpec(columns, "column_name");
    FindColumnSpec(columns, "data_type");
    FindColumnSpec(columns, "is_nullable");
    FindColumnSpec(columns, "column_default");
    if row[isNullable] == Str("yes") {
      assert "yes"[0] != "YES"[0];
    }
  }

  /** A row without one of the labels its layout reads fails with the
      driver's invalid-label error. */
  lemma MissingLabelFails(columns: seq<string>, row: seq<Value>)
    ensures (forall j :: 0 <= j < |columns| ==> !EqualsIgnoreCase(columns[j], "name")) ==>
      PragmaColumn(columns, row) == Failure(Sql("Invalid column label: name", []))
    ensures (forall j :: 0 <= j < |columns| ==> !EqualsIgnoreCase(columns[j], "column_name")) ==>
      InformationSchemaColumn(columns, row) == Failure(Sql("Invalid column label: column_name", []))
  {
    FindColumnSpec(columns, "name");
    FindColumnSpec(columns, "column_name");
    assert "Invalid column label: " + "name" == "Invalid column label: name";
    assert "Invalid column label: " + "column_name" == "Invalid column label: column_name";
  }

  /** The column a row describes, in the layout of the backend's query. */
  function ColumnOf(sqlite: bool, columns: seq<string>, row: seq<Value>): Result<ColumnInfo> {
    if sqlite then PragmaColumn(columns, row) else InformationSchemaColumn(columns, row)
  }

  /** Reading every row of the result set, in order. */
  function ColumnReads(sqlite: bool, cursor: Cursor): (r: seq<Result<ColumnInfo>>)
    ensures |r| == |cursor.rows|
    ensures forall k :: 0 <= k < |cursor.rows| ==> r[k] == ColumnOf(sqlite, cursor.columns, cursor.rows[k])
  {
    seq(|cursor.rows|, k requires 0 <= k < |cursor.rows| => ColumnOf(sqlite, cursor.columns, cursor.rows[k]))
  }

  /** The ColumnInfo list; the first row that fails decides. */
  function Columns(sqlite: bool, cursor: Cursor): Result<seq<ColumnInfo>> {
    Collect(ColumnReads(sqlite, cursor))
  }

  /** Exactly one ColumnInfo per row, in cursor order, when every row can be
      read; otherwise the error of the first row that cannot. */
  lemma ColumnsSpec(sqlite: bool, cursor: Cursor)
    ensures Columns(sqlite, cursor).Success? <==>
      forall i :: 0 <= i < |cursor.rows| ==> ColumnOf(sqlite, cursor.columns, cursor.rows[i]).Success?
    ensures Columns(sqlite, cursor).Success? ==>
      |Columns(sqlite, cursor).value| == |cursor.rows|
      && forall i :: 0 <= i < |cursor.rows| ==>
           Columns(sqlite, cursor).value[i] == ColumnOf(sqlite, cursor.columns, cursor.rows[i]).value
    ensures Columns(sqlite, cursor).Failure? ==>
      exists i :: 0 <= i < |cursor.rows| && ColumnOf(sqlite, cursor.columns, cursor.rows[i]).Failure?
        && (forall j :: 0 <= j < i ==> ColumnOf(sqlite, cursor.columns, cursor.rows[j]).Success?)
        && Columns(sqlite, cursor).error == ColumnOf(sqlite, cursor.columns, cursor.rows[i]).error
  {
    CollectSpec(ColumnReads(sqlite, cursor));
  }

  /** The SQLite layout is used exactly when the factory picked the SQLite
      dialect, so the rows read are those of that dialect's PRAGMA query. */
  lemma SqliteLayoutMatchesDialect(databaseType: string, mysql: MySQLDialect)
    requires GetDialect(Some(databaseType), mysql).Success?
    ensures EqualsIgnoreCase(databaseType, "sqlite") <==> GetDialect(Some(databaseType), mysql).value == SQLite
  {
    GetDialectSelects(databaseType, mysql);
  }

  /** The loop of listColumns over the rows, in the layout the backend's
      catalog query returns. */
  method ReadColumns(sqlite: bool, cursor: Cursor) returns (r: Result<seq<ColumnInfo>>)
    ensures r == Columns(sqlite, cursor)
  {
    ghost var attempts := ColumnReads(sqlite, cursor);
    var columns: seq<ColumnInfo> := [];
    var k := 0;
    while k < |cursor.rows|
      invariant 0 <= k <= |cursor.rows|
      invariant Collect(attempts[..k]) == Success(columns)
    {
      var c := ColumnOf(sqlite, cursor.columns, cursor.rows[k]);
      assert attempts[..k + 1][..k] == attempts[..k];
      if c.Failure? {
        CollectFailsEarly(attempts, k + 1);
        return Failure(c.error);
      }
      columns := columns + [c.value];
      k := k + 1;
    }
    assert attempts[..k] == attempts;
    r := Success(columns);
  }

  /** listColumns(connection, schema, table) */
  method ListColumns(conn: DatabaseConnection, mysql: MySQLDialect, schema: Option<string>, table: string)
      returns (r: Result<seq<ColumnInfo>>)
    ensures var d := GetDialect(conn.profile.databaseType, mysql);
      && (d.Failure? ==> r == Failure(d.error))
      && (d.Success? ==>
            var answer := conn.ExecuteQuery(ListColumnsQuery(d.value, schema, table));
            && (answer.Failure? ==> r == Failure(answer.error))
            && (answer.Success? ==>
                  r == Columns(EqualsIgnoreCase(conn.profile.databaseType.value, "sqlite"), answer.value)))
  {
    var databaseType := conn.DatabaseType();
    var dialect := GetDialect(databaseType, mysql);
    if dialect.Failure? {
      return Failure(dialect.error);
    }
    var answer := conn.ExecuteQuery(ListColumnsQuery(dialect.value, schema, table));
    if answer.Failure? {
      return Failure(answer.error);
    }
    r := ReadColumns(EqualsIgnoreCase(databaseType.value, "sqlite"), answer.value);
  }
}
