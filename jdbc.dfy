/** The JDBC layer the client talks to (java.sql.Connection, Statement,
    ResultSet), as far as the client uses it. The database itself is not
    modelled: what it answers to a statement is a function value. */
module Jdbc {
  import opened Wrappers
  import opened Text

  /** A value ResultSet.getObject returns. */
  datatype Value =
    | Null
    | Str(s: string)
    | Num(n: int)
      /** any other object, with what its toString() gives */
    | Obj(shown: string)

  /** toString() of a non-null value, which is also what ResultSet.getString
      gives; None for SQL NULL. */
  function Shown(v: Value): Option<string> {
    match v
    case Null => None
    case Str(s) => Some(s)
    case Num(n) => Some(IntToString(n))
    case Obj(t) => Some(t)
  }

  /** A ResultSet: the column labels its metadata reports, and its rows in
      the order next() visits them. */
  datatype Cursor = Cursor(columns: seq<string>, rows: seq<seq<Value>>)

  /** ResultSet.getObject(index), 1-based. */
  function GetObject(row: seq<Value>, index: int): Result<Value> {
    if 1 <= index <= |row| then Success(row[index - 1])
    else Failure(Sql("Invalid column index: " + IntToString(index), []))
  }

  /** ResultSet.getString(index) */
  function GetString(row: seq<Value>, index: int): Result<Option<string>> {
    match GetObject(row, index)
    case Failure(e) => Failure(e)
    case Success(v) => Success(Shown(v))
  }

  /** ResultSet.findColumn: the first column whose label equals the given one
      ignoring case (0-based here). */
  function FindColumn(columns: seq<string>, columnLabel: string): Option<nat>
    decreases |columns|
  {
    if columns == [] then None
    else if EqualsIgnoreCase(columns[0], columnLabel) then Some(0)
    else match FindColumn(columns[1..], columnLabel)
      case None => None
      case Some(i) => Some(i + 1)
  }

  /** Column i is the first one whose label equals the given one ignoring
      case. */
  predicate FirstLabelled(columns: seq<string>, columnLabel: string, i: nat) {
    && i < |columns| && EqualsIgnoreCase(columns[i], columnLabel)
    && forall j :: 0 <= j < i ==> !EqualsIgnoreCase(columns[j], columnLabel)
  }

  /** findColumn finds the first matching label, and fails exactly when no
      label matches. */
  lemma {:induction false} FindColumnSpec(columns: seq<string>, columnLabel: string)
    ensures forall i: nat :: FindColumn(columns, columnLabel) == Some(i) <==> FirstLabelled(columns, columnLabel, i)
    ensures FindColumn(columns, columnLabel).None? <==>
      forall j :: 0 <= j < |columns| ==> !EqualsIgnoreCase(columns[j], columnLabel)
    decreases |columns|
  {
    if columns != [] && !EqualsIgnoreCase(columns[0], columnLabel) {
      var tail := columns[1..];
      FindColumnSpec(tail, columnLabel);
      forall i: nat
        ensures FindColumn(columns, columnLabel) == Some(i) <==> FirstLabelled(columns, columnLabel, i)
      {
        if i > 0 {
          assert FirstLabelled(columns, columnLabel, i) <==> FirstLabelled(tail, columnLabel, i - 1) by {
            forall j | 0 <= j < i - 1 && j < |tail| ensures tail[j] == columns[j + 1] { }
          }
        }
      }
      if FindColumn(columns, columnLabel).None? {
        forall j | 0 <= j < |columns| ensures !EqualsIgnoreCase(columns[j], columnLabel) {
          if j > 0 { assert columns[j] == tail[j - 1]; }
        }
      }
    }
  }

  /** ResultSet.getString(columnLabel) */
  function GetStringByLabel(columns: seq<string>, row: seq<Value>, columnLabel: string): Result<Option<string>> {
    match FindColumn(columns, columnLabel)
    case None => Failure(Sql("Invalid column label: " + columnLabel, []))
    case Some(i) => GetString(row, i + 1)
  }

  /** ResultSet.getInt(columnLabel): SQL NULL reads as 0. */
  function GetIntByLabel(columns: seq<string>, row: seq<Value>, columnLabel: string): Result<int> {
    match FindColumn(columns, columnLabel)
    case None => Failure(Sql("Invalid column label: " + columnLabel, []))
    case Some(i) =>
      match GetObject(row, i + 1)
      case Failure(e) => Failure(e)
      case Success(v) =>
        match v
        case Null => Success(0)
        case Num(n) => Success(n)
        case _ => Failure(Sql("Value is not an integer: " + columnLabel, []))
  }

  /** What the database answers to a query and to an update. */
  datatype Engine = Engine(
    executeQuery: string -> Result<Cursor>,
    executeUpdate: string -> Result<int>)

  /** The arguments of DriverManager.getConnection. */
  datatype OpenRequest =
    | UrlOnly(url: string)
    | WithCredentials(url: string, user: string, password: Option<string>)

  /** What DriverManager.getConnection does with a request: it throws, or it
      opens a connection whose later behaviour is fixed here: whether its
      isClosed() throws, and whether its close() throws. */
  datatype DriverReply =
    | Refused(message: string)
    | Accepted(engine: Engine, probeFailure: Option<string>, closeFailure: Option<string>)

  type Driver = OpenRequest -> DriverReply

  /** An open java.sql.Connection. */
  class Handle {
    var closed: bool
    const engine: Engine
    const probeFailure: Option<string>
    const closeFailure: Option<string>

    constructor Open(engine: Engine, probeFailure: Option<string>, closeFailure: Option<string>)
      ensures !closed && this.engine == engine
      ensures this.probeFailure == probeFailure && this.closeFailure == closeFailure
    {
      closed := false;
      this.engine, this.probeFailure, this.closeFailure := engine, probeFailure, closeFailure;
    }

    /** isClosed() */
    method IsClosed() returns (r: Result<bool>)
      ensures probeFailure.Some? ==> r == Failure(Sql(probeFailure.value, []))
      ensures probeFailure.None? ==> r == Success(closed)
    {
      if probeFailure.Some? {
        r := Failure(Sql(probeFailure.value, []));
      } else {
        r := Success(closed);
      }
    }

    /** close(): when it throws, the connection is left as it was. */
    method Close() returns (r: Outcome)
      modifies this
      ensures closeFailure.None? ==> closed && r == Pass
      ensures closeFailure.Some? ==> closed == old(closed) && r == Fail(Sql(closeFailure.value, []))
    {
      if closeFailure.Some? {
        r := Fail(Sql(closeFailure.value, []));
      } else {
        closed := true;
        r := Pass;
      }
    }
  }
}
