/** QueryResult.java: the column names, rows and timing of an executed query. */
module QueryResult {
  import opened Jdbc

  datatype QueryResult = QueryResult(
    columnNames: seq<string>,
    rows: seq<seq<Value>>,
    executionTimeMs: int,
    rowCount: int)
  {
    /** The row count is the number of rows the result was built with. */
    predicate Valid() {
      rowCount == |rows|
    }

    function ColumnCount(): (n: nat)
      ensures n == |columnNames|
    {
      |columnNames|
    }
  }

  /** The constructor: the row count is taken from the rows. */
  function NewQueryResult(columnNames: seq<string>, rows: seq<seq<Value>>, executionTimeMs: int): (r: QueryResult)
    ensures r.Valid()
    ensures r.columnNames == columnNames && r.rows == rows && r.executionTimeMs == executionTimeMs
  {
    QueryResult(columnNames, rows, executionTimeMs, |rows|)
  }
}
