/** Dialect.java: the seven operations every backend's dialect provides, over
    the closed set of backends. MySQLDialect.java is not part of this model:
    its operations are supplied as function values and are not interpreted. */
module Dialect {
  import opened Wrappers
  import PostgresDialect
  import SQLiteDialect

  /** The MySQL dialect's operations, as given by the caller. */
  datatype MySQLDialect = MySQLDialect(
    quoteIdentifier: string -> string,
    addPagination: (string, Int32, Int32) -> Result<string>,
    explainQuery: string -> string,
    listSchemasQuery: string,
    listTablesQuery: Option<string> -> string,
    listColumnsQuery: (Option<string>, string) -> string,
    name: string)

  datatype Dialect = Postgres | MySQL(impl: MySQLDialect) | SQLite

  function QuoteIdentifier(d: Dialect, identifier: string): string {
    match d
    case Postgres => PostgresDialect.QuoteIdentifier(identifier)
    case MySQL(impl) => impl.quoteIdentifier(identifier)
    case SQLite => SQLiteDialect.QuoteIdentifier(identifier)
  }

  function AddPagination(d: Dialect, query: string, limit: Int32, offset: Int32): Result<string> {
    match d
    case Postgres => PostgresDialect.AddPagination(query, limit, offset)
    case MySQL(impl) => impl.addPagination(query, limit, offset)
    case SQLite => SQLiteDialect.AddPagination(query, limit, offset)
  }

  function ExplainQuery(d: Dialect, query: string): string {
    match d
    case Postgres => PostgresDialect.ExplainQuery(query)
    case MySQL(impl) => impl.explainQuery(query)
    case SQLite => SQLiteDialect.ExplainQuery(query)
  }

  function ListSchemasQuery(d: Dialect): string {
    match d
    case Postgres => PostgresDialect.ListSchemasQuery
    case MySQL(impl) => impl.listSchemasQuery
    case SQLite => SQLiteDialect.ListSchemasQuery
  }

  function ListTablesQuery(d: Dialect, schema: Option<string>): string {
    match d
    case Postgres => PostgresDialect.ListTablesQuery(schema)
    case MySQL(impl) => impl.listTablesQuery(schema)
    case SQLite => SQLiteDialect.ListTablesQuery(schema)
  }

  function ListColumnsQuery(d: Dialect, schema: Option<string>, table: string): string {
    match d
    case Postgres => PostgresDialect.ListColumnsQuery(schema, table)
    case MySQL(impl) => impl.listColumnsQuery(schema, table)
    case SQLite => SQLiteDialect.ListColumnsQuery(schema, table)
  }

  function Name(d: Dialect): string {
    match d
    case Postgres => PostgresDialect.Name
    case MySQL(impl) => impl.name
    case SQLite => SQLiteDialect.Name
  }
}
