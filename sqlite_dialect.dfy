/** SQLiteDialect.java: the SQL text the client generates for SQLite, which
    has no schemas besides "main". */
module SQLiteDialect {
  import opened Wrappers
  import opened Text
  import opened SqlSyntax
  import DialectUtils
  import PostgresDialect

  function QuoteIdentifier(identifier: string): string {
    "\"" + Double(identifier, '"') + "\""
  }

  function AddPagination(query: string, limit: Int32, offset: Int32): Result<string> {
    if limit < 0 then Failure(IllegalArgument("Limit must be a non-negative integer"))
    else if offset < 0 then Failure(IllegalArgument("Offset must be a non-negative integer"))
    else Success(query + " LIMIT " + IntToString(limit) + " OFFSET " + IntToString(offset))
  }

  function ExplainQuery(query: string): string {
    "EXPLAIN QUERY PLAN " + query
  }

  const ListSchemasQuery: string := "SELECT 'main' as schema_name"

  const ListTablesText: string :=
    "SELECT name as table_name FROM sqlite_master "
    + "WHERE type = 'table' AND name NOT LIKE 'sqlite_%' "
    + "ORDER BY name"

  /** The schema argument is not used. */
  function ListTablesQuery(schema: Option<string>): string {
    ListTablesText
  }

  const PragmaPrefix: string := "PRAGMA table_info("

  /** The table name goes into the PRAGMA as a string literal, not as an
      identifier; the schema argument is not used. */
  function ListColumnsQuery(schema: Option<string>, table: string): string {
    "PRAGMA table_info('" + Double(table, '\'') + "')"
  }

  const Name: string := "SQLite"

  // ---------------------------------------------------------------------
  // Properties

  lemma QuoteIdentifierAsPostgres(identifier: string)
    ensures QuoteIdentifier(identifier) == PostgresDialect.QuoteIdentifier(identifier)
  {
  }

  lemma AddPaginationAsPostgres(query: string, limit: Int32, offset: Int32)
    ensures AddPagination(query, limit, offset) == PostgresDialect.AddPagination(query, limit, offset)
  {
  }

  lemma ExplainQueryReadsBack(query: string)
    ensures StripPrefix(ExplainQuery(query), "EXPLAIN QUERY PLAN ") == Some(query)
  {
    StripPrefixAppend("EXPLAIN QUERY PLAN ", query);
  }

  /** Every schema, null included, gives the same catalog queries. */
  lemma CatalogQueriesIgnoreSchema(a: Option<string>, b: Option<string>, table: string)
    ensures ListTablesQuery(a) == ListTablesQuery(b)
    ensures ListColumnsQuery(a, table) == ListColumnsQuery(b, table)
  {
  }

  /** The PRAGMA is the table's string literal in parentheses, and a SQL reader
      reads back exactly the table name, whatever quotes it holds. */
  lemma ListColumnsQueryEmbedsTable(schema: Option<string>, table: string)
    ensures var q := ListColumnsQuery(schema, table);
      && q == PragmaPrefix + DialectUtils.QuoteStringLiteral(table) + ")"
      && ReadLiteral(q[|PragmaPrefix|..]) == Some((table, ")"))
  {
    var q := ListColumnsQuery(schema, table);
    var lit := DialectUtils.QuoteStringLiteral(table);
    assert q == PragmaPrefix + (lit + ")");
    assert q[|PragmaPrefix|..] == lit + ")";
    DialectUtils.QuoteStringLiteralReadsBack(table, ")");
  }
}
