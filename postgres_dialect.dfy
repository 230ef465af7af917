/** PostgresDialect.java: the SQL text the client generates for PostgreSQL. */
module PostgresDialect {
  import opened Wrappers
  import opened Text
  import opened SqlSyntax
  import DialectUtils

  /** quoteIdentifier: wraps in double quotes, doubling every double quote. */
  function QuoteIdentifier(identifier: string): string {
    "\"" + Double(identifier, '"') + "\""
  }

  /** addPagination: the limit is checked before the offset. */
  function AddPagination(query: string, limit: Int32, offset: Int32): Result<string> {
    if limit < 0 then Failure(IllegalArgument("Limit must be a non-negative integer"))
    else if offset < 0 then Failure(IllegalArgument("Offset must be a non-negative integer"))
    else Success(query + " LIMIT " + IntToString(limit) + " OFFSET " + IntToString(offset))
  }

  function ExplainQuery(query: string): string {
    "EXPLAIN " + query
  }

  const ListSchemasQuery: string :=
    "SELECT schema_name FROM information_schema.schemata "
    + "WHERE schema_name NOT IN ('pg_catalog', 'information_schema') "
    + "ORDER BY schema_name"

  /** The schema the catalog queries use: "public" for a null or empty one. */
  function EffectiveSchema(schema: Option<string>): string {
    if schema.None? || schema.value == "" then "public" else schema.value
  }

  const TablesPrefix: string := "SELECT table_name FROM information_schema.tables WHERE table_schema = "
  const TablesSuffix: string := " " + "AND table_type = 'BASE TABLE' ORDER BY table_name"

  function ListTablesQuery(schema: Option<string>): string {
    TablesPrefix + QuoteStringLiteral(EffectiveSchema(schema)) + TablesSuffix
  }

  const ColumnsPrefix: string :=
    "SELECT column_name, data_type, is_nullable, column_default "
    + "FROM information_schema.columns WHERE table_schema = "
  const ColumnsMiddle: string := " AND table_name = "
  const ColumnsSuffix: string := " ORDER BY ordinal_position"

  function ListColumnsQuery(schema: Option<string>, table: string): string {
    ColumnsPrefix + QuoteStringLiteral(EffectiveSchema(schema)) + ColumnsMiddle
    + QuoteStringLiteral(table) + ColumnsSuffix
  }

  const Name: string := "PostgreSQL"

  /** The class's private quoteStringLiteral, a copy of DialectUtils'. */
  function QuoteStringLiteral(literal: string): string {
    "'" + Double(literal, '\'') + "'"
  }

  // ---------------------------------------------------------------------
  // Properties

  lemma QuoteStringLiteralIsShared(literal: string)
    ensures QuoteStringLiteral(literal) == DialectUtils.QuoteStringLiteral(literal)
  {
  }

  /** The quoted identifier reads back, as a delimited identifier, as exactly
      the input, whatever double quotes it holds. */
  lemma QuoteIdentifierReadsBack(identifier: string)
    ensures ReadQuoted(QuoteIdentifier(identifier), '"') == Some((identifier, ""))
  {
    assert QuoteIdentifier(identifier) == ['"'] + Double(identifier, '"') + ['"'] + "";
    QuotedReadsBack(identifier, '"', "");
  }

  /** Pagination fails exactly for a negative limit or offset, with an
      argument error naming the limit first. */
  lemma AddPaginationRejects(query: string, limit: Int32, offset: Int32)
    ensures AddPagination(query, limit, offset).Failure? <==> limit < 0 || offset < 0
    ensures limit < 0 ==>
      AddPagination(query, limit, offset) == Failure(IllegalArgument("Limit must be a non-negative integer"))
    ensures 0 <= limit && offset < 0 ==>
      AddPagination(query, limit, offset) == Failure(IllegalArgument("Offset must be a non-negative integer"))
  {
  }

  /** For valid arguments the query is kept unchanged as a prefix, and the
      clause after it reads back as the given limit and offset. */
  lemma AddPaginationReadsBack(query: string, limit: Int32, offset: Int32)
    requires 0 <= limit && 0 <= offset
    ensures var r := AddPagination(query, limit, offset);
      && r.Success? && |query| <= |r.value| && r.value[..|query|] == query
      && ReadPagination(r.value[|query|..]) == Some((limit as int, offset as int))
  {
    var r := AddPagination(query, limit, offset).value;
    var clause := " LIMIT " + NatToString(limit) + " OFFSET " + NatToString(offset);
    assert r == query + clause;
    assert r[|query|..] == clause;
    ReadPaginationOf(limit, offset);
  }

  lemma ExplainQueryReadsBack(query: string)
    ensures StripPrefix(ExplainQuery(query), "EXPLAIN ") == Some(query)
  {
    StripPrefixAppend("EXPLAIN ", query);
  }

  /** A null, an empty and the "public" schema give the same queries. */
  lemma DefaultSchemaIsPublic(table: string)
    ensures ListTablesQuery(None) == ListTablesQuery(Some("")) == ListTablesQuery(Some("public"))
    ensures ListColumnsQuery(None, table) == ListColumnsQuery(Some(""), table)
                                          == ListColumnsQuery(Some("public"), table)
  {
  }

  /** The tables query embeds the effective schema only as a literal: after
      the fixed prefix, a SQL reader reads exactly that schema and then the
      fixed suffix, whatever quotes the schema holds. */
  lemma ListTablesQueryEmbedsSchema(schema: Option<string>)
    ensures var q := ListTablesQuery(schema);
      && |TablesPrefix| <= |q| && q[..|TablesPrefix|] == TablesPrefix
      && ReadLiteral(q[|TablesPrefix|..]) == Some((EffectiveSchema(schema), TablesSuffix))
  {
    var q := ListTablesQuery(schema);
    var lit := QuoteStringLiteral(EffectiveSchema(schema));
    assert q == TablesPrefix + (lit + TablesSuffix);
    assert q[|TablesPrefix|..] == lit + TablesSuffix;
    DialectUtils.QuoteStringLiteralReadsBack(EffectiveSchema(schema), TablesSuffix);
  }

  /** The columns query embeds the effective schema and then the table only as
      literals: a SQL reader reads the schema, the fixed text between, the
      table and the fixed suffix, in that order. */
  lemma ListColumnsQueryEmbedsNames(schema: Option<string>, table: string)
    ensures var q := ListColumnsQuery(schema, table);
      && |ColumnsPrefix| <= |q| && q[..|ColumnsPrefix|] == ColumnsPrefix
      && var first := ReadLiteral(q[|ColumnsPrefix|..]);
      && first.Some? && first.value.0 == EffectiveSchema(schema)
      && var afterMiddle := StripPrefix(first.value.1, ColumnsMiddle);
      && afterMiddle.Some?
      && ReadLiteral(afterMiddle.value) == Some((table, ColumnsSuffix))
  {
    var q := ListColumnsQuery(schema, table);
    var s := EffectiveSchema(schema);
    var tail := ColumnsMiddle + QuoteStringLiteral(table) + ColumnsSuffix;
    assert q == ColumnsPrefix + (QuoteStringLiteral(s) + tail);
    assert q[|ColumnsPrefix|..] == QuoteStringLiteral(s) + tail;
    DialectUtils.QuoteStringLiteralReadsBack(s, tail);
    ColumnsTailReadsBack(table);
  }

  /** What follows the schema literal in the columns query: the fixed text,
      then the table as a literal, then the fixed suffix. */
  lemma ColumnsTailReadsBack(table: string)
    ensures var rest := QuoteStringLiteral(table) + ColumnsSuffix;
      && StripPrefix(ColumnsMiddle + QuoteStringLiteral(table) + ColumnsSuffix, ColumnsMiddle) == Some(rest)
      && ReadLiteral(rest) == Some((table, ColumnsSuffix))
  {
    var rest := QuoteStringLiteral(table) + ColumnsSuffix;
    assert ColumnsMiddle + QuoteStringLiteral(table) + ColumnsSuffix == ColumnsMiddle + rest;
    StripPrefixAppend(ColumnsMiddle, rest);
    DialectUtils.QuoteStringLiteralReadsBack(table, ColumnsSuffix);
  }
}
