/** DialectFactory.java: picks the dialect from the profile's database type,
    ignoring case. */
module DialectFactory {
  import opened Wrappers
  import opened Text
  import opened Dialect

  function GetDialect(databaseType: Option<string>, mysql: MySQLDialect): Result<Dialect> {
    match databaseType
    case None => Failure(IllegalArgument("Database type cannot be null"))
    case Some(t) =>
      var lowered := ToLower(t);
      if lowered == "postgres" || lowered == "postgresql" then Success(Postgres)
      else if lowered == "mysql" then Success(MySQL(mysql))
      else if lowered == "sqlite" then Success(SQLite)
      else Failure(IllegalArgument("Unsupported database type: " + t))
  }

  /** The type names the factory knows, in lower case. */
  const KnownTypes: set<string> := {"postgres", "postgresql", "mysql", "sqlite"}

  lemma KnownTypesAreLowerCase(t: string)
    requires t in KnownTypes
    ensures ToLower(t) == t
  {
  }

  /** A null type is an argument error. */
  lemma GetDialectRejectsNull(mysql: MySQLDialect)
    ensures GetDialect(None, mysql) == Failure(IllegalArgument("Database type cannot be null"))
  {
  }

  /** Which dialect a type selects, where every spelling that equals a known
      name ignoring case counts as that name; everything else, the empty
      string included, is reported as unsupported with the type as given. */
  lemma GetDialectSelects(t: string, mysql: MySQLDialect)
    ensures EqualsIgnoreCase(t, "postgres") || EqualsIgnoreCase(t, "postgresql")
            ==> GetDialect(Some(t), mysql) == Success(Postgres)
    ensures EqualsIgnoreCase(t, "mysql") ==> GetDialect(Some(t), mysql) == Success(MySQL(mysql))
    ensures EqualsIgnoreCase(t, "sqlite") ==> GetDialect(Some(t), mysql) == Success(SQLite)
    ensures (forall k :: k in KnownTypes ==> !EqualsIgnoreCase(t, k))
            ==> GetDialect(Some(t), mysql) == Failure(IllegalArgument("Unsupported database type: " + t))
  {
    forall k | k in KnownTypes ensures EqualsIgnoreCase(t, k) <==> ToLower(t) == k {
      EqualsIgnoreCaseIsLowerEquality(t, k);
      KnownTypesAreLowerCase(k);
    }
  }

  /** The selection depends only on the type ignoring case: two spellings
      that are equal ignoring case both fail or select the same dialect. */
  lemma GetDialectIgnoresCase(a: string, b: string, mysql: MySQLDialect)
    requires EqualsIgnoreCase(a, b)
    ensures GetDialect(Some(a), mysql).Success? == GetDialect(Some(b), mysql).Success?
    ensures GetDialect(Some(a), mysql).Success? ==>
              GetDialect(Some(a), mysql).value == GetDialect(Some(b), mysql).value
  {
    EqualsIgnoreCaseIsLowerEquality(a, b);
  }

  lemma GetDialectRejectsEmpty(mysql: MySQLDialect)
    ensures GetDialect(Some(""), mysql).Failure?
  {
  }
}
