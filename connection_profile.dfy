/** ConnectionProfile.java: a profile's eight fields, its setters, and the
    JDBC URL the client derives when no explicit one is set. */
module ConnectionProfile {
  import opened Wrappers
  import opened Text

  /** The fields of a profile, as a value. A Java null field is None; the
      port is a Java int whose default is 0. */
  datatype ProfileData = ProfileData(
    name: Option<string>,
    databaseType: Option<string>,
    host: Option<string>,
    port: Int32,
    database: Option<string>,
    username: Option<string>,
    password: Option<string>,
    jdbcUrl: Option<string>)

  /** The fields of `new ConnectionProfile()`. */
  const Blank: ProfileData := ProfileData(None, None, None, 0, None, None, None, None)

  /** A non-null, non-empty string. */
  predicate NonEmpty(s: Option<string>) {
    s.Some? && s.value != ""
  }

  /** getJdbcUrl: the explicit URL if there is one, else the derived one. */
  function JdbcUrl(p: ProfileData): Result<string> {
    if NonEmpty(p.jdbcUrl) then Success(p.jdbcUrl.value) else BuildJdbcUrl(p)
  }

  /** buildJdbcUrl: checks the fields the backend needs, then fills in its
      URL template. */
  function BuildJdbcUrl(p: ProfileData): Result<string> {
    if !NonEmpty(p.databaseType) then Failure(IllegalArgument("Database type must be specified"))
    else
      var t := ToLower(p.databaseType.value);
      if t == "postgres" || t == "postgresql" then ServerUrl("postgresql", "PostgreSQL", p)
      else if t == "mysql" then ServerUrl("mysql", "MySQL", p)
      else if t == "sqlite" then
        if !NonEmpty(p.database) then Failure(IllegalArgument("Database file path must be specified for SQLite"))
        else Success("jdbc:sqlite:" + p.database.value)
      else Failure(IllegalArgument("Unsupported database type: " + p.databaseType.value))
  }

  /** The shared shape of the PostgreSQL and MySQL branches: host, then
      database, then port are checked, and the URL is
      jdbc:<scheme>://<host>:<port>/<database>. */
  function ServerUrl(scheme: string, kind: string, p: ProfileData): Result<string> {
    if !NonEmpty(p.host) then Failure(IllegalArgument("Host must be specified for " + kind))
    else if !NonEmpty(p.database) then Failure(IllegalArgument("Database must be specified for " + kind))
    else if p.port <= 0 then Failure(IllegalArgument("Port must be specified for " + kind))
    else Success("jdbc:" + scheme + "://" + p.host.value + ":" + IntToString(p.port) + "/" + p.database.value)
  }

  /** The backend a type names, ignoring case, if it is one of the three. */
  function Scheme(databaseType: Option<string>): Option<string> {
    if !NonEmpty(databaseType) then None
    else
      var t := ToLower(databaseType.value);
      if t == "postgres" || t == "postgresql" then Some("postgresql")
      else if t == "mysql" then Some("mysql")
      else if t == "sqlite" then Some("sqlite")
      else None
  }

  /** The fields each backend needs before a URL can be derived. */
  predicate Derivable(p: ProfileData) {
    match Scheme(p.databaseType)
    case None => false
    case Some(s) =>
      if s == "sqlite" then NonEmpty(p.database)
      else NonEmpty(p.host) && NonEmpty(p.database) && p.port > 0
  }

  /** Reads a server URL back into host, port and database. */
  function ReadServerUrl(url: string, scheme: string): Option<(string, int, string)> {
    match StripPrefix(url, "jdbc:" + scheme + "://")
    case None => None
    case Some(rest) =>
      match SplitAt(rest, ':')
      case None => None
      case Some(hp) =>
        match SplitAt(hp.1, '/')
        case None => None
        case Some(pd) =>
          if pd.0 != [] && AllDigits(pd.0) then Some((hp.0, DigitsValue(pd.0) as int, pd.1)) else None
  }

  // ---------------------------------------------------------------------
  // Properties

  /** A non-empty explicit URL is used as it is; no other field is checked. */
  lemma ExplicitUrlWins(p: ProfileData)
    requires NonEmpty(p.jdbcUrl)
    ensures JdbcUrl(p) == Success(p.jdbcUrl.value)
  {
  }

  /** Without an explicit URL, derivation succeeds exactly when the type
      names a backend (ignoring case) and the fields that backend needs are
      present; a missing type and an unknown type are argument errors. */
  lemma DerivationSucceedsExactly(p: ProfileData)
    requires !NonEmpty(p.jdbcUrl)
    ensures JdbcUrl(p).Success? <==> Derivable(p)
    ensures !NonEmpty(p.databaseType) ==> JdbcUrl(p) == Failure(IllegalArgument("Database type must be specified"))
    ensures NonEmpty(p.databaseType) && Scheme(p.databaseType).None? ==>
              JdbcUrl(p) == Failure(IllegalArgument("Unsupported database type: " + p.databaseType.value))
    ensures JdbcUrl(p).Failure? ==> JdbcUrl(p).error.IllegalArgument?
  {
  }

  /** A derived PostgreSQL or MySQL URL carries the scheme, and reads back as
      the profile's host, port and database whenever the host has no colon. */
  lemma ServerUrlReadsBack(p: ProfileData)
    requires !NonEmpty(p.jdbcUrl) && Derivable(p) && Scheme(p.databaseType) != Some("sqlite")
    requires ':' !in p.host.value
    ensures JdbcUrl(p).Success?
    ensures ReadServerUrl(JdbcUrl(p).value, Scheme(p.databaseType).value)
            == Some((p.host.value, p.port as int, p.database.value))
  {
    var scheme := Scheme(p.databaseType).value;
    var digits := NatToString(p.port);
    var url := JdbcUrl(p).value;
    var rest := p.host.value + [':'] + (digits + ['/'] + p.database.value);
    assert url == ("jdbc:" + scheme + "://") + rest;
    StripPrefixAppend("jdbc:" + scheme + "://", rest);
    SplitAtFirst(p.host.value, ':', digits + ['/'] + p.database.value);
    NatToStringDigits(p.port);
    assert '/' !in digits by {
      forall i | 0 <= i < |digits| ensures digits[i] != '/' {
        assert IsDigit(digits[i]);
      }
    }
    SplitAtFirst(digits, '/', p.database.value);
  }

  /** A derived SQLite URL is the prefix and the database path, and ignores
      the host and the port. */
  lemma SqliteUrlIgnoresServer(p: ProfileData, host: Option<string>, port: Int32)
    requires !NonEmpty(p.jdbcUrl) && Scheme(p.databaseType) == Some("sqlite") && NonEmpty(p.database)
    ensures JdbcUrl(p) == Success("jdbc:sqlite:" + p.database.value)
    ensures JdbcUrl(p.(host := host, port := port)) == JdbcUrl(p)
    ensures StripPrefix(JdbcUrl(p).value, "jdbc:sqlite:") == Some(p.database.value)
  {
    StripPrefixAppend("jdbc:sqlite:", p.database.value);
  }

  /** Type matching ignores case: two types equal ignoring case give the same
      success or failure, and the same URL. */
  lemma DerivationIgnoresCase(p: ProfileData, t: string)
    requires p.databaseType.Some? && EqualsIgnoreCase(p.databaseType.value, t)
    ensures JdbcUrl(p).Success? == JdbcUrl(p.(databaseType := Some(t))).Success?
    ensures JdbcUrl(p).Success? ==> JdbcUrl(p) == JdbcUrl(p.(databaseType := Some(t)))
  {
    EqualsIgnoreCaseIsLowerEquality(p.databaseType.value, t);
  }

  // ---------------------------------------------------------------------
  // The object

  class ConnectionProfile {
    var name: Option<string>
    var databaseType: Option<string>
    var host: Option<string>
    var port: Int32
    var database: Option<string>
    var username: Option<string>
    var password: Option<string>
    var jdbcUrl: Option<string>

    function Data(): ProfileData
      reads this
    {
      ProfileData(name, databaseType, host, port, database, username, password, jdbcUrl)
    }

    constructor ()
      ensures Data() == Blank
    {
      name, databaseType, host, port := None, None, None, 0;
      database, username, password, jdbcUrl := None, None, None, None;
    }

    constructor Named(name: Option<string>, databaseType: Option<string>)
      ensures Data() == Blank.(name := name, databaseType := databaseType)
    {
      this.name, this.databaseType, host, port := name, databaseType, None, 0;
      database, username, password, jdbcUrl := None, None, None, None;
    }

    /** The object Gson builds from a stored JSON record. */
    constructor FromData(d: ProfileData)
      ensures Data() == d
    {
      name, databaseType, host, port := d.name, d.databaseType, d.host, d.port;
      database, username, password, jdbcUrl := d.database, d.username, d.password, d.jdbcUrl;
    }

    method SetName(v: Option<string>)
      modifies this
      ensures Data() == old(Data()).(name := v)
    {
      name := v;
    }

    method SetDatabaseType(v: Option<string>)
      modifies this
      ensures Data() == old(Data()).(databaseType := v)
    {
      databaseType := v;
    }

    method SetHost(v: Option<string>)
      modifies this
      ensures Data() == old(Data()).(host := v)
    {
      host := v;
    }

    method SetPort(v: Int32)
      modifies this
      ensures Data() == old(Data()).(port := v)
    {
      port := v;
    }

    method SetDatabase(v: Option<string>)
      modifies this
      ensures Data() == old(Data()).(database := v)
    {
      database := v;
    }

    method SetUsername(v: Option<string>)
      modifies this
      ensures Data() == old(Data()).(username := v)
    {
      username := v;
    }

    method SetPassword(v: Option<string>)
      modifies this
      ensures Data() == old(Data()).(password := v)
    {
      password := v;
    }

    method SetJdbcUrl(v: Option<string>)
      modifies this
      ensures Data() == old(Data()).(jdbcUrl := v)
    {
      jdbcUrl := v;
    }

    /** getJdbcUrl */
    function GetJdbcUrl(): Result<string>
      reads this
    {
      JdbcUrl(Data())
    }
  }
}
