/** DatabaseConnection.java: one profile's live JDBC connection and whether
    the client considers it connected. */
module DatabaseConnection {
  import opened Wrappers
  import opened ConnectionProfile
  import opened Jdbc

  /** The call connect() makes to the driver manager: the profile's URL, and
      the credentials only when a non-empty username is set. A profile whose
      URL cannot be derived fails before the driver is called. */
  function OpenRequestFor(p: ProfileData): Result<OpenRequest> {
    match JdbcUrl(p)
    case Failure(e) => Failure(e)
    case Success(url) =>
      if NonEmpty(p.username) then Success(WithCredentials(url, p.username.value, p.password))
      else Success(UrlOnly(url))
  }

  /** The request always carries the profile's URL; it carries credentials
      exactly when the username is non-null and non-empty, and then the
      username and password as they are set (a null password included). */
  lemma OpenRequestCarriesCredentials(p: ProfileData)
    ensures JdbcUrl(p).Failure? ==> OpenRequestFor(p) == Failure(JdbcUrl(p).error)
    ensures JdbcUrl(p).Success? ==>
      && OpenRequestFor(p).Success?
      && OpenRequestFor(p).value.url == JdbcUrl(p).value
      && (OpenRequestFor(p).value.WithCredentials? <==> NonEmpty(p.username))
      && (OpenRequestFor(p).value.WithCredentials? ==>
            OpenRequestFor(p).value.user == p.username.value
            && OpenRequestFor(p).value.password == p.password)
  {
  }

  /** The password is only passed along: it has no effect without a username. */
  lemma PasswordIgnoredWithoutUsername(p: ProfileData, password: Option<string>)
    requires !NonEmpty(p.username)
    ensures OpenRequestFor(p.(password := password)) == OpenRequestFor(p)
  {
  }

  class DatabaseConnection {
    const profile: ConnectionProfile
    var handle: Handle?
    var connected: bool

    constructor (profile: ConnectionProfile)
      ensures this.profile == profile && handle == null && !connected
    {
      this.profile := profile;
      handle := null;
      connected := false;
    }

    /** connect(): on success a new JDBC connection replaces the old one and
        the object is connected; on failure nothing changes. */
    method Connect(driver: Driver) returns (r: Outcome)
      modifies this
      ensures var request := OpenRequestFor(profile.Data());
        && (request.Failure? ==> r == Fail(request.error))
        && (request.Success? && driver(request.value).Refused? ==>
              r == Fail(Sql(driver(request.value).message, [])))
        && (request.Success? && driver(request.value).Accepted? ==>
              var reply := driver(request.value);
              && r == Pass && connected && handle != null && fresh(handle) && !handle.closed
              && handle.engine == reply.engine
              && handle.probeFailure == reply.probeFailure
              && handle.closeFailure == reply.closeFailure)
      ensures r.Fail? ==> handle == old(handle) && connected == old(connected)
    {
      var request := OpenRequestFor(profile.Data());
      if request.Failure? {
        return Fail(request.error);
      }
      var reply := driver(request.value);
      if reply.Refused? {
        return Fail(Sql(reply.message, []));
      }
      handle := new Handle.Open(reply.engine, reply.probeFailure, reply.closeFailure);
      connected := true;
      r := Pass;
    }

    /** isConnected(): a failing isClosed() counts as not connected. */
    predicate IsConnected()
      reads this, handle
    {
      connected && handle != null && handle.probeFailure.None? && !handle.closed
    }

    /** What disconnect() reports: the exception of isClosed(), else, for an
        open connection, that of close(). */
    function CloseEffect(): (r: Outcome)
      reads this, handle
      ensures r.Fail? ==> r.error.Sql? && r.error.suppressed == []
    {
      if handle == null then Pass
      else if handle.probeFailure.Some? then Fail(Sql(handle.probeFailure.value, []))
      else if handle.closed then Pass
      else if handle.closeFailure.Some? then Fail(Sql(handle.closeFailure.value, []))
      else Pass
    }

    /** What disconnect() does to the JDBC connection: the object keeps its
        handle, which ends closed exactly when it already was or when neither
        isClosed() nor close() throws. */
    twostate predicate HandleReleased()
      reads this, handle
    {
      && handle == old(handle)
      && (handle != null ==>
            handle.closed == (old(handle.closed) || (handle.probeFailure.None? && handle.closeFailure.None?)))
    }

    /** disconnect(): closes an open JDBC connection; whatever happens the
        object is no longer connected, and the connection is closed unless
        probing or closing it failed. */
    method Disconnect() returns (r: Outcome)
      modifies this, handle
      ensures r == old(CloseEffect())
      ensures !connected && HandleReleased()
      ensures !IsConnected()
    {
      r := Pass;
      if handle != null {
        var probe := handle.IsClosed();
        match probe
        case Failure(e) =>
          r := Fail(e);
        case Success(isClosed) =>
          if !isClosed {
            r := handle.Close();
          }
      }
      connected := false;
    }

    /** getDatabaseType() */
    function DatabaseType(): Option<string>
      reads profile
    {
      profile.databaseType
    }

    /** createStatement().executeQuery(sql) on the held connection. */
    function ExecuteQuery(sql: string): Result<Cursor>
      reads this, handle
    {
      if handle == null then Failure(NullPointer)
      else if handle.closed then Failure(Sql("Connection is closed", []))
      else handle.engine.executeQuery(sql)
    }

    /** createStatement().executeUpdate(sql) on the held connection. */
    function ExecuteUpdate(sql: string): Result<int>
      reads this, handle
    {
      if handle == null then Failure(NullPointer)
      else if handle.closed then Failure(Sql("Connection is closed", []))
      else handle.engine.executeUpdate(sql)
    }
  }
}
