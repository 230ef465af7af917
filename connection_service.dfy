/** ConnectionService.java: the open connections by profile name, and the
    active one. */
module ConnectionService {
  import opened Wrappers
  import opened ConnectionProfile
  import opened Jdbc
  import opened DatabaseConnection

  // ---------------------------------------------------------------------
  // Collecting the exceptions of disconnectAll()

  /** Throwable.addSuppressed */
  function AddSuppressed(e: Exception, later: Exception): Exception {
    if e.Sql? then e.(suppressed := e.suppressed + [later]) else e
  }

  /** One step of the loop: the first exception is kept, later ones are
      attached to it. */
  function Combine(sofar: Outcome, next: Outcome): Outcome {
    if next.Pass? then sofar
    else if sofar.Pass? then next
    else Fail(AddSuppressed(sofar.error, next.error))
  }

  /** The exception the loop ends with, over the outcomes in loop order. */
  function Aggregate(outcomes: seq<Outcome>): Outcome {
    if outcomes == [] then Pass
    else Combine(Aggregate(outcomes[..|outcomes| - 1]), outcomes[|outcomes| - 1])
  }

  /** The exceptions among the outcomes, in order. */
  function Failures(outcomes: seq<Outcome>): (r: seq<Exception>)
    ensures forall i :: 0 <= i < |r| ==> Fail(r[i]) in outcomes
  {
    if outcomes == [] then []
    else
      var last := outcomes[|outcomes| - 1];
      Failures(outcomes[..|outcomes| - 1]) + (if last.Fail? then [last.error] else [])
  }

  /** What is thrown for a list of exceptions: the first, with the others
      suppressed. */
  function Report(failures: seq<Exception>): Outcome {
    if failures == [] then Pass
    else if failures[0].Sql? then Fail(failures[0].(suppressed := failures[1..]))
    else Fail(failures[0])
  }

  /** An exception as the driver throws it, with nothing suppressed yet. */
  predicate Plain(o: Outcome) {
    o.Fail? ==> o.error.Sql? && o.error.suppressed == []
  }

  /** The loop reports nothing when no disconnect failed, and otherwise the
      first exception with every later one suppressed, in order: none is
      lost and none is repeated. */
  lemma {:induction false} AggregateReportsFirst(outcomes: seq<Outcome>)
    requires forall o :: o in outcomes ==> Plain(o)
    ensures Failures(outcomes) == [] <==> forall i :: 0 <= i < |outcomes| ==> outcomes[i].Pass?
    ensures Aggregate(outcomes) == Report(Failures(outcomes))
  {
    if outcomes != [] {
      var init := outcomes[..|outcomes| - 1];
      var last := outcomes[|outcomes| - 1];
      assert outcomes == init + [last];
      AggregateReportsFirst(init);
      var f := Failures(init);
      assert Aggregate(outcomes) == Combine(Report(f), last);
      if last.Fail? {
        assert Plain(last);
        var e := last.error;
        assert Failures(outcomes) == f + [e];
        if f == [] {
          assert f + [e] == [e];
          assert Report([e]) == Fail(e);
        } else {
          assert Fail(f[0]) in outcomes;
          assert f[0].Sql?;
          assert (f + [e])[0] == f[0];
          assert (f + [e])[1..] == f[1..] + [e];
          assert Combine(Report(f), last) == Fail(f[0].(suppressed := f[1..] + [e]));
        }
      } else {
        assert Failures(outcomes) == f + [] == f;
      }
    }
  }

  /** The loop of disconnectAll() over a snapshot of the connections: each is
      disconnected in turn, and the outcomes are combined in that order. */
  method DisconnectInOrder(order: seq<DatabaseConnection>, ghost handles: set<object>)
      returns (r: Outcome, ghost outcomes: seq<Outcome>)
    requires forall j, k :: 0 <= j < k < |order| ==> order[j] != order[k]
    requires forall j, k :: 0 <= j < |order| && 0 <= k < |order| && j != k && order[j].handle != null ==>
      order[j].handle != order[k].handle
    requires forall j :: 0 <= j < |order| && order[j].handle != null ==> order[j].handle in handles
    modifies set j | 0 <= j < |order| :: order[j]
    modifies handles
    ensures |outcomes| == |order|
    ensures forall j :: 0 <= j < |order| ==>
      outcomes[j] == old(order[j].CloseEffect()) && !order[j].connected && order[j].HandleReleased()
    ensures r == Aggregate(outcomes)
  {
    r := Pass;
    outcomes := [];
    var i := 0;
    while i < |order|
      invariant 0 <= i <= |order| && |outcomes| == i
      invariant forall j :: 0 <= j < i ==>
        outcomes[j] == old(order[j].CloseEffect()) && !order[j].connected && order[j].HandleReleased()
      invariant forall j :: i <= j < |order| ==>
        && order[j].handle == old(order[j].handle) && order[j].CloseEffect() == old(order[j].CloseEffect())
        && (order[j].handle != null ==> order[j].handle.closed == old(order[j].handle.closed))
      invariant r == Aggregate(outcomes)
    {
      var o := order[i].Disconnect();
      assert outcomes + [o] == (outcomes + [o])[..i] + [o];
      r := Combine(r, o);
      outcomes := outcomes + [o];
      i := i + 1;
    }
  }

  ghost function Handles(all: set<DatabaseConnection>): set<object>
    reads all
  {
    set c | c in all && c.handle != null :: c.handle
  }

  class ConnectionService {
    /** A Java HashMap, whose key may be null. */
    var connections: map<Option<string>, DatabaseConnection>
    var active: DatabaseConnection?

    /** The active connection is null or one of the registered ones; distinct
        names hold distinct connection objects, and those hold distinct JDBC
        connections. */
    ghost predicate Valid()
      reads this, connections.Values
    {
      && (active != null ==> active in connections.Values)
      && (forall a, b :: a in connections && b in connections && a != b ==> connections[a] != connections[b])
      && (forall c, d :: c in connections.Values && d in connections.Values && c != d && c.handle != null ==>
            c.handle != d.handle)
    }

    /** The objects the service may change: itself, its connections and their
        JDBC connections. */
    ghost function Repr(): set<object>
      reads this, connections.Values
    {
      {this} + connections.Values + (set c | c in connections.Values && c.handle != null :: c.handle)
    }

    /** The connection registered under a name, and its JDBC connection. */
    ghost function Entry(name: Option<string>): set<object>
      reads this, connections.Values
    {
      if name !in connections then {}
      else if connections[name].handle == null then {connections[name]}
      else {connections[name], connections[name].handle}
    }

    constructor ()
      ensures Valid() && connections == map[] && active == null
    {
      connections := map[];
      active := null;
    }

    /** connect(profile): a new connection is opened and registered under the
        profile's name, replacing (without closing) any connection already
        under that name, and becomes the active one. On failure nothing
        changes. */
    method Connect(profile: ConnectionProfile, driver: Driver) returns (r: Result<DatabaseConnection>)
      requires Valid()
      modifies this
      ensures Valid()
      ensures var request := OpenRequestFor(profile.Data());
        r.Success? <==> request.Success? && driver(request.value).Accepted?
      ensures r.Success? ==>
        && fresh(r.value) && fresh(r.value.handle) && r.value.profile == profile
        && connections == old(connections)[profile.name := r.value]
        && active == r.value
        && (HasActiveConnection() <==> r.value.handle.probeFailure.None?)
      ensures var request := OpenRequestFor(profile.Data());
        r.Success? ==>
          var reply := driver(request.value);
          && r.value.connected && !r.value.handle.closed
          && r.value.handle.engine == reply.engine
          && r.value.handle.probeFailure == reply.probeFailure
          && r.value.handle.closeFailure == reply.closeFailure
      ensures var request := OpenRequestFor(profile.Data());
        r.Failure? ==>
          r.error == (if request.Failure? then request.error else Sql(driver(request.value).message, []))
      ensures r.Failure? ==> connections == old(connections) && active == old(active)
    {
      var c := new DatabaseConnection(profile);
      var o := c.Connect(driver);
      if o.Fail? {
        return Failure(o.error);
      }
      connections := connections[profile.name := c];
      assert c in connections.Values by {
        assert connections[profile.name] == c;
      }
      active := c;
      r := Success(c);
    }

    /** disconnect(name): an unknown name is ignored. Otherwise the connection
        is disconnected; only if that does not throw is it removed, and
        cleared as the active one. */
    method Disconnect(name: Option<string>) returns (r: Outcome)
      requires Valid()
      modifies this, Entry(name)
      ensures Valid()
      ensures name !in old(connections) ==> r == Pass && connections == old(connections) && active == old(active)
      ensures name in old(connections) ==>
        var c := old(connections[name]);
        && r == old(c.CloseEffect()) && !c.connected && !c.IsConnected() && c.HandleReleased()
        && (r.Pass? ==>
              && connections == old(connections) - {name}
              && active == (if old(active) == c then null else old(active)))
        && (r.Fail? ==> connections == old(connections) && active == old(active))
    {
      if name !in connections {
        return Pass;
      }
      var c := connections[name];
      r := c.Disconnect();
      if r.Fail? {
        return;
      }
      ghost var before := connections;
      connections := connections - {name};
      if active == c {
        active := null;
      } else if active != null {
        ghost var k :| k in before && before[k] == active;
        assert k != name;
        assert active in connections.Values by {
          assert k in connections && connections[k] == active;
        }
      }
    }

    /** disconnectAll(): every registered connection is disconnected, in the
        order of a snapshot of the registry, even when some throw; then the
        registry and the active connection are cleared. The first exception is
        reported, with every later one attached to it as a suppressed one. */
    method DisconnectAll() returns (r: Outcome, ghost order: seq<DatabaseConnection>, ghost outcomes: seq<Outcome>)
      requires Valid()
      modifies Repr()
      ensures Valid() && connections == map[] && active == null
      ensures (forall c :: c in order <==> c in old(connections.Values))
              && (forall j, k :: 0 <= j < k < |order| ==> order[j] != order[k])
      ensures forall c :: c in old(connections.Values) ==> !c.connected && !c.IsConnected() && c.HandleReleased()
      ensures |outcomes| == |order|
      ensures forall j :: 0 <= j < |order| ==>
        order[j] in old(connections.Values) && outcomes[j] == old(order[j].CloseEffect()) && Plain(outcomes[j])
      ensures r == Report(Failures(outcomes))
      ensures r.Pass? <==> forall c :: c in old(connections.Values) ==> old(c.CloseEffect()).Pass?
    {
      var snapshot := GetAllConnections();
      order := snapshot;
      forall j, k | 0 <= j < |snapshot| && 0 <= k < |snapshot| && j != k && snapshot[j].handle != null
        ensures snapshot[j].handle != snapshot[k].handle
      {
        assert snapshot[j] in connections.Values && snapshot[k] in connections.Values;
        assert snapshot[j] != snapshot[k] by {
          if j < k { assert snapshot[j] != snapshot[k]; } else { assert snapshot[k] != snapshot[j]; }
        }
      }
      r, outcomes := DisconnectInOrder(snapshot, Handles(old(connections.Values)));
      AggregateReportsFirst(outcomes);
      connections := map[];
      active := null;
    }

    /** getActiveConnection() */
    function ActiveConnection(): DatabaseConnection?
      reads this
    {
      active
    }

    /** setActiveConnection(name): only a registered, connected connection
        becomes active; otherwise the active one stays. */
    method SetActiveConnection(name: Option<string>)
      requires Valid()
      modifies this
      ensures Valid() && connections == old(connections)
      ensures if name in connections && connections[name].IsConnected() then active == connections[name]
              else active == old(active)
    {
      if name in connections && connections[name].IsConnected() {
        active := connections[name];
      }
    }

    /** getAllConnections(): a list of every registered connection, each once. */
    method GetAllConnections() returns (r: seq<DatabaseConnection>)
      ensures forall c :: c in r <==> c in connections.Values
      ensures forall i, j :: 0 <= i < j < |r| ==> r[i] != r[j]
    {
      r := [];
      var pending := connections.Values;
      while pending != {}
        invariant pending <= connections.Values
        invariant forall c :: c in r <==> c in connections.Values && c !in pending
        invariant forall i, j :: 0 <= i < j < |r| ==> r[i] != r[j]
        decreases pending
      {
        var c :| c in pending;
        r := r + [c];
        pending := pending - {c};
      }
    }

    /** hasActiveConnection() */
    predicate HasActiveConnection()
      reads this, active, if active != null then {active.handle} else {}
    {
      active != null && active.IsConnected()
    }
  }
}
