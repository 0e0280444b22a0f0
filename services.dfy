/** The unit manager (internal/systemd/services.go): listing the service units
    and forwarding lifecycle requests to systemd over D-Bus. The D-Bus
    connection is an object holding the units systemd reports, the value of
    each unit property, and an oracle that decides which calls fail; each call
    is recorded, so that the order of calls can be stated. */
module Services {
  import opened Text
  import opened Types

  /** A unit as ListUnits reports it (the fields the manager reads, and the
      ones it drops). */
  datatype UnitStatus = UnitStatus(
    name: Bytes,
    description: Bytes,
    loadState: Bytes,
    activeState: Bytes,
    subState: Bytes,
    followed: Bytes,
    path: Bytes)

  /** The calls the manager makes on the connection. */
  datatype BusCall =
    | ListUnitsCall
    | RestartUnitCall(unit: Bytes, mode: Bytes)
    | StopUnitCall(unit: Bytes, mode: Bytes)
    | StartUnitCall(unit: Bytes, mode: Bytes)
    | EnableUnitFilesCall(files: seq<Bytes>, runtime: bool, force: bool)
    | DisableUnitFilesCall(files: seq<Bytes>, runtime: bool)
    | ReloadCall
    | GetServicePropertyCall(unit: Bytes, property: Bytes)

  /** The connection as a value. */
  datatype BusState = BusState(
    units: seq<UnitStatus>,
    properties: map<(Bytes, Bytes), Bytes>,
    outcomes: seq<Option<Bytes>>,
    calls: seq<BusCall>)

  type BusAnswer<T> = Answer<T, BusState>

  // ---------------------------------------------------------------- the connection's calls as functions

  /** A call is made: its outcome is used up and the call is recorded. */
  function Perform(s: BusState, c: BusCall): BusAnswer<Option<Bytes>>
  {
    Answer(Fault(s.outcomes), s.(outcomes := Rest(s.outcomes), calls := s.calls + [c]))
  }

  function ListUnitsStep(s: BusState): BusAnswer<Result<seq<UnitStatus>>>
  {
    var r := Perform(s, ListUnitsCall);
    Answer(if r.value.Some? then Err(r.value.value) else Ok(s.units), r.state)
  }

  function GetPropertyStep(s: BusState, unit: Bytes, property: Bytes): BusAnswer<Result<Bytes>>
  {
    var r := Perform(s, GetServicePropertyCall(unit, property));
    Answer(
      if r.value.Some? then Err(r.value.value)
      else if (unit, property) in s.properties then Ok(s.properties[(unit, property)])
      else Err("unknown property"),
      r.state)
  }

  // ---------------------------------------------------------------- the connection object

  class Bus {
    var units: seq<UnitStatus>
    var properties: map<(Bytes, Bytes), Bytes>
    var outcomes: seq<Option<Bytes>>
    ghost var calls: seq<BusCall>

    ghost function State(): BusState
      reads this
    {
      BusState(units, properties, outcomes, calls)
    }

    /** dbus.NewSystemConnection. */
    constructor Connect(units: seq<UnitStatus>, properties: map<(Bytes, Bytes), Bytes>, outcomes: seq<Option<Bytes>>)
      ensures State() == BusState(units, properties, outcomes, [])
    {
      this.units := units;
      this.properties := properties;
      this.outcomes := outcomes;
      this.calls := [];
    }

    /** Makes the call `c`: its outcome is used up and the call is recorded. */
    method Call(c: BusCall) returns (err: Option<Bytes>)
      modifies this
      ensures Answer(err, State()) == Perform(old(State()), c)
    {
      err := Fault(outcomes);
      outcomes := Rest(outcomes);
      calls := calls + [c];
    }

    method ListUnits() returns (r: Result<seq<UnitStatus>>)
      modifies this
      ensures Answer(r, State()) == ListUnitsStep(old(State()))
    {
      var err := Call(ListUnitsCall);
      r := if err.Some? then Err(err.value) else Ok(units);
    }

    method GetServiceProperty(unit: Bytes, property: Bytes) returns (r: Result<Bytes>)
      modifies this
      ensures Answer(r, State()) == GetPropertyStep(old(State()), unit, property)
    {
      var err := Call(GetServicePropertyCall(unit, property));
      if err.Some? {
        r := Err(err.value);
      } else if (unit, property) in properties {
        r := Ok(properties[(unit, property)]);
      } else {
        r := Err("unknown property");
      }
    }
  }

  // ---------------------------------------------------------------- the service list

  const ServiceSuffix: Bytes := ".service"
  const ReplaceMode: Bytes := "replace"

  predicate IsService(u: UnitStatus)
  {
    HasSuffix(u.name, ServiceSuffix)
  }

  /** The dashboard record of a unit: five fields copied, the unit-file state
      left empty. */
  function ToService(u: UnitStatus): Service
  {
    Service(u.name, u.description, u.activeState, u.subState, u.loadState, [])
  }

  /** The services among `units`, in the order of `units`. */
  function ServicesOf(units: seq<UnitStatus>): seq<Service>
  {
    if units == [] then []
    else
      var u := units[|units| - 1];
      ServicesOf(units[..|units| - 1]) + (if IsService(u) then [ToService(u)] else [])
  }

  /** The indices of the service units among `units`, in increasing order. */
  function ServiceIndices(units: seq<UnitStatus>): seq<nat>
  {
    if units == [] then []
    else
      var last := |units| - 1;
      ServiceIndices(units[..last]) + (if IsService(units[last]) then [last] else [])
  }

  /** The indices of service units are in range, strictly increasing, and
      name exactly the units whose name ends in ".service". */
  lemma {:induction false} ServiceIndicesSpec(units: seq<UnitStatus>)
    ensures forall k :: 0 <= k < |ServiceIndices(units)| ==> ServiceIndices(units)[k] < |units|
    ensures forall k, l :: 0 <= k < l < |ServiceIndices(units)| ==> ServiceIndices(units)[k] < ServiceIndices(units)[l]
    ensures forall i :: 0 <= i < |units| ==> (IsService(units[i]) <==> i in ServiceIndices(units))
  {
    if units != [] {
      var last := |units| - 1;
      var init := units[..last];
      var before := ServiceIndices(init);
      var idx := ServiceIndices(units);
      ServiceIndicesSpec(init);
      assert idx == before + (if IsService(units[last]) then [last] else []);
      forall i | 0 <= i < |units|
        ensures IsService(units[i]) <==> i in idx
      {
        if i < last {
          assert init[i] == units[i];
        } else {
          assert i !in before;
        }
      }
    }
  }

  /** The service list is the units at those indices, each turned into a
      Service: a listing drops units, never reorders or invents them. */
  lemma {:induction false} ServicesOfSpec(units: seq<UnitStatus>)
    ensures |ServicesOf(units)| == |ServiceIndices(units)|
    ensures forall k :: 0 <= k < |ServiceIndices(units)| ==>
      ServiceIndices(units)[k] < |units| && ServicesOf(units)[k] == ToService(units[ServiceIndices(units)[k]])
  {
    if units != [] {
      var last := |units| - 1;
      var init := units[..last];
      ServicesOfSpec(init);
      ServiceIndicesSpec(init);
      var r0, idx0 := ServicesOf(init), ServiceIndices(init);
      var r, idx := ServicesOf(units), ServiceIndices(units);
      assert r == r0 + (if IsService(units[last]) then [ToService(units[last])] else []);
      assert idx == idx0 + (if IsService(units[last]) then [last] else []);
      forall k | 0 <= k < |idx|
        ensures idx[k] < |units| && r[k] == ToService(units[idx[k]])
      {
        if k < |idx0| {
          assert r[k] == r0[k] && idx[k] == idx0[k];
          assert init[idx0[k]] == units[idx0[k]];
        }
      }
    }
  }

  /** Every listed service ends in ".service", and none has a unit-file state. */
  lemma {:induction false} ServicesOfFields(units: seq<UnitStatus>)
    ensures forall s :: s in ServicesOf(units) ==> HasSuffix(s.name, ServiceSuffix) && s.unitFileState == []
  {
    if units != [] {
      ServicesOfFields(units[..|units| - 1]);
    }
  }

  lemma ServicesOfStep(units: seq<UnitStatus>, i: nat)
    requires i < |units|
    ensures ServicesOf(units[..i + 1])
      == ServicesOf(units[..i]) + (if IsService(units[i]) then [ToService(units[i])] else [])
  {
    assert units[..i + 1][..i] == units[..i];
  }

  // ---------------------------------------------------------------- the manager

  class Manager {
    const conn: Bus

    /** NewManager, over an open connection. */
    constructor (conn: Bus)
      ensures this.conn == conn
    {
      this.conn := conn;
    }

    /** The service units systemd reports, or the ListUnits error. */
    method ListServices() returns (r: Result<seq<Service>>)
      modifies conn
      ensures var listed := ListUnitsStep(old(conn.State()));
        && conn.State() == listed.state
        && r == (if listed.value.Err? then Err(listed.value.error) else Ok(ServicesOf(listed.value.value)))
    {
      var units := conn.ListUnits();
      if units.Err? {
        return Err(units.error);
      }
      ghost var after := conn.State();
      var services: seq<Service> := [];
      for i := 0 to |units.value|
        invariant services == ServicesOf(units.value[..i])
        invariant conn.State() == after
      {
        var unit := units.value[i];
        ServicesOfStep(units.value, i);
        if !HasSuffix(unit.name, ServiceSuffix) {
          continue;
        }
        services := services + [ToService(unit)];
      }
      assert units.value[..|units.value|] == units.value;
      r := Ok(services);
    }

    method RestartService(serviceName: Bytes) returns (err: Option<Bytes>)
      modifies conn
      ensures Answer(err, conn.State()) == Perform(old(conn.State()), RestartUnitCall(serviceName, ReplaceMode))
    {
      err := conn.Call(RestartUnitCall(serviceName, ReplaceMode));
    }

    method StopService(serviceName: Bytes) returns (err: Option<Bytes>)
      modifies conn
      ensures Answer(err, conn.State()) == Perform(old(conn.State()), StopUnitCall(serviceName, ReplaceMode))
    {
      err := conn.Call(StopUnitCall(serviceName, ReplaceMode));
    }

    method StartService(serviceName: Bytes) returns (err: Option<Bytes>)
      modifies conn
      ensures Answer(err, conn.State()) == Perform(old(conn.State()), StartUnitCall(serviceName, ReplaceMode))
    {
      err := conn.Call(StartUnitCall(serviceName, ReplaceMode));
    }

    /** Enables the unit file, then, only if that worked, reloads systemd and
        ignores how the reload went. */
    method EnableService(serviceName: Bytes) returns (err: Option<Bytes>)
      modifies conn
      ensures Answer(err, conn.State()) == FileChange(old(conn.State()), EnableUnitFilesCall([serviceName], false, true))
    {
      err := conn.Call(EnableUnitFilesCall([serviceName], false, true));
      if err.Some? {
        return;
      }
      var _ := conn.Call(ReloadCall);
      err := None;
    }

    /** Disables the unit file, then, only if that worked, reloads systemd and
        ignores how the reload went. */
    method DisableService(serviceName: Bytes) returns (err: Option<Bytes>)
      modifies conn
      ensures Answer(err, conn.State()) == FileChange(old(conn.State()), DisableUnitFilesCall([serviceName], false))
    {
      err := conn.Call(DisableUnitFilesCall([serviceName], false));
      if err.Some? {
        return;
      }
      var _ := conn.Call(ReloadCall);
      err := None;
    }

    method GetServiceProperty(serviceName: Bytes, property: Bytes) returns (r: Result<Bytes>)
      modifies conn
      ensures Answer(r, conn.State()) == GetPropertyStep(old(conn.State()), serviceName, property)
    {
      r := conn.GetServiceProperty(serviceName, property);
    }
  }

  /** EnableService and DisableService on the connection value: the unit-file
      call, then a reload only when it succeeded. */
  function FileChange(s: BusState, change: BusCall): BusAnswer<Option<Bytes>>
  {
    var changed := Perform(s, change);
    if changed.value.Some? then changed
    else Answer(None, Perform(changed.state, ReloadCall).state)
  }

  /** A failed unit-file change is returned as it is and no reload follows;
      a successful one is followed by exactly one reload, and the result is
      nil whatever the reload's outcome. */
  lemma FileChangeSpec(s: BusState, change: BusCall)
    ensures var r := FileChange(s, change);
      && r.value == Fault(s.outcomes)
      && r.state.calls == s.calls + [change] + (if r.value.None? then [ReloadCall] else [])
      && r.state.units == s.units
  {
  }
}
