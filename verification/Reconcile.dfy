/** Reconciling the agents with the device list (ofagent/connection_mgr.py). An agent is
    represented by the device id it was created with. */
module Reconciliation {
  import opened Collections

  type Endpoint = string
  type Datapath = nat
  type DeviceId = string

  datatype Device = Device(id: DeviceId, datapath: Datapath)

  datatype Maps = Maps(agents: map<(Datapath, Endpoint), DeviceId>, devices: map<DeviceId, Datapath>)
  {
    function Current(): set<Datapath> { set k | k in agents.Keys :: k.0 }
  }

  function Desired(devices: seq<Device>): set<Datapath> { set d | d in devices :: d.datapath }

  /** The maps afterwards, and whether it ended without an exception. */
  datatype Outcome = Outcome(ok: bool, maps: Maps)

  /** `delete_agent` over the endpoints still to go; stopping an agent may raise. */
  function Delete(eps: seq<Endpoint>, s: Maps, dp: Datapath, stops: Endpoint -> bool): Outcome {
    if eps == [] then Outcome(true, s)
    else if (dp, eps[0]) !in s.agents || !stops(eps[0]) then Outcome(false, s)
    else
      var id, agents := s.agents[(dp, eps[0])], s.agents - {(dp, eps[0])};
      if id !in s.devices then Outcome(false, s.(agents := agents))
      else Delete(eps[1..], Maps(agents, s.devices - {id}), dp, stops)
  }

  function DeleteAll(eps: seq<Endpoint>, s: Maps, dps: seq<Datapath>, stops: (Datapath, Endpoint) -> bool): Outcome
    decreases |dps|
  {
    if dps == [] then Outcome(true, s)
    else
      var o := Delete(eps, s, dps[0], e => stops(dps[0], e));
      if o.ok then DeleteAll(eps, o.maps, dps[1..], stops) else o
  }

  function Create(eps: seq<Endpoint>, s: Maps, d: Device): Maps {
    if eps == [] then s
    else Create(eps[1..], Maps(s.agents[(d.datapath, eps[0]) := d.id], s.devices[d.id := d.datapath]), d)
  }

  function CreateAll(eps: seq<Endpoint>, s: Maps, devices: seq<Device>, toAdd: set<Datapath>): Maps
    decreases |devices|
  {
    if devices == [] then s
    else CreateAll(eps, if devices[0].datapath in toAdd then Create(eps, s, devices[0]) else s, devices[1..], toAdd)
  }

  /** One refresh; `order` is the order in which the set to delete is iterated. */
  function Refresh(eps: seq<Endpoint>, s: Maps, devices: seq<Device>, order: seq<Datapath>,
                   stops: (Datapath, Endpoint) -> bool): Outcome
  {
    if Desired(devices) == s.Current() then Outcome(true, s)
    else
      var o := DeleteAll(eps, s, order, stops);
      if o.ok then Outcome(true, CreateAll(eps, o.maps, devices, Desired(devices) - s.Current())) else o
  }

  // ------------------------------------------------------------------ the object

  class ConnectionManager {
    const endpoints: seq<Endpoint>
    var maps: Maps

    constructor (endpoints: seq<Endpoint>)
      ensures this.endpoints == endpoints && maps == Maps(map[], map[])
    {
      this.endpoints, maps := endpoints, Maps(map[], map[]);
    }

    method CreateAgent(d: Device)
      modifies this
      ensures maps == Create(endpoints, old(maps), d)
    {
      for i := 0 to |endpoints|
        invariant Create(endpoints[i..], maps, d) == Create(endpoints, old(maps), d)
      {
        assert endpoints[i..][1..] == endpoints[i + 1..];
        maps := maps.(agents := maps.agents[(d.datapath, endpoints[i]) := d.id]);
        maps := maps.(devices := maps.devices[d.id := d.datapath]);
      }
    }

    method DeleteAgent(dp: Datapath, stops: Endpoint -> bool) returns (ok: bool)
      modifies this
      ensures Outcome(ok, maps) == Delete(endpoints, old(maps), dp, stops)
    {
      for i := 0 to |endpoints|
        invariant Delete(endpoints[i..], maps, dp, stops) == Delete(endpoints, old(maps), dp, stops)
      {
        assert endpoints[i..][1..] == endpoints[i + 1..];
        var key := (dp, endpoints[i]);
        if key !in maps.agents {
          return false;
        }
        var id := maps.agents[key];
        if !stops(endpoints[i]) {
          return false;
        }
        maps := maps.(agents := maps.agents - {key});
        if id !in maps.devices {
          return false;
        }
        maps := maps.(devices := maps.devices - {id});
      }
      ok := true;
    }

    method RefreshAgentConnections(devices: seq<Device>, order: seq<Datapath>, stops: (Datapath, Endpoint) -> bool)
      returns (ok: bool)
      requires IsOrder(order, maps.Current() - Desired(devices))
      modifies this
      ensures Outcome(ok, maps) == Refresh(endpoints, old(maps), devices, order, stops)
    {
      if Desired(devices) == maps.Current() {
        return true;
      }
      var toAdd := Desired(devices) - maps.Current();
      for i := 0 to |order|
        invariant DeleteAll(endpoints, maps, order[i..], stops) == DeleteAll(endpoints, old(maps), order, stops)
      {
        var rest := order[i..];
        assert rest[0] == order[i] && rest[1..] == order[i + 1..];
        var dp := order[i];
        var done := DeleteAgent(dp, e => stops(rest[0], e));
        if !done {
          return false;
        }
      }
      ghost var s := maps;
      for i := 0 to |devices|
        invariant CreateAll(endpoints, maps, devices[i..], toAdd) == CreateAll(endpoints, s, devices, toAdd)
      {
        assert devices[i..][1..] == devices[i + 1..];
        if devices[i].datapath in toAdd {
          CreateAgent(devices[i]);
        }
      }
      ok := true;
    }

    /** The agents a packet or an event is handed to; `ok` is false when one is missing. */
    method Forward(id: DeviceId) returns (ok: bool, targets: seq<(Datapath, Endpoint)>)
      ensures (forall d :: d in maps.devices ==> Covered(endpoints, maps, maps.devices[d])) ==> ok
      ensures ok ==>
              targets == (if id in maps.devices && maps.devices[id] != 0 then Fan(endpoints, maps.devices[id]) else [])
    {
      targets := [];
      if id in maps.devices && maps.devices[id] != 0 {
        var dp := maps.devices[id];
        for i := 0 to |endpoints|
          invariant targets == Fan(endpoints[..i], dp)
        {
          if (dp, endpoints[i]) !in maps.agents {
            return false, targets;
          }
          targets := targets + [(dp, endpoints[i])];
        }
        assert endpoints[..|endpoints|] == endpoints;
      }
      ok := true;
    }
  }

  /** The datapath has an agent for every endpoint. */
  predicate Covered(eps: seq<Endpoint>, s: Maps, dp: Datapath) {
    forall i :: 0 <= i < |eps| ==> (dp, eps[i]) in s.agents
  }

  function Fan(eps: seq<Endpoint>, dp: Datapath): (r: seq<(Datapath, Endpoint)>)
    ensures |r| == |eps| && forall i :: 0 <= i < |r| ==> r[i] == (dp, eps[i])
  {
    seq(|eps|, i requires 0 <= i < |eps| => (dp, eps[i]))
  }

  // ----------------------------------------------------------------- safety

  /** Agents and device entries belong to the one device of their datapath, and every
      mapped device's datapath has an agent for every endpoint. */
  ghost predicate Safe(eps: seq<Endpoint>, deviceOf: Datapath -> DeviceId, s: Maps) {
    && (forall k :: k in s.agents ==> s.agents[k] == deviceOf(k.0))
    && (forall d :: d in s.devices ==> d == deviceOf(s.devices[d]) && Covered(eps, s, s.devices[d]))
  }

  lemma {:induction false} DeleteKeepsSafe(all: seq<Endpoint>, eps: seq<Endpoint>, deviceOf: Datapath -> DeviceId,
                                           s: Maps, dp: Datapath, stops: Endpoint -> bool)
    requires Safe(all, deviceOf, s)
    ensures Safe(all, deviceOf, Delete(eps, s, dp, stops).maps)
  {
    if eps != [] && (dp, eps[0]) in s.agents && stops(eps[0]) {
      var id := s.agents[(dp, eps[0])];
      var t := Maps(s.agents - {(dp, eps[0])}, s.devices - {id});
      assert Safe(all, deviceOf, t);
      if id in s.devices {
        DeleteKeepsSafe(all, eps[1..], deviceOf, t, dp, stops);
      } else {
        assert t.devices == s.devices;
      }
    }
  }

  lemma {:induction false} DeleteAllKeepsSafe(all: seq<Endpoint>, deviceOf: Datapath -> DeviceId, s: Maps,
                                              dps: seq<Datapath>, stops: (Datapath, Endpoint) -> bool)
    requires Safe(all, deviceOf, s)
    ensures Safe(all, deviceOf, DeleteAll(all, s, dps, stops).maps)
    decreases |dps|
  {
    if dps != [] {
      DeleteKeepsSafe(all, all, deviceOf, s, dps[0], e => stops(dps[0], e));
      var o := Delete(all, s, dps[0], e => stops(dps[0], e));
      if o.ok {
        DeleteAllKeepsSafe(all, deviceOf, o.maps, dps[1..], stops);
      }
    }
  }

  /** What creating a device's agents adds. */
  lemma {:induction false} CreateAdds(eps: seq<Endpoint>, s: Maps, d: Device)
    ensures var t := Create(eps, s, d);
            && (forall k :: k in t.agents <==> k in s.agents || (k.0 == d.datapath && k.1 in eps))
            && (forall k :: k in t.agents ==>
                 t.agents[k] == if k.0 == d.datapath && k.1 in eps then d.id else s.agents[k])
            && t.devices == if eps == [] then s.devices else s.devices[d.id := d.datapath]
  {
    if eps != [] {
      CreateAdds(eps[1..], Maps(s.agents[(d.datapath, eps[0]) := d.id], s.devices[d.id := d.datapath]), d);
      assert forall e :: e in eps <==> e == eps[0] || e in eps[1..];
    }
  }

  lemma {:induction false} CreateAllKeepsSafe(all: seq<Endpoint>, deviceOf: Datapath -> DeviceId, s: Maps,
                                              devices: seq<Device>, toAdd: set<Datapath>)
    requires Safe(all, deviceOf, s) && forall d :: d in devices ==> d.id == deviceOf(d.datapath)
    ensures Safe(all, deviceOf, CreateAll(all, s, devices, toAdd))
    decreases |devices|
  {
    hide Safe, Create;
    if devices != [] {
      var d := devices[0];
      assert d in devices;
      CreateKeepsSafe(all, deviceOf, s, d);
      CreateAllKeepsSafe(all, deviceOf, if d.datapath in toAdd then Create(all, s, d) else s, devices[1..], toAdd);
    }
  }

  lemma CreateKeepsSafe(all: seq<Endpoint>, deviceOf: Datapath -> DeviceId, s: Maps, d: Device)
    requires Safe(all, deviceOf, s) && d.id == deviceOf(d.datapath)
    ensures Safe(all, deviceOf, Create(all, s, d))
  {
    hide Create;
    CreateAdds(all, s, d);
  }

  /** Every refresh keeps it, also one that ends in an exception, whichever agents fail to
      stop: if a datapath determines its device, forwarding never looks up a missing agent. */
  lemma RefreshKeepsSafe(eps: seq<Endpoint>, deviceOf: Datapath -> DeviceId, s: Maps, devices: seq<Device>,
                         order: seq<Datapath>, stops: (Datapath, Endpoint) -> bool)
    requires Safe(eps, deviceOf, s) && forall d :: d in devices ==> d.id == deviceOf(d.datapath)
    ensures Safe(eps, deviceOf, Refresh(eps, s, devices, order, stops).maps)
  {
    hide Safe, DeleteAll, CreateAll;
    DeleteAllKeepsSafe(eps, deviceOf, s, order, stops);
    var o := DeleteAll(eps, s, order, stops);
    CreateAllKeepsSafe(eps, deviceOf, o.maps, devices, Desired(devices) - s.Current());
  }

  /** Any refreshes in any order, from the start. */
  lemma {:induction false} SafeOverRuns(eps: seq<Endpoint>, deviceOf: Datapath -> DeviceId, states: seq<Maps>,
                                        lists: seq<seq<Device>>, orders: seq<seq<Datapath>>,
                                        stops: seq<(Datapath, Endpoint) -> bool>, n: nat)
    requires |states| == |lists| + 1 && |orders| == |stops| == |lists| && n < |states|
    requires states[0] == Maps(map[], map[])
    requires forall i :: 0 <= i < |lists| ==>
               states[i + 1] == Refresh(eps, states[i], lists[i], orders[i], stops[i]).maps
    requires forall i, d :: 0 <= i < |lists| && d in lists[i] ==> d.id == deviceOf(d.datapath)
    ensures forall id :: id in states[n].devices ==> Covered(eps, states[n], states[n].devices[id])
    ensures Safe(eps, deviceOf, states[n])
  {
    hide Refresh;
    if n > 0 {
      SafeOverRuns(eps, deviceOf, states, lists, orders, stops, n - 1);
      RefreshKeepsSafe(eps, deviceOf, states[n - 1], lists[n - 1], orders[n - 1], stops[n - 1]);
      assert states[n - 1 + 1] == Refresh(eps, states[n - 1], lists[n - 1], orders[n - 1], stops[n - 1]).maps;
    }
  }

  const TWINS := [Device("a", 7), Device("b", 7)]
  const TWIN_MAPS := Maps(map[(7, "c") := "b"], map["a" := 7, "b" := 7])

  /** Without that assumption it fails: two devices on one datapath, then none. */
  lemma SharedDatapathDangles(stops: (Datapath, Endpoint) -> bool)
    requires stops(7, "c")
    ensures Refresh(["c"], Maps(map[], map[]), TWINS, [], stops) == Outcome(true, TWIN_MAPS)
    ensures var t := Refresh(["c"], TWIN_MAPS, [], [7], stops);
            t.ok && "a" in t.maps.devices && !Covered(["c"], t.maps, t.maps.devices["a"])
  {
    TwinsAppear(stops);
    var eps, t := ["c"], TWIN_MAPS;
    assert (7, "c") in t.agents && 7 in t.Current() && Desired([]) == {};
    var u := Maps(t.agents - {(7, "c")}, t.devices - {"b"});
    assert eps[1..] == [] && [7][1..] == [];
    assert Delete(eps, t, 7, e => stops([7][0], e)) == Outcome(true, u);
    assert DeleteAll(eps, t, [7], stops) == Outcome(true, u);
    assert CreateAll(eps, u, [], Desired([]) - t.Current()) == u;
    assert (7, eps[0]) !in u.agents && u.devices["a"] == 7;
  }

  lemma TwinsAppear(stops: (Datapath, Endpoint) -> bool)
    ensures Refresh(["c"], Maps(map[], map[]), TWINS, [], stops) == Outcome(true, TWIN_MAPS)
  {
    var eps, a, b := ["c"], TWINS[0], TWINS[1];
    var s: Maps := Maps(map[], map[]);
    assert s.Current() == {} && a in TWINS && 7 in Desired(TWINS);
    assert eps[1..] == [] && TWINS[1..] == [b] && [b][1..] == [];
    var t := Maps(map[(7, "c") := "a"], map["a" := 7]);
    assert Create(eps, s, a) == Create([], t, a) == t;
    assert Create(eps, t, b) == Create([], TWIN_MAPS, b) == TWIN_MAPS;
    var toAdd := Desired(TWINS) - s.Current();
    assert CreateAll(eps, t, [b], toAdd) == CreateAll(eps, TWIN_MAPS, [], toAdd) == TWIN_MAPS;
  }

  // ------------------------------------------------------------ convergence

  /** Exactly the agents for `dps` times the endpoints, and exactly their devices. */
  ghost predicate Tidy(eps: seq<Endpoint>, deviceOf: Datapath -> DeviceId, s: Maps, dps: set<Datapath>) {
    && (forall k :: k in s.agents <==> k.0 in dps && k.1 in eps)
    && (forall k :: k in s.agents ==> s.agents[k] == deviceOf(k.0))
    && (forall dp :: dp in dps ==> deviceOf(dp) in s.devices)
    && (forall d :: d in s.devices ==> s.devices[d] in dps && d == deviceOf(s.devices[d]))
  }

  ghost predicate Injective(deviceOf: Datapath -> DeviceId) {
    forall a, b :: deviceOf(a) == deviceOf(b) ==> a == b
  }

  ghost predicate Matches(devices: seq<Device>, deviceOf: Datapath -> DeviceId) {
    forall d :: d in devices ==> d.id == deviceOf(d.datapath)
  }

  lemma TidyCurrent(eps: seq<Endpoint>, deviceOf: Datapath -> DeviceId, s: Maps, dps: set<Datapath>)
    requires eps != [] && Tidy(eps, deviceOf, s, dps)
    ensures s.Current() == dps
  {
    forall dp | dp in dps
      ensures dp in s.Current()
    {
      assert (dp, eps[0]) in s.agents;
    }
  }

  /** Some agents of the datapath are left, but not the one that deletion starts with. */
  ghost predicate Broken(eps: seq<Endpoint>, s: Maps, dp: Datapath) {
    eps != [] && (dp, eps[0]) !in s.agents && exists e :: (dp, e) in s.agents
  }

  /** No agent of these datapaths raises when it is stopped. */
  ghost predicate AllStop(eps: seq<Endpoint>, dps: set<Datapath>, stops: (Datapath, Endpoint) -> bool) {
    forall dp, e :: dp in dps && e in eps ==> stops(dp, e)
  }

  /** With one endpoint a deletion is clean; with two it is clean too but ends in an
      exception; with more it stops half way. */
  lemma DeleteTidy(eps: seq<Endpoint>, deviceOf: Datapath -> DeviceId, s: Maps, dps: set<Datapath>, dp: Datapath,
                   stops: Endpoint -> bool)
    requires eps != [] && Distinct(eps) && Injective(deviceOf) && Tidy(eps, deviceOf, s, dps) && dp in dps
    requires forall e :: e in eps ==> stops(e)
    ensures var o := Delete(eps, s, dp, stops);
            && (o.ok <==> |eps| == 1)
            && if |eps| <= 2 then Tidy(eps, deviceOf, o.maps, dps - {dp}) else Broken(eps, o.maps, dp)
  {
    hide Injective, Tidy;
    var id := deviceOf(dp);
    FirstDeletion(eps, deviceOf, s, dps, dp);
    var t := Maps(s.agents - {(dp, eps[0])}, s.devices - {id});
    if |eps| == 1 {
      assert Delete(eps, s, dp, stops) == Delete(eps[1..], t, dp, stops);
      assert t.agents - {(dp, eps[0])} == t.agents;
    } else {
      var u := t.(agents := t.agents - {(dp, eps[1])});
      assert eps[1..][0] == eps[1];
      assert Delete(eps[1..], t, dp, stops) == Outcome(false, u);
      if |eps| > 2 {
        assert (dp, eps[2]) in u.agents;
      }
    }
  }

  lemma FirstDeletion(eps: seq<Endpoint>, deviceOf: Datapath -> DeviceId, s: Maps, dps: set<Datapath>, dp: Datapath)
    requires eps != [] && Distinct(eps) && Injective(deviceOf) && Tidy(eps, deviceOf, s, dps) && dp in dps
    ensures (dp, eps[0]) in s.agents && s.agents[(dp, eps[0])] == deviceOf(dp) && deviceOf(dp) in s.devices
    ensures |eps| > 1 ==> (dp, eps[1]) in s.agents && s.agents[(dp, eps[1])] == deviceOf(dp)
    ensures |eps| > 2 ==> (dp, eps[2]) in s.agents
    ensures var t := Maps(s.agents - {(dp, eps[0])}, s.devices - {deviceOf(dp)});
            var u := t.(agents := t.agents - {(dp, eps[1 % |eps|])});
            |eps| <= 2 ==> Tidy(eps, deviceOf, u, dps - {dp})
  {
    var u := Maps(s.agents - {(dp, eps[0])} - {(dp, eps[1 % |eps|])}, s.devices - {deviceOf(dp)});
    assert s.devices[deviceOf(dp)] == dp;
    if |eps| <= 2 {
      assert forall e :: e in eps <==> e == eps[0] || e == eps[1 % |eps|];
    }
  }

  lemma {:induction false} DeleteAllTidy(eps: seq<Endpoint>, deviceOf: Datapath -> DeviceId, s: Maps,
                                         dps: set<Datapath>, order: seq<Datapath>,
                                         stops: (Datapath, Endpoint) -> bool)
    requires |eps| == 1 && Injective(deviceOf) && Tidy(eps, deviceOf, s, dps)
    requires Distinct(order) && Elements(order) <= dps && AllStop(eps, Elements(order), stops)
    ensures var o := DeleteAll(eps, s, order, stops); o.ok && Tidy(eps, deviceOf, o.maps, dps - Elements(order))
    decreases |order|
  {
    hide Injective, Tidy;
    if order != [] {
      var dp, rest := order[0], order[1..];
      assert dp in Elements(order);
      DeleteTidy(eps, deviceOf, s, dps, dp, e => stops(dp, e));
      var o := Delete(eps, s, dp, e => stops(dp, e));
      assert Elements(order) == {dp} + Elements(rest) && dp !in rest;
      DeleteAllTidy(eps, deviceOf, o.maps, dps - {dp}, rest, stops);
      assert dps - {dp} - Elements(rest) == dps - Elements(order);
    } else {
      assert dps - Elements(order) == dps;
    }
  }

  lemma {:induction false} CreateAllTidy(eps: seq<Endpoint>, deviceOf: Datapath -> DeviceId, s: Maps,
                                         dps: set<Datapath>, devices: seq<Device>, toAdd: set<Datapath>)
    requires eps != [] && Injective(deviceOf) && Matches(devices, deviceOf) && Tidy(eps, deviceOf, s, dps)
    ensures Tidy(eps, deviceOf, CreateAll(eps, s, devices, toAdd), dps + Desired(devices) * toAdd)
    decreases |devices|
  {
    hide Tidy, Injective;
    if devices != [] {
      var d, rest := devices[0], devices[1..];
      assert d in devices && Matches(rest, deviceOf);
      assert Desired(devices) == {d.datapath} + Desired(rest);
      if d.datapath in toAdd {
        CreateTidy(eps, deviceOf, s, dps, d);
        CreateAllTidy(eps, deviceOf, Create(eps, s, d), dps + {d.datapath}, rest, toAdd);
        assert dps + {d.datapath} + Desired(rest) * toAdd == dps + Desired(devices) * toAdd;
      } else {
        CreateAllTidy(eps, deviceOf, s, dps, rest, toAdd);
        assert Desired(rest) * toAdd == Desired(devices) * toAdd;
      }
    } else {
      assert dps + Desired(devices) * toAdd == dps;
    }
  }

  lemma CreateTidy(eps: seq<Endpoint>, deviceOf: Datapath -> DeviceId, s: Maps, dps: set<Datapath>, d: Device)
    requires eps != [] && Injective(deviceOf) && d.id == deviceOf(d.datapath) && Tidy(eps, deviceOf, s, dps)
    ensures Tidy(eps, deviceOf, Create(eps, s, d), dps + {d.datapath})
  {
    hide Create;
    CreateTidyAgents(eps, deviceOf, s, dps, d);
    CreateTidyDevices(eps, deviceOf, s, dps, d);
  }

  lemma CreateTidyAgents(eps: seq<Endpoint>, deviceOf: Datapath -> DeviceId, s: Maps, dps: set<Datapath>, d: Device)
    requires d.id == deviceOf(d.datapath) && Tidy(eps, deviceOf, s, dps)
    ensures var t := Create(eps, s, d);
            && (forall k :: k in t.agents <==> k.0 in dps + {d.datapath} && k.1 in eps)
            && (forall k :: k in t.agents ==> t.agents[k] == deviceOf(k.0))
  {
    hide Create;
    CreateAdds(eps, s, d);
  }

  lemma CreateTidyDevices(eps: seq<Endpoint>, deviceOf: Datapath -> DeviceId, s: Maps, dps: set<Datapath>, d: Device)
    requires eps != [] && Injective(deviceOf) && d.id == deviceOf(d.datapath) && Tidy(eps, deviceOf, s, dps)
    ensures var t, all := Create(eps, s, d), dps + {d.datapath};
            && (forall dp :: dp in all ==> deviceOf(dp) in t.devices)
            && (forall x :: x in t.devices ==> t.devices[x] in all && x == deviceOf(t.devices[x]))
  {
    hide Create;
    CreateAdds(eps, s, d);
  }

  /** One refresh of a tidy state, all agents to be deleted stopping. */
  lemma RefreshTidy(eps: seq<Endpoint>, deviceOf: Datapath -> DeviceId, s: Maps, dps: set<Datapath>,
                    devices: seq<Device>, order: seq<Datapath>, stops: (Datapath, Endpoint) -> bool)
    requires eps != [] && Distinct(eps) && Injective(deviceOf) && Matches(devices, deviceOf)
    requires Tidy(eps, deviceOf, s, dps)
    requires IsOrder(order, dps - Desired(devices)) && AllStop(eps, dps - Desired(devices), stops)
    ensures var o, want := Refresh(eps, s, devices, order, stops), Desired(devices);
            && (o.ok <==> |eps| == 1 || dps <= want)
            && (o.ok ==> Tidy(eps, deviceOf, o.maps, want))
            && (!o.ok ==> order != [] && order[0] in dps - want)
            && (!o.ok && |eps| == 2 ==> Tidy(eps, deviceOf, o.maps, dps - {order[0]}))
            && (!o.ok && |eps| > 2 ==> Broken(eps, o.maps, order[0]))
  {
    hide Tidy, Injective, Matches, Broken;
    TidyCurrent(eps, deviceOf, s, dps);
    var want := Desired(devices);
    if |eps| == 1 {
      DeleteAllTidy(eps, deviceOf, s, dps, order, stops);
    } else if order != [] {
      assert order[0] in Elements(order);
      DeleteTidy(eps, deviceOf, s, dps, order[0], e => stops(order[0], e));
    }
    if |eps| == 1 || order == [] {
      var o := DeleteAll(eps, s, order, stops);
      assert order == [] ==> dps - Elements(order) == dps;
      CreateAllTidy(eps, deviceOf, o.maps, dps - Elements(order), devices, want - dps);
      assert dps - Elements(order) + want * (want - dps) == want;
    }
  }

  /** The agents of one datapath are the same in both states. */
  ghost predicate SameAgents(s: Maps, t: Maps, dp: Datapath) {
    forall e :: (dp, e) in s.agents <==> (dp, e) in t.agents
  }

  lemma {:induction false} DeleteSpares(all: seq<Endpoint>, eps: seq<Endpoint>, s: Maps, other: Datapath,
                                        stops: Endpoint -> bool, dp: Datapath)
    requires dp != other || (Broken(all, s, dp) && eps == all)
    ensures SameAgents(s, Delete(eps, s, other, stops).maps, dp)
  {
    if dp != other && eps != [] && (other, eps[0]) in s.agents && stops(eps[0]) {
      var id := s.agents[(other, eps[0])];
      DeleteSpares(all, eps[1..], Maps(s.agents - {(other, eps[0])}, s.devices - {id}), other, stops, dp);
    }
  }

  lemma {:induction false} DeleteAllSpares(eps: seq<Endpoint>, s: Maps, order: seq<Datapath>,
                                           stops: (Datapath, Endpoint) -> bool, dp: Datapath)
    requires Broken(eps, s, dp)
    ensures var o := DeleteAll(eps, s, order, stops); SameAgents(s, o.maps, dp) && (dp in order ==> !o.ok)
    decreases |order|
  {
    hide SameAgents;
    if order != [] {
      DeleteSpares(eps, eps, s, order[0], e => stops(order[0], e), dp);
      var o := Delete(eps, s, order[0], e => stops(order[0], e));
      SameBroken(eps, s, o.maps, dp);
      if o.ok {
        DeleteAllSpares(eps, o.maps, order[1..], stops, dp);
        SameBroken(eps, o.maps, DeleteAll(eps, o.maps, order[1..], stops).maps, dp);
        SameTrans(s, o.maps, DeleteAll(eps, o.maps, order[1..], stops).maps, dp);
      }
    } else {
      SameTrans(s, s, s, dp);
    }
  }

  lemma SameBroken(eps: seq<Endpoint>, s: Maps, t: Maps, dp: Datapath)
    requires Broken(eps, s, dp) && SameAgents(s, t, dp)
    ensures Broken(eps, t, dp)
  {
    var e :| (dp, e) in s.agents;
    assert (dp, e) in t.agents;
  }

  lemma SameTrans(s: Maps, t: Maps, u: Maps, dp: Datapath)
    ensures SameAgents(s, s, dp) && (SameAgents(s, t, dp) && SameAgents(t, u, dp) ==> SameAgents(s, u, dp))
  {
  }

  lemma {:induction false} CreateAllSpares(eps: seq<Endpoint>, s: Maps, devices: seq<Device>, toAdd: set<Datapath>,
                                           dp: Datapath)
    requires dp !in toAdd
    ensures SameAgents(s, CreateAll(eps, s, devices, toAdd), dp)
    decreases |devices|
  {
    if devices != [] {
      var t := if devices[0].datapath in toAdd then Create(eps, s, devices[0]) else s;
      CreateAdds(eps, s, devices[0]);
      CreateAllSpares(eps, t, devices[1..], toAdd, dp);
    }
  }

  /** A broken datapath stays broken through every refresh with every device list, and a
      refresh that does not want it always ends in an exception. */
  lemma BrokenForGood(eps: seq<Endpoint>, s: Maps, devices: seq<Device>, order: seq<Datapath>,
                      stops: (Datapath, Endpoint) -> bool, dp: Datapath)
    requires Broken(eps, s, dp) && IsOrder(order, s.Current() - Desired(devices))
    ensures var o := Refresh(eps, s, devices, order, stops);
            Broken(eps, o.maps, dp) && (dp !in Desired(devices) ==> !o.ok)
  {
    hide SameAgents;
    var e :| (dp, e) in s.agents;
    assert (dp, e).0 in s.Current();
    DeleteAllSpares(eps, s, order, stops, dp);
    var o := DeleteAll(eps, s, order, stops);
    SameBroken(eps, s, o.maps, dp);
    if o.ok {
      var toAdd := Desired(devices) - s.Current();
      CreateAllSpares(eps, o.maps, devices, toAdd, dp);
      SameBroken(eps, o.maps, CreateAll(eps, o.maps, devices, toAdd), dp);
    }
    if dp !in Desired(devices) {
      assert dp in Elements(order);
    }
  }

  // ------------------------------------------------- refreshing again and again

  /** Refreshes with one and the same device list, and agents that always or never raise when stopped. */
  ghost predicate IsRun(eps: seq<Endpoint>, devices: seq<Device>, stops: (Datapath, Endpoint) -> bool,
                        states: seq<Maps>)
  {
    forall i :: 0 <= i < |states| - 1 ==> Follows(eps, devices, stops, states[i], states[i + 1])
  }

  ghost predicate Follows(eps: seq<Endpoint>, devices: seq<Device>, stops: (Datapath, Endpoint) -> bool,
                          s: Maps, t: Maps)
  {
    exists order :: IsOrder(order, s.Current() - Desired(devices)) && t == Refresh(eps, s, devices, order, stops).maps
  }

  predicate Stops(dp: Datapath, e: Endpoint) { true }

  /** Whatever the lists were, all agents stopping, every reachable state is tidy, or there are more than two endpoints
      and a datapath is half deleted for good. */
  lemma {:induction false} TidyOverRuns(eps: seq<Endpoint>, deviceOf: Datapath -> DeviceId, lists: seq<seq<Device>>,
                                        states: seq<Maps>, n: nat)
    requires eps != [] && Distinct(eps) && Injective(deviceOf)
    requires |states| == |lists| + 1 && n < |states| && states[0] == Maps(map[], map[])
    requires forall i :: 0 <= i < |lists| ==>
               Matches(lists[i], deviceOf) && Follows(eps, lists[i], Stops, states[i], states[i + 1])
    ensures (exists dps :: Tidy(eps, deviceOf, states[n], dps)) ||
            (|eps| > 2 && exists dp :: Broken(eps, states[n], dp))
  {
    hide Tidy, Injective, Matches, Refresh, Broken;
    if n == 0 {
      EmptyIsTidy(eps, deviceOf);
    } else {
      TidyOverRuns(eps, deviceOf, lists, states, n - 1);
      var s, devices := states[n - 1], lists[n - 1];
      assert Follows(eps, devices, Stops, s, states[n - 1 + 1]);
      var order :| IsOrder(order, s.Current() - Desired(devices)) &&
        states[n] == Refresh(eps, s, devices, order, Stops).maps;
      if dps :| Tidy(eps, deviceOf, s, dps) {
        TidyCurrent(eps, deviceOf, s, dps);
        RefreshTidy(eps, deviceOf, s, dps, devices, order, Stops);
      } else {
        var dp :| Broken(eps, s, dp);
        BrokenForGood(eps, s, devices, order, Stops, dp);
      }
    }
  }

  lemma EmptyIsTidy(eps: seq<Endpoint>, deviceOf: Datapath -> DeviceId)
    ensures Tidy(eps, deviceOf, Maps(map[], map[]), {})
  {
  }

  lemma {:induction false} Converges(eps: seq<Endpoint>, deviceOf: Datapath -> DeviceId, devices: seq<Device>,
                                     dps: set<Datapath>, stops: (Datapath, Endpoint) -> bool, states: seq<Maps>,
                                     n: nat)
    requires 1 <= |eps| <= 2 && Distinct(eps) && Injective(deviceOf) && Matches(devices, deviceOf)
    requires AllStop(eps, dps - Desired(devices), stops)
    requires n < |states| && IsRun(eps, devices, stops, states) && Tidy(eps, deviceOf, states[0], dps)
    requires n >= if |eps| == 1 then 1 else |dps - Desired(devices)| + 1
    ensures Tidy(eps, deviceOf, states[n], Desired(devices))
    decreases n
  {
    hide Tidy, Injective, Matches, Refresh;
    var s, want := states[0], Desired(devices);
    TidyCurrent(eps, deviceOf, s, dps);
    assert Follows(eps, devices, stops, s, states[1]);
    var order :| IsOrder(order, s.Current() - want) && states[1] == Refresh(eps, s, devices, order, stops).maps;
    RefreshTidy(eps, deviceOf, s, dps, devices, order, stops);
    assert IsRun(eps, devices, stops, states[1..]);
    if Refresh(eps, s, devices, order, stops).ok {
      if n > 1 {
        assert want - want == {};
        Converges(eps, deviceOf, devices, want, stops, states[1..], n - 1);
      }
    } else {
      assert dps - {order[0]} - want == (dps - want) - {order[0]};
      Converges(eps, deviceOf, devices, dps - {order[0]}, stops, states[1..], n - 1);
    }
  }

  lemma {:induction false} StaysBroken(eps: seq<Endpoint>, devices: seq<Device>,
                                       stops: (Datapath, Endpoint) -> bool, states: seq<Maps>, n: nat, dp: Datapath)
    requires n < |states| && IsRun(eps, devices, stops, states) && Broken(eps, states[0], dp)
    ensures Broken(eps, states[n], dp)
  {
    hide Broken, Refresh;
    if n > 0 {
      StaysBroken(eps, devices, stops, states, n - 1, dp);
      var s := states[n - 1];
      assert Follows(eps, devices, stops, s, states[n - 1 + 1]);
      var order :| IsOrder(order, s.Current() - Desired(devices)) &&
        states[n] == Refresh(eps, s, devices, order, stops).maps;
      BrokenForGood(eps, s, devices, order, stops, dp);
    }
  }

  lemma {:induction false} StuckDelete(eps: seq<Endpoint>, s: Maps, dp: Datapath, stops: Endpoint -> bool,
                                       k: (Datapath, Endpoint))
    requires k in s.agents && (k.0 == dp ==> !stops(k.1))
    ensures k in Delete(eps, s, dp, stops).maps.agents
  {
    if eps != [] && (dp, eps[0]) in s.agents && stops(eps[0]) {
      var id, agents := s.agents[(dp, eps[0])], s.agents - {(dp, eps[0])};
      StuckDelete(eps[1..], Maps(agents, s.devices - {id}), dp, stops, k);
    }
  }

  lemma {:induction false} StuckDeleteAll(eps: seq<Endpoint>, s: Maps, dps: seq<Datapath>,
                                          stops: (Datapath, Endpoint) -> bool, k: (Datapath, Endpoint))
    requires k in s.agents && !stops(k.0, k.1)
    ensures k in DeleteAll(eps, s, dps, stops).maps.agents
    decreases |dps|
  {
    hide Delete;
    if dps != [] {
      StuckDelete(eps, s, dps[0], e => stops(dps[0], e), k);
      var o := Delete(eps, s, dps[0], e => stops(dps[0], e));
      if o.ok {
        StuckDeleteAll(eps, o.maps, dps[1..], stops, k);
      }
    }
  }

  lemma {:induction false} CreateAllKeepsAgents(eps: seq<Endpoint>, s: Maps, devices: seq<Device>,
                                                toAdd: set<Datapath>, k: (Datapath, Endpoint))
    requires k in s.agents
    ensures k in CreateAll(eps, s, devices, toAdd).agents
    decreases |devices|
  {
    hide Create;
    if devices != [] {
      CreateAdds(eps, s, devices[0]);
      CreateAllKeepsAgents(eps, if devices[0].datapath in toAdd then Create(eps, s, devices[0]) else s,
                           devices[1..], toAdd, k);
    }
  }

  /** An agent that raises when stopped is never removed. */
  lemma {:induction false} StuckForGood(eps: seq<Endpoint>, devices: seq<Device>,
                                        stops: (Datapath, Endpoint) -> bool, states: seq<Maps>, n: nat,
                                        k: (Datapath, Endpoint))
    requires n < |states| && IsRun(eps, devices, stops, states) && k in states[0].agents && !stops(k.0, k.1)
    ensures k in states[n].agents
  {
    hide DeleteAll, CreateAll;
    if n > 0 {
      StuckForGood(eps, devices, stops, states, n - 1, k);
      var s := states[n - 1];
      assert Follows(eps, devices, stops, s, states[n - 1 + 1]);
      var order :| IsOrder(order, s.Current() - Desired(devices)) &&
        states[n] == Refresh(eps, s, devices, order, stops).maps;
      StuckDeleteAll(eps, s, order, stops, k);
      CreateAllKeepsAgents(eps, DeleteAll(eps, s, order, stops).maps, devices, Desired(devices) - s.Current(), k);
    }
  }

  lemma StuckIsNotTidy(eps: seq<Endpoint>, deviceOf: Datapath -> DeviceId, devices: seq<Device>, dps: set<Datapath>,
                       stops: (Datapath, Endpoint) -> bool, states: seq<Maps>, n: nat)
    requires n < |states| && IsRun(eps, devices, stops, states) && Tidy(eps, deviceOf, states[0], dps)
    requires !AllStop(eps, dps - Desired(devices), stops)
    ensures !Tidy(eps, deviceOf, states[n], Desired(devices))
  {
    hide IsRun;
    var dp, e :| dp in dps - Desired(devices) && e in eps && !stops(dp, e);
    assert (dp, e) in states[0].agents;
    StuckForGood(eps, devices, stops, states, n, (dp, e));
  }

  /** After one call, or with two endpoints after one more than there are datapaths to delete, the
      agents are the wanted ones exactly when nothing is to be deleted, or there are at most two
      endpoints and no agent to be deleted raises when it is stopped. */
  lemma ConvergesIff(eps: seq<Endpoint>, deviceOf: Datapath -> DeviceId, devices: seq<Device>, dps: set<Datapath>,
                     stops: (Datapath, Endpoint) -> bool, states: seq<Maps>, n: nat)
    requires eps != [] && Distinct(eps) && Injective(deviceOf) && Matches(devices, deviceOf)
    requires n < |states| && IsRun(eps, devices, stops, states) && Tidy(eps, deviceOf, states[0], dps)
    requires n >= if |eps| == 1 then 1 else |dps - Desired(devices)| + 1
    ensures Tidy(eps, deviceOf, states[n], Desired(devices)) <==>
            dps <= Desired(devices) || (|eps| <= 2 && AllStop(eps, dps - Desired(devices), stops))
  {
    hide Injective, Matches, Refresh, Tidy, Broken, AllStop;
    NothingToStop(eps, dps, devices, stops);
    if !AllStop(eps, dps - Desired(devices), stops) {
      StuckIsNotTidy(eps, deviceOf, devices, dps, stops, states, n);
    } else if |eps| <= 2 {
      Converges(eps, deviceOf, devices, dps, stops, states, n);
    } else {
      var s := states[0];
      TidyCurrent(eps, deviceOf, s, dps);
      assert Follows(eps, devices, stops, s, states[0 + 1]);
      var order :| IsOrder(order, s.Current() - Desired(devices)) &&
        states[1] == Refresh(eps, s, devices, order, stops).maps;
      RefreshTidy(eps, deviceOf, s, dps, devices, order, stops);
      if dps <= Desired(devices) {
        SettledStays(eps, deviceOf, devices, stops, states[1..], n - 1);
      } else {
        assert IsRun(eps, devices, stops, states[1..]);
        StaysBroken(eps, devices, stops, states[1..], n - 1, order[0]);
        BrokenIsNotTidy(eps, deviceOf, states[n], order[0], Desired(devices));
      }
    }
  }

  lemma NothingToStop(eps: seq<Endpoint>, dps: set<Datapath>, devices: seq<Device>,
                      stops: (Datapath, Endpoint) -> bool)
    ensures dps <= Desired(devices) ==> AllStop(eps, dps - Desired(devices), stops)
  {
  }

  lemma BrokenIsNotTidy(eps: seq<Endpoint>, deviceOf: Datapath -> DeviceId, s: Maps, dp: Datapath, dps: set<Datapath>)
    requires Broken(eps, s, dp)
    ensures !Tidy(eps, deviceOf, s, dps)
  {
    var e :| (dp, e) in s.agents;
    assert eps[0] in eps;
  }

  lemma {:induction false} SettledStays(eps: seq<Endpoint>, deviceOf: Datapath -> DeviceId, devices: seq<Device>,
                                        stops: (Datapath, Endpoint) -> bool, states: seq<Maps>, n: nat)
    requires eps != [] && n < |states| && IsRun(eps, devices, stops, states)
    requires Tidy(eps, deviceOf, states[0], Desired(devices))
    ensures Tidy(eps, deviceOf, states[n], Desired(devices))
  {
    hide Tidy;
    if n > 0 {
      SettledStays(eps, deviceOf, devices, stops, states, n - 1);
      TidyCurrent(eps, deviceOf, states[n - 1], Desired(devices));
      assert Follows(eps, devices, stops, states[n - 1], states[n - 1 + 1]);
    }
  }
}
