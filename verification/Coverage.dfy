/** When forwarding can rely on its agents (ofagent/connection_mgr.py): over all runs with devices
    from a given set, mapped devices are covered exactly when a datapath determines its device. */
module AgentCoverage {
  import opened Collections
  import opened Reconciliation

  /** One refresh: the list received, the order of the set to delete, and which agents stop. */
  datatype Call = Call(devices: seq<Device>, order: seq<Datapath>, stops: (Datapath, Endpoint) -> bool)

  ghost predicate RunOver(eps: seq<Endpoint>, u: set<Device>, states: seq<Maps>, calls: seq<Call>) {
    && |states| == |calls| + 1 && states[0] == Maps(map[], map[])
    && forall i :: 0 <= i < |calls| ==> FollowsOver(eps, u, states[i], calls[i], states[i + 1])
  }

  ghost predicate FollowsOver(eps: seq<Endpoint>, u: set<Device>, s: Maps, c: Call, t: Maps) {
    && (forall d :: d in c.devices ==> d in u)
    && IsOrder(c.order, s.Current() - Desired(c.devices))
    && t == Refresh(eps, s, c.devices, c.order, c.stops).maps
  }

  ghost predicate AllCovered(eps: seq<Endpoint>, s: Maps) {
    forall id :: id in s.devices ==> Covered(eps, s, s.devices[id])
  }

  /** No two devices of the set share a datapath. */
  ghost predicate Determines(u: set<Device>) {
    forall a, b :: a in u && b in u && a.datapath == b.datapath ==> a.id == b.id
  }

  // ---------------------------------------------------------------- sufficiency

  ghost function Owner(u: set<Device>, dp: Datapath): DeviceId {
    if d :| d in u && d.datapath == dp then d.id else ""
  }

  ghost function OwnerIn(u: set<Device>): Datapath -> DeviceId { (dp: Datapath) => Owner(u, dp) }

  lemma {:induction false} DeterminedIsSafe(eps: seq<Endpoint>, u: set<Device>, states: seq<Maps>, calls: seq<Call>,
                                            n: nat)
    requires RunOver(eps, u, states, calls) && Determines(u) && n < |states|
    ensures Safe(eps, OwnerIn(u), states[n])
  {
    hide Refresh, IsOrder;
    if n > 0 {
      var s, c := states[n - 1], calls[n - 1];
      DeterminedIsSafe(eps, u, states, calls, n - 1);
      assert FollowsOver(eps, u, s, c, states[n - 1 + 1]);
      forall d | d in c.devices
        ensures d.id == Owner(u, d.datapath)
      {
        assert d in u;
      }
      RefreshKeepsSafe(eps, OwnerIn(u), s, c.devices, c.order, c.stops);
    }
  }

  // ------------------------------------------------------------------ necessity

  predicate Always(dp: Datapath, e: Endpoint) { true }

  /** The maps after a list of two devices on one datapath: all agents name the second. */
  ghost predicate Twins(eps: seq<Endpoint>, s: Maps, a: Device, b: Device) {
    && (forall k :: k in s.agents <==> k.0 == a.datapath && k.1 in eps)
    && (forall k :: k in s.agents ==> s.agents[k] == b.id)
    && s.devices == map[a.id := a.datapath, b.id := b.datapath]
  }

  lemma TwinsCreated(eps: seq<Endpoint>, a: Device, b: Device)
    requires eps != [] && a.datapath == b.datapath
    ensures var s := Refresh(eps, Maps(map[], map[]), [a, b], [], Always);
            Twins(eps, s.maps, a, b) && s.maps.Current() == {a.datapath}
    ensures Maps(map[], map[]).Current() - Desired([a, b]) == {}
  {
    hide Create;
    var none: Maps := Maps(map[], map[]);
    var dp, list := a.datapath, [a, b];
    assert list[0] in list && dp in Desired(list) && none.Current() == {};
    assert Desired(list) == {dp};
    assert list[1..] == [b] && [b][1..] == [];
    var s := Create(eps, none, a);
    var t := Create(eps, s, b);
    CreateAdds(eps, none, a);
    CreateAdds(eps, s, b);
    var toAdd := Desired(list) - none.Current();
    assert CreateAll(eps, none, list, toAdd) == CreateAll(eps, s, list[1..], toAdd);
    assert CreateAll(eps, s, [b], toAdd) == CreateAll(eps, t, [b][1..], toAdd) == t;
    assert DeleteAll(eps, none, [], Always) == Outcome(true, none);
    assert (dp, eps[0]) in t.agents;
  }

  /** Deleting the datapath takes away its first agent, and the second device's entry only. */
  lemma TwinsDeleted(eps: seq<Endpoint>, s: Maps, a: Device, b: Device, stops: Endpoint -> bool)
    requires eps != [] && Twins(eps, s, a, b) && a.id != b.id && forall e :: stops(e)
    ensures var t := Delete(eps, s, a.datapath, stops).maps;
            a.id in t.devices && t.devices[a.id] == a.datapath && (a.datapath, eps[0]) !in t.agents
  {
    var dp := a.datapath;
    var t := Maps(s.agents - {(dp, eps[0])}, s.devices - {b.id});
    assert (dp, eps[0]) in s.agents;
    assert Delete(eps, s, dp, stops) == Delete(eps[1..], t, dp, stops);
  }

  lemma TwinsDangle(eps: seq<Endpoint>, s: Maps, a: Device, b: Device, stops: (Datapath, Endpoint) -> bool)
    requires eps != [] && Twins(eps, s, a, b) && a.id != b.id && s.Current() == {a.datapath}
    requires forall dp, e :: stops(dp, e)
    ensures !AllCovered(eps, Refresh(eps, s, [], [a.datapath], stops).maps)
    ensures s.Current() - Desired([]) == {a.datapath}
  {
    hide Delete, Twins;
    var dp := a.datapath;
    var one := [dp];
    var o := Delete(eps, s, one[0], e => stops(one[0], e));
    TwinsDeleted(eps, s, a, b, e => stops(one[0], e));
    assert one[1..] == [] && Desired([]) == {} && dp in s.Current();
    assert DeleteAll(eps, s, one, stops).maps == o.maps;
    var r := Refresh(eps, s, [], one, stops).maps;
    assert r == o.maps;
    assert !Covered(eps, r, r.devices[a.id]);
  }

  /** Two devices on one datapath, then none: a run that ends with an uncovered device. */
  lemma TwinsRun(eps: seq<Endpoint>, u: set<Device>, a: Device, b: Device) returns (states: seq<Maps>, calls: seq<Call>)
    requires eps != [] && a in u && b in u && a.datapath == b.datapath && a.id != b.id
    ensures RunOver(eps, u, states, calls) && !AllCovered(eps, states[|calls|])
  {
    hide Refresh, Twins, AllCovered, Maps.Current, Desired;
    var none: Maps := Maps(map[], map[]);
    var dp := a.datapath;
    TwinsCreated(eps, a, b);
    var s := Refresh(eps, none, [a, b], [], Always).maps;
    TwinsDangle(eps, s, a, b, Always);
    var t := Refresh(eps, s, [], [dp], Always).maps;
    states, calls := [none, s, t], [Call([a, b], [], Always), Call([], [dp], Always)];
    assert IsOrder<Datapath>([], {}) && IsOrder([dp], {dp});
    assert FollowsOver(eps, u, none, calls[0], s);
    assert FollowsOver(eps, u, s, calls[1], t);
  }

  // ---------------------------------------------------------------- both together

  /** Through all runs with devices from the set, refreshes that end in an exception and agents that
      fail to stop included, every mapped device's datapath has an agent for every endpoint, exactly
      when no two devices of the set share a datapath. */
  lemma CoveredIff(eps: seq<Endpoint>, u: set<Device>)
    requires eps != []
    ensures (forall states, calls :: RunOver(eps, u, states, calls) ==> AllCovered(eps, states[|calls|])) <==>
            Determines(u)
  {
    hide RunOver, AllCovered, Refresh;
    if Determines(u) {
      forall states, calls | RunOver(eps, u, states, calls)
        ensures |states| == |calls| + 1 && AllCovered(eps, states[|calls|])
      {
        RunLength(eps, u, states, calls);
        DeterminedIsSafe(eps, u, states, calls, |calls|);
        SafeIsCovered(eps, OwnerIn(u), states[|calls|]);
      }
    } else {
      var a, b :| a in u && b in u && a.datapath == b.datapath && a.id != b.id;
      var states, calls := TwinsRun(eps, u, a, b);
    }
  }

  lemma RunLength(eps: seq<Endpoint>, u: set<Device>, states: seq<Maps>, calls: seq<Call>)
    requires RunOver(eps, u, states, calls)
    ensures |states| == |calls| + 1
  {
  }

  lemma SafeIsCovered(eps: seq<Endpoint>, deviceOf: Datapath -> DeviceId, s: Maps)
    requires Safe(eps, deviceOf, s)
    ensures AllCovered(eps, s)
  {
  }
}
