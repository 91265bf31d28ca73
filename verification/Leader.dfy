/** The leader as an object: sanitising the member list, the gate, and the
    reassignment with its writes (voltha/leader.py). */
module LeaderObject {
  import opened Collections
  import opened Strings
  import opened CoreIds
  import opened Reassignment
  import opened LeaderStore
  import opened ClusterRun
  import opened MemberList

  /** The key-value store as the leader sees it; `log` lists the writes in order. */
  class Consul {
    var store: Store
    ghost var log: seq<Write>

    constructor ()
      ensures store == Store(None, map[], map[]) && log == []
    {
      store := Store(None, map[], map[]);
      log := [];
    }

    method Write(w: Write)
      modifies this
      ensures store == Apply(old(store), w) && log == old(log) + [w]
    {
      store := Apply(store, w);
      log := log + [w];
    }
  }

  // ------------------------------------------------------------- step 1 and 2

  method MaxKey(ids: set<CoreId>) returns (m: CoreId)
    requires ids != {}
    ensures m == MaxId(ids)
  {
    m :| m in ids;
    var rest := ids - {m};
    LessTotal(m, m);
    while rest != {}
      invariant rest <= ids && m in ids - rest
      invariant forall k :: k in ids - rest ==> !Less(m, k)
      decreases rest
    {
      var x :| x in rest;
      rest := rest - {x};
      if Less(m, x) {
        forall k | k in ids - rest
          ensures !Less(x, k)
        {
          if Less(x, k) {
            LessTotal(x, x);
            LessTransitive(m, x, k);
          }
        }
        m := x;
      }
    }
    LessTotal(m, MaxId(ids));
  }

  method ClearDeparted(assignment: Mapping, members: seq<Member>)
    returns (updated: Mapping, active: set<string>, cleared: set<CoreId>, inactive: set<string>)
    ensures updated == Retained(assignment, members)
    ensures active == ActiveIds(assignment, members)
    ensures cleared == Cleared(assignment, members)
    ensures inactive == InactiveIds(assignment, members)
  {
    hide Retained, ActiveIds, Cleared, InactiveIds;
    updated, active, cleared, inactive := map[], {}, {}, {};
    var rest := assignment.Keys;
    ghost var done: Mapping := map[];
    RetainedNothing(members);
    while rest != {}
      invariant rest <= assignment.Keys && done.Keys == assignment.Keys - rest
      invariant forall k :: k in done ==> done[k] == assignment[k]
      invariant updated == Retained(done, members)
      invariant active == ActiveIds(done, members)
      invariant cleared == Cleared(done, members)
      invariant inactive == InactiveIds(done, members)
      decreases rest
    {
      var id :| id in rest;
      rest := rest - {id};
      VisitSlot(done, id, assignment[id], members);
      done := done[id := assignment[id]];
      if !Active(assignment[id], members) {
        updated := updated[id := None];
        cleared := cleared + {id};
        if assignment[id].Some? {
          inactive := inactive + {assignment[id].value.id};
        }
      } else {
        updated := updated[id := assignment[id]];
        active := active + {assignment[id].value.id};
      }
    }
    assert done == assignment;
  }

  lemma RetainedNothing(members: seq<Member>)
    ensures Retained(map[], members) == map[] && Cleared(map[], members) == {}
    ensures ActiveIds(map[], members) == {} && InactiveIds(map[], members) == {}
  {
  }

  /** One iteration over the dictionary, as equations. */
  lemma VisitSlot(done: Mapping, id: CoreId, slot: Option<Member>, members: seq<Member>)
    requires id !in done
    ensures var d := done[id := slot];
            var on := Active(slot, members);
            && Retained(d, members) == Retained(done, members)[id := if on then slot else None]
            && ActiveIds(d, members) == ActiveIds(done, members) + (if on then {slot.value.id} else {})
            && Cleared(d, members) == Cleared(done, members) + (if on then {} else {id})
            && InactiveIds(d, members) == InactiveIds(done, members) +
                 (if !on && slot.Some? then {slot.value.id} else {})
  {
    hide Active, ActiveIds, InactiveIds, Cleared, EmptySlots;
    VisitIds(done, id, slot, members);
    var d := done[id := slot];
    assert forall k :: k in Cleared(done, members) ==> k in done by {
      ClearedIsOld(done, members);
    }
    assert Retained(d, members) == Retained(done, members)[id := if Active(slot, members) then slot else None];
  }

  lemma ClearedIsOld(m: Mapping, members: seq<Member>)
    ensures Cleared(m, members) <= m.Keys
  {
  }

  lemma VisitIds(done: Mapping, id: CoreId, slot: Option<Member>, members: seq<Member>)
    requires id !in done
    ensures var d := done[id := slot];
            var on := Active(slot, members);
            && ActiveIds(d, members) == ActiveIds(done, members) + (if on then {slot.value.id} else {})
            && Cleared(d, members) == Cleared(done, members) + (if on then {} else {id})
            && InactiveIds(d, members) == InactiveIds(done, members) +
                 (if !on && slot.Some? then {slot.value.id} else {})
  {
    var d := done[id := slot];
    assert forall k :: k in done ==> k in d && d[k] == done[k];
    assert id in d && d[id] == slot;
    forall x | x in ActiveIds(done, members)
      ensures x in ActiveIds(d, members)
    {
      var k :| k in done && Active(done[k], members) && done[k].value.id == x;
      assert k in d && Active(d[k], members) && d[k].value.id == x;
    }
    forall x | x in InactiveIds(done, members)
      ensures x in InactiveIds(d, members)
    {
      var k :| k in done && !Active(done[k], members) && done[k].Some? && done[k].value.id == x;
      assert k in d && !Active(d[k], members) && d[k].Some? && d[k].value.id == x;
    }
  }

  lemma PlacePops(m: Mapping, incoming: seq<Member>, rest: seq<CoreId>, current: CoreId)
    requires incoming != [] && (IsHex(current) || |incoming| <= |rest|)
    ensures rest != [] ==> Place(m, incoming, rest, current) ==
                             Place(m[rest[0] := Some(incoming[0])], incoming[1..], rest[1..], current)
    ensures rest == [] ==> Place(m, incoming, rest, current) ==
                             Place(m[NextCoreId(current) := Some(incoming[0])], incoming[1..], [], NextCoreId(current))
  {
  }

  /** What the placement still has to do, whatever order the rest is popped in. */
  ghost predicate PlacementSoFar(mapping: Mapping, all: seq<Member>, popped: seq<CoreId>, start: CoreId,
                                 updated: Mapping, incoming: seq<Member>, free: set<CoreId>, current: CoreId)
  {
    forall rest :: IsOrder(rest, free) ==>
      && (IsHex(start) || |all| <= |popped + rest|) && (IsHex(current) || |incoming| <= |rest|)
      && Place(mapping, all, popped + rest, start) == Place(updated, incoming, rest, current)
  }

  lemma PlaceInFreeSlot(mapping: Mapping, all: seq<Member>, popped: seq<CoreId>, start: CoreId,
                        updated: Mapping, incoming: seq<Member>, free: set<CoreId>, current: CoreId, id: CoreId)
    requires PlacementSoFar(mapping, all, popped, start, updated, incoming, free, current)
    requires incoming != [] && id in free
    ensures PlacementSoFar(mapping, all, popped + [id], start,
                           updated[id := Some(incoming[0])], incoming[1..], free - {id}, current)
  {
    forall rest | IsOrder(rest, free - {id})
      ensures (IsHex(start) || |all| <= |popped + [id] + rest|) && (IsHex(current) || |incoming[1..]| <= |rest|)
      ensures Place(mapping, all, popped + [id] + rest, start) ==
              Place(updated[id := Some(incoming[0])], incoming[1..], rest, current)
    {
      hide Place, IsOrder;
      OrderCons(id, rest, free - {id});
      assert free - {id} + {id} == free;
      PlacePops(updated, incoming, [id] + rest, current);
      assert popped + ([id] + rest) == popped + [id] + rest;
      assert ([id] + rest)[1..] == rest;
    }
  }

  lemma PlaceInNewSlot(mapping: Mapping, all: seq<Member>, popped: seq<CoreId>, start: CoreId,
                       updated: Mapping, incoming: seq<Member>, current: CoreId)
    requires PlacementSoFar(mapping, all, popped, start, updated, incoming, {}, current) && incoming != []
    requires IsHex(current)
    ensures var next := NextCoreId(current);
            PlacementSoFar(mapping, all, popped, start, updated[next := Some(incoming[0])], incoming[1..], {}, next)
  {
    hide NextCoreId;
    forall rest: seq<CoreId> | IsOrder(rest, {})
      ensures rest == []
    {
      DistinctSize(rest);
    }
    PlacePops(updated, incoming, [], current);
  }

  /** Step 2. The cleared ids are popped in an arbitrary order, returned as `pops`. It raises when
      a new id is to be made after one that is no hexadecimal numeral. */
  method PlaceNewcomers(mapping: Mapping, members: seq<Member>, active: set<string>, cleared: set<CoreId>,
                        start: CoreId)
    returns (ok: bool, updated: Mapping, ghost pops: seq<CoreId>)
    ensures IsOrder(pops, cleared)
    ensures ok <==> IsHex(start) || |Newcomers(members, active)| <= |pops|
    ensures ok ==> updated == Place(mapping, Newcomers(members, active), pops, start)
  {
    hide NextCoreId, Place, PlacementSoFar, IsOrder, IsHex;
    updated := mapping;
    var current, free := start, cleared;
    ghost var popped: seq<CoreId> := [];
    ghost var all := Newcomers(members, active);
    ghost var fine := IsHex(start) || |all| <= |cleared|;
    assert members[0..] == members;
    if fine {
      PlacementStarts(mapping, all, cleared, start);
    }
    OrderOne("");
    assert cleared - free == {};
    for i := 0 to |members|
      invariant IsHex(current) <==> IsHex(start)
      invariant free <= cleared && IsOrder(popped, cleared - free)
      invariant fine ==>
                  PlacementSoFar(mapping, all, popped, start, updated, Newcomers(members[i..], active), free, current)
      invariant !IsHex(start) ==> |popped| + |Newcomers(members[i..], active)| == |all|
    {
      assert members[i..][1..] == members[i + 1..];
      ghost var incoming, later := Newcomers(members[i..], active), Newcomers(members[i + 1..], active);
      assert incoming == (if members[i].id in active then [] else [members[i]]) + later;
      if members[i].id in active {
        assert incoming == later;
      } else {
        assert incoming[1..] == later;
        if free != {} {
          var id :| id in free;
          if fine {
            PlaceInFreeSlot(mapping, all, popped, start, updated, incoming, free, current, id);
          }
          OrderOne(id);
          OrderConcat(popped, cleared - free, [id], {id});
          assert cleared - free + {id} == cleared - (free - {id});
          updated := updated[id := Some(members[i])];
          free := free - {id};
          popped := popped + [id];
        } else {
          if !IsHex(current) {
            assert cleared - free == cleared;
            return false, updated, popped;
          }
          if fine {
            PlaceInNewSlot(mapping, all, popped, start, updated, incoming, current);
          }
          current := NextCoreId(current);
          updated := updated[current := Some(members[i])];
        }
      }
    }
    OrderExists(free);
    ghost var rest :| IsOrder(rest, free);
    pops := popped + rest;
    OrderConcat(popped, cleared - free, rest, free);
    assert cleared == (cleared - free) + free;
    OrderSize(pops, cleared);
    ok := true;
    PlacementEnds(mapping, all, popped, start, updated, free, current, rest);
  }

  lemma OrderSize<T>(order: seq<T>, s: set<T>)
    requires IsOrder(order, s)
    ensures |order| == |s|
  {
    DistinctSize(order);
  }

  lemma PlacementStarts(mapping: Mapping, all: seq<Member>, cleared: set<CoreId>, start: CoreId)
    requires IsHex(start) || |all| <= |cleared|
    ensures PlacementSoFar(mapping, all, [], start, mapping, all, cleared, start)
  {
    forall rest | IsOrder(rest, cleared)
      ensures [] + rest == rest && |rest| == |cleared|
    {
      OrderSize(rest, cleared);
    }
  }

  lemma PlacementEnds(mapping: Mapping, all: seq<Member>, popped: seq<CoreId>, start: CoreId,
                      updated: Mapping, free: set<CoreId>, current: CoreId, rest: seq<CoreId>)
    requires PlacementSoFar(mapping, all, popped, start, updated, [], free, current) && IsOrder(rest, free)
    ensures IsHex(start) || |all| <= |popped + rest|
    ensures Place(mapping, all, popped + rest, start) == updated
  {
  }

  lemma OrderOne<T>(x: T)
    ensures IsOrder([x], {x}) && IsOrder<T>([], {})
  {
  }

  lemma OrderCons<T>(x: T, rest: seq<T>, s: set<T>)
    requires x !in s && IsOrder(rest, s)
    ensures IsOrder([x] + rest, s + {x})
  {
    OrderConcat([x], {x}, rest, s);
  }

  lemma OrderConcat<T>(a: seq<T>, s: set<T>, b: seq<T>, t: set<T>)
    requires IsOrder(a, s) && IsOrder(b, t) && s !! t
    ensures IsOrder(a + b, s + t)
  {
    assert forall i :: 0 <= i < |a| ==> a[i] in Elements(a);
    assert forall i :: 0 <= i < |b| ==> b[i] in Elements(b);
    assert Elements(a + b) == Elements(a) + Elements(b);
  }

  // ------------------------------------------------------------- steps 3 to 5

  /** `_get_core_data_id_from_instance`. */
  method FindSlot(m: Mapping, member: string) returns (r: Option<CoreId>)
    ensures IsLookup(m, member, r)
  {
    var rest := m.Keys;
    while rest != {}
      invariant rest <= m.Keys
      invariant forall k :: k in m && k !in rest ==> !Holds(m, k, member)
      decreases rest
    {
      var k :| k in rest;
      if m[k].Some? && m[k].value.id == member {
        return Some(k);
      }
      rest := rest - {k};
    }
    r := None;
  }

  method WriteAssignments(consul: Consul, after: Mapping, newIds: set<string>)
    returns (ghost puts: seq<Write>, ghost order: seq<string>)
    modifies consul
    ensures IsOrder(order, newIds) && PutsFor(puts, order, after)
    ensures consul.store == ApplyAll(old(consul.store), puts) && consul.log == old(consul.log) + puts
  {
    hide IsOrder, ApplyAll, Apply, IsLookup;
    var rest := newIds;
    puts, order := [], [];
    NoWrites(consul.store);
    OrderOne("");
    assert newIds - rest == {};
    while rest != {}
      invariant rest <= newIds && IsOrder(order, newIds - rest) && PutsFor(puts, order, after)
      invariant consul.store == ApplyAll(old(consul.store), puts) && consul.log == old(consul.log) + puts
      decreases rest
    {
      var x :| x in rest;
      var slot := FindSlot(after, x);
      ApplySnoc(old(consul.store), puts, PutAssignment(x, slot));
      consul.Write(PutAssignment(x, slot));
      OrderOne(x);
      OrderConcat(order, newIds - rest, [x], {x});
      assert newIds - rest + {x} == newIds - (rest - {x});
      rest := rest - {x};
      puts, order := puts + [PutAssignment(x, slot)], order + [x];
    }
    assert newIds - rest == newIds;
  }

  method RemoveDeparted(consul: Consul, gone: set<string>) returns (ghost order: seq<string>)
    modifies consul
    ensures IsOrder(order, gone)
    ensures consul.store == ApplyAll(old(consul.store), Drops(order)) && consul.log == old(consul.log) + Drops(order)
  {
    hide IsOrder, ApplyAll, Apply;
    var rest := gone;
    order := [];
    NoWrites(consul.store);
    OrderOne("");
    assert gone - rest == {};
    while rest != {}
      invariant rest <= gone && IsOrder(order, gone - rest)
      invariant consul.store == ApplyAll(old(consul.store), Drops(order))
      invariant consul.log == old(consul.log) + Drops(order)
      decreases rest
    {
      var x :| x in rest;
      ghost var ws := Drops(order);
      ApplySnoc(old(consul.store), ws, DropAssignments(x));
      ApplySnoc(old(consul.store), ws + [DropAssignments(x)], DropMembership(x));
      consul.Write(DropAssignments(x));
      consul.Write(DropMembership(x));
      assert ws + [DropAssignments(x)] + [DropMembership(x)] == Drops(order + [x]) by {
        assert (order + [x])[..|order|] == order;
      }
      OrderOne(x);
      OrderConcat(order, gone - rest, [x], {x});
      assert gone - rest + {x} == gone - (rest - {x});
      rest := rest - {x};
      order := order + [x];
    }
    assert gone - rest == gone;
  }

  /** Steps 3 to 5. */
  method Publish(consul: Consul, after: Mapping, newIds: set<string>, gone: set<string>) returns (ghost sched: Schedule)
    modifies consul
    ensures sched.after == after && IsOrder(sched.newOrder, newIds) && PutsFor(sched.puts, sched.newOrder, after)
    ensures IsOrder(sched.goneOrder, gone)
    ensures consul.store == ApplyAll(old(consul.store), sched.Writes())
    ensures consul.log == old(consul.log) + sched.Writes()
  {
    hide IsOrder, ApplyAll, Apply, PutsFor, Drops;
    ghost var s0 := consul.store;
    consul.Write(PutMapping(after));
    NoWrites(s0);
    ApplySnoc(s0, [], PutMapping(after));
    assert [] + [PutMapping(after)] == [PutMapping(after)];
    ghost var puts, newOrder := WriteAssignments(consul, after, newIds);
    ghost var goneOrder := RemoveDeparted(consul, gone);
    sched := Schedule(after, puts, newOrder, goneOrder);
    ApplyAppend(s0, [PutMapping(after)], puts);
    ApplyAppend(s0, [PutMapping(after)] + puts, Drops(goneOrder));
  }

  /** The stored mapping is overwritten first, so it does not matter what it was. */
  lemma MappingOverwritten(s: Store, m: Option<Mapping>, sched: Schedule)
    ensures ApplyAll(s.(mapping := m), sched.Writes()) == ApplyAll(s, sched.Writes())
  {
    assert sched.Writes()[0] == PutMapping(sched.after);
  }

  class Leader {
    var members: Option<seq<Member>>
    var assignment: Mapping
    var timerArmed: bool

    constructor ()
      ensures members == Some([]) && assignment == map[] && !timerArmed
    {
      members, assignment, timerArmed := Some([]), map[], false;
    }

    /** A membership update: ignored while the state is temporal or nothing changed,
        otherwise the stored mapping is loaded and the soak timer restarted. */
    method TrackMembers(consul: Consul, listed: seq<Member>, number: Extractor, stamp: Extractor)
      returns (changed: bool, ghost current: Option<seq<Member>>)
      modifies this, consul
      ensures changed <==> !Temporal(old(consul.store), current) && current != old(members)
      ensures current.None? <==> listed == []
      ensures current.Some? && AllMatch(listed, number, stamp) ==> Latest(current.value, listed, number, stamp)
      ensures current.Some? && (!AllMatch(listed, number, stamp) || DistinctNumbers(listed, number)) ==>
                current.value == listed
      ensures Temporal(old(consul.store), current) || current == old(members) ==> unchanged(this) && unchanged(consul)
      ensures !Temporal(old(consul.store), current) && current != old(members) ==>
                && members == current && timerArmed
                && assignment == Current(old(consul.store))
                && consul.store == old(consul.store).(mapping := Some(assignment))
    {
      var updated := None;
      if listed != [] {
        var sane := Sanitize(listed, number, stamp);
        updated := Some(sane);
      }
      current := updated;
      changed := !Temporal(consul.store, updated) && updated != members;
      if changed {
        if consul.store.mapping.None? {
          consul.Write(PutMapping(map[]));
        }
        assignment := consul.store.mapping.value;
        members := updated;
        timerArmed := true;
      }
    }

    /** The soak timer fires. Without a member list, or when a new id is to be made after one that is
        no hexadecimal numeral, the handler raises before touching anything and the timer is restarted. */
    method ReassignCoreStores(consul: Consul)
      returns (ok: bool, ghost pops: seq<CoreId>, ghost sched: Schedule)
      modifies this, consul
      ensures members == old(members)
      ensures members.Some? ==> IsOrder(pops, Cleared(old(assignment), members.value))
      ensures ok <==> members.Some? && Startable(old(assignment), members.value, pops)
      ensures !ok ==> timerArmed && assignment == old(assignment) && unchanged(consul)
      ensures ok ==>
                && assignment == sched.after == Reassign(old(assignment), members.value, pops)
                && sched.Valid(old(assignment), members.value)
                && consul.store == ApplyAll(old(consul.store), sched.Writes())
                && consul.log == old(consul.log) + sched.Writes()
    {
      hide IsOrder, Place, Cleared, Retained, ActiveIds, InactiveIds, ApplyAll, Newcomers, Drops;
      pops, sched := [], Schedule(map[], [], [], []);
      if members.None? {
        timerArmed := true;
        return false, pops, sched;
      }
      timerArmed := false;
      var list := members.value;
      var updated, active, cleared, inactive := ClearDeparted(assignment, list);
      var start := "0000";
      if assignment != map[] {
        start := MaxKey(assignment.Keys);
      }
      var placed;
      placed, updated, pops := PlaceNewcomers(updated, list, active, cleared, start);
      if !placed {
        timerArmed := true;
        return false, pops, sched;
      }
      assignment := updated;
      sched := Publish(consul, assignment, (set m | m in list :: m.id) - active, inactive);
      ok := true;
    }

    /** A membership update followed, undisturbed, by its soak timer: a new member list makes one step
        of the cluster's runs, or raises after at most creating the mapping; anything else leaves the
        store alone but for that. */
    method Update(consul: Consul, listed: seq<Member>, number: Extractor, stamp: Extractor)
      returns (ok: bool, ghost current: Option<seq<Member>>, ghost pops: seq<CoreId>, ghost sched: Schedule)
      modifies this, consul
      ensures current.None? <==> listed == []
      ensures current.Some? && AllMatch(listed, number, stamp) ==> Latest(current.value, listed, number, stamp)
      ensures current.Some? && (!AllMatch(listed, number, stamp) || DistinctNumbers(listed, number)) ==>
                current.value == listed
      ensures ok && current.Some? && current != old(members) ==>
                Step(old(consul.store), Event(current.value, pops, sched), consul.store)
      ensures !ok || current.None? || current == old(members) ==>
                consul.store == old(consul.store) ||
                consul.store == old(consul.store).(mapping := Some(Current(old(consul.store))))
      ensures !ok && current.Some? ==> IsOrder(pops, Cleared(Current(old(consul.store)), current.value))
      ensures !ok && current.Some? ==> !Startable(Current(old(consul.store)), current.value, pops)
    {
      hide IsOrder, ApplyAll, Startable, Latest, AllMatch, DistinctNumbers, Reassign;
      ok, pops, sched := true, [], Schedule(map[], [], [], []);
      ghost var before := consul.store;
      var changed;
      changed, current := TrackMembers(consul, listed, number, stamp);
      if changed {
        ok, pops, sched := ReassignCoreStores(consul);
        MappingOverwritten(before, Some(Current(before)), sched);
      }
    }
  }
}
