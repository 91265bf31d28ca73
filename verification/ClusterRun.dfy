/** Whole runs of a leader whose handlers are atomic: which records a reassignment
    leaves behind, and the shape of the mapping after any number of membership
    changes that pass the temporal-state gate (voltha/leader.py). */
module ClusterRun {
  import opened Collections
  import opened Strings
  import opened CoreIds
  import opened Reassignment
  import opened LeaderStore

  // ------------------------------------------------- records of current members

  ghost predicate Recorded(s: Store, m: Mapping, x: Member) {
    exists k :: k in m && m[k] == Some(x) && HasRecord(s, x.id, k)
  }

  predicate HasRecord(s: Store, member: string, id: CoreId) {
    AssignmentKey(member) in s.records && s.records[AssignmentKey(member)] == Some(id)
  }

  ghost predicate KeptRecorded(s: Store, prev: Mapping, members: seq<Member>) {
    forall k :: k in Kept(prev, members) ==> HasRecord(s, prev[k].value.id, k)
  }

  ghost predicate SlashFree(ids: set<string>) { forall x :: x in ids ==> NoSlash(x) }

  lemma MemberRecordSurvives(s: Store, prev: Mapping, members: seq<Member>, pops: seq<CoreId>, sched: Schedule,
                             m: Member)
    requires ValidInput(prev, members, pops) && sched.Valid(prev, members)
    requires sched.after == Reassign(prev, members, pops)
    requires KeptRecorded(s, prev, members) && SlashFree(InactiveIds(prev, members))
    requires m in members
    ensures Recorded(ApplyAll(s, sched.Writes()), sched.after, m) <==>
            forall x :: x in InactiveIds(prev, members) ==> !(x <= m.id)
  {
    hide Reassign, Injective, IsOrder, AssignmentKey, Value, ApplyAll, Schedule.Writes, Cleared;
    var r := ApplyAll(s, sched.Writes());
    var gone := InactiveIds(prev, members);
    AfterSchedule(s, prev, members, sched);
    SurvivalByPrefix(gone, m.id);
    EveryMemberPlaced(prev, members, pops, m);
    SlotsSurvive(prev, members, pops);
    ReassignInjective(prev, members, pops);
    var k :| k in sched.after && sched.after[k] == Some(m);
    if m.id in ActiveIds(prev, members) {
      var j :| j in prev && Active(prev[j], members) && prev[j].value.id == m.id;
      assert j in Kept(prev, members) && HasRecord(s, m.id, j);
      OtherKeys(NewIds(prev, members), m.id);
      assert sched.after[j] == prev[j];
      SameSlot(sched.after, j, k);
    } else {
      assert m.id in NewIds(prev, members);
      if Survives(gone, AssignmentKey(m.id)) {
        var id := r.records[AssignmentKey(m.id)];
        assert Holds(sched.after, k, m.id);
        assert id.Some?;
        SameSlot(sched.after, id.value, k);
      }
    }
  }

  lemma SameSlot(m: Mapping, a: CoreId, b: CoreId)
    requires Injective(m) && a in m && b in m && m[a].Some? && m[b].Some? && m[a].value.id == m[b].value.id
    ensures a == b
  {
  }

  lemma OtherKeys(ids: set<string>, x: string)
    requires x !in ids
    ensures forall y :: y in ids ==> AssignmentKey(x) != AssignmentKey(y)
  {
    forall y | y in ids
      ensures AssignmentKey(x) != AssignmentKey(y)
    {
      if AssignmentKey(x) == AssignmentKey(y) {
        KeyInjective(x, y);
      }
    }
  }

  lemma SurvivalByPrefix(gone: set<string>, member: string)
    requires SlashFree(gone)
    ensures Survives(gone, AssignmentKey(member)) <==> forall x :: x in gone ==> !(x <= member)
  {
    forall x | x in gone
      ensures ASSIGNMENT_PREFIX + x <= AssignmentKey(member) <==> x <= member
    {
      PrefixOfKey(x, member);
    }
  }

  /** All current members end with their own record exactly when no cleared
      member's id is a prefix of a current member's id (itself included, which is
      the case of a member coming back under another host). */
  lemma RecordsSurviveIff(s: Store, prev: Mapping, members: seq<Member>, pops: seq<CoreId>, sched: Schedule)
    requires ValidInput(prev, members, pops) && sched.Valid(prev, members)
    requires sched.after == Reassign(prev, members, pops)
    requires KeptRecorded(s, prev, members) && SlashFree(InactiveIds(prev, members))
    ensures (forall m :: m in members ==> Recorded(ApplyAll(s, sched.Writes()), sched.after, m)) <==>
            (forall x, m :: x in InactiveIds(prev, members) && m in members ==> !(x <= m.id))
  {
    hide Reassign, Injective, IsOrder, AssignmentKey, Value, ApplyAll, Schedule.Writes, Schedule.Valid, Recorded;
    forall m | m in members
      ensures Recorded(ApplyAll(s, sched.Writes()), sched.after, m) <==>
              forall x :: x in InactiveIds(prev, members) ==> !(x <= m.id)
    {
      MemberRecordSurvives(s, prev, members, pops, sched, m);
    }
  }

  const V1 := Member("v1", "h")
  const V10 := Member("v10", "h")

  ghost function TwoMembers(): Mapping { map[Format(1) := Some(V1), Format(2) := Some(V10)] }

  lemma OneLeaves()
    ensures var prev := TwoMembers();
            && ValidInput(prev, [V10], [Format(1)]) && Kept(prev, [V10]) == {Format(2)}
            && InactiveIds(prev, [V10]) == {"v1"} && NewIds(prev, [V10]) == {}
  {
    hide Format, Value, Startable, NoCollision;
    var prev := TwoMembers();
    FormatRoundTrip(1);
    FormatRoundTrip(2);
    assert Cleared(prev, [V10]) == {Format(1)} && V1 !in [V10] && V10 in [V10];
    assert Active(prev[Format(2)], [V10]) && "v10" in ActiveIds(prev, [V10]);
    assert "v1" in InactiveIds(prev, [V10]);
    FourDigitsAreValid(prev, [V10], [Format(1)]);
  }

  lemma SecondSlot()
    ensures Format(2) in TwoMembers() && TwoMembers()[Format(2)] == Some(V10)
  {
  }

  lemma NothingNew(sched: Schedule, prev: Mapping, members: seq<Member>)
    requires NewIds(prev, members) == {} && InactiveIds(prev, members) == {"v1"}
    requires sched.puts == [] && sched.newOrder == [] && sched.goneOrder == ["v1"]
    ensures sched.Valid(prev, members)
  {
    hide NewIds, InactiveIds;
  }

  /** Two members, of which the one with the shorter id leaves: the deletion of its records takes
      away the record of the other, which keeps its slot. */
  lemma PrefixTakesRecord(s: Store)
    requires HasRecord(s, "v10", Format(2))
    ensures Startable(TwoMembers(), [V10], [Format(1)])
    ensures var after := Reassign(TwoMembers(), [V10], [Format(1)]);
            var sched := Schedule(after, [], [], ["v1"]);
            && sched.Valid(TwoMembers(), [V10])
            && Format(2) in after && after[Format(2)] == Some(V10)
            && AssignmentKey("v10") !in ApplyAll(s, sched.Writes()).records
  {
    hide Format, Reassign, AssignmentKey, ApplyAll, Schedule.Writes, Cleared, InactiveIds, NewIds, ActiveIds,
         TwoMembers, Injective, NoCollision, Startable;
    var prev, members, pops := TwoMembers(), [V10], [Format(1)];
    OneLeaves();
    var sched := Schedule(Reassign(prev, members, pops), [], [], ["v1"]);
    SlotsSurvive(prev, members, pops);
    assert Format(2) in Kept(prev, members);
    assert sched.Valid(prev, members) by {
      NothingNew(sched, prev, members);
    }
    AfterSchedule(s, prev, members, sched);
    SurvivalByPrefix({"v1"}, "v10");
    assert "v1" == "v10"[..2];
    assert prev[Format(2)] == Some(V10) by {
      SecondSlot();
    }
  }

  /** A member that is in the stored mapping but has no record (a leader stopped
      between the two writes) gets none from any later reassignment that keeps it. */
  lemma LostRecordStaysLost(s: Store, prev: Mapping, members: seq<Member>, sched: Schedule, m: Member)
    requires sched.Valid(prev, members)
    requires m.id in ActiveIds(prev, members) && AssignmentKey(m.id) !in s.records
    ensures AssignmentKey(m.id) !in ApplyAll(s, sched.Writes()).records
  {
    hide AssignmentKey, ApplyAll, Schedule.Writes, Schedule.Valid;
    AfterSchedule(s, prev, members, sched);
    OtherKeys(NewIds(prev, members), m.id);
  }

  // ------------------------------------------------------------ shape of the ids

  function IdsUpTo(n: nat): set<CoreId> { set i | 1 <= i <= n :: Format(i) }

  lemma {:induction false} IdsUpToSize(n: nat)
    ensures |IdsUpTo(n)| == n
  {
    if n > 0 {
      IdsUpToSize(n - 1);
      forall i | 1 <= i <= n - 1
        ensures Format(i) != Format(n)
      {
        FormatRoundTrip(i);
        FormatRoundTrip(n);
      }
      assert IdsUpTo(n) == IdsUpTo(n - 1) + {Format(n)};
    }
  }

  /** The reserved broadcast id is handed out exactly from 0xffff members on. */
  lemma BroadcastIdReached(n: nat)
    ensures BROADCAST_CORE_ID in IdsUpTo(n) <==> 0xffff <= n
  {
    FourDigitIsFormat(BROADCAST_CORE_ID);
    assert BROADCAST_CORE_ID[..3] == "fff" && "fff"[..2] == "ff" && "ff"[..1] == "f" && "f"[..0] == "";
    assert Number(BROADCAST_CORE_ID) == 0xffff;
    forall i | 1 <= i <= n
      ensures Format(i) == BROADCAST_CORE_ID ==> i == 0xffff
    {
      FormatRoundTrip(i);
    }
  }

  lemma IdsAreFourDigit(n: nat)
    requires n <= 0xffff
    ensures forall k :: k in IdsUpTo(n) ==> FourDigit(k) && 1 <= Number(k) <= n
  {
    forall i | 1 <= i <= n
      ensures FourDigit(Format(i)) && Number(Format(i)) == i
    {
      FormatRoundTrip(i);
    }
  }

  /** The string maximum of 0001..n is the rendering of n. */
  lemma StartIsTop(m: Mapping, n: nat)
    requires n <= 0xffff && m.Keys == IdsUpTo(n)
    ensures HexKeys(m) && AllFourDigit(m) && Number(StartId(m)) == n && Top(m) == n
  {
    IdsAreFourDigit(n);
    if n == 0 {
      assert m == map[];
      assert "0000"[..3] == "000" && "000"[..2] == "00" && "00"[..1] == "0" && "0"[..0] == "";
    } else {
      FormatRoundTrip(n);
      assert Format(n) in m.Keys;
      MaxIsNumericMax(MaxId(m.Keys), m.Keys);
    }
  }

  // ------------------------------------------------------------------- whole runs

  function Current(s: Store): Mapping {
    if s.mapping.Some? then s.mapping.value else map[]
  }

  /** One record per occupied slot and no other. */
  ghost predicate RecordsExact(s: Store, m: Mapping) {
    && (forall k :: k in m && m[k].Some? ==> HasRecord(s, m[k].value.id, k))
    && (forall key :: key in s.records ==> exists k :: k in m && m[k].Some? && key == AssignmentKey(m[k].value.id))
  }

  /** The ids are exactly 0001..n, all occupied, by n different members, and the
      assignment records say the same. */
  ghost predicate Shape(s: Store, n: nat, universe: set<Member>) {
    var m := Current(s);
    && m.Keys == IdsUpTo(n)
    && Full(m) && Injective(m)
    && RecordsExact(s, m)
    && (forall k :: k in m && m[k].Some? ==> m[k].value in universe)
  }

  /** Ids contain no slash, none is a prefix of another, and an id determines its host. */
  ghost predicate Proper(universe: set<Member>) {
    forall a, b :: a in universe && b in universe ==> NoSlash(a.id) && (a.id <= b.id ==> a == b)
  }

  /** `_is_temporal_state`: fewer members than assignment records. */
  predicate Temporal(s: Store, members: Option<seq<Member>>) {
    s.records != map[] && (members.None? || |members.value| < |s.records|)
  }

  datatype Event = Event(members: seq<Member>, pops: seq<CoreId>, sched: Schedule)

  ghost predicate Reassigns(s: Store, e: Event, s': Store) {
    var prev := Current(s);
    && IsOrder(e.pops, Cleared(prev, e.members)) && Startable(prev, e.members, e.pops)
    && e.sched.after == Reassign(prev, e.members, e.pops)
    && e.sched.Valid(prev, e.members)
    && s' == ApplyAll(s, e.sched.Writes())
  }

  /** A membership change either waits at the gate or reassigns. */
  ghost predicate Step(s: Store, e: Event, s': Store) {
    if Temporal(s, Some(e.members)) then s' == s else Reassigns(s, e, s')
  }

  ghost predicate Listed(members: seq<Member>, universe: set<Member>) {
    DistinctIds(members) && |members| <= 0xffff && forall m :: m in members ==> m in universe
  }

  lemma RecordCount(s: Store, m: Mapping)
    requires Full(m) && Injective(m) && RecordsExact(s, m)
    ensures |s.records| == |m|
  {
    hide AssignmentKey;
    var key := k => if k in m && m[k].Some? then AssignmentKey(m[k].value.id) else "";
    forall a, b | a in m && b in m && key(a) == key(b)
      ensures a == b
    {
      KeyInjective(m[a].value.id, m[b].value.id);
    }
    ImageSize(m.Keys, key, s.records.Keys);
  }

  lemma SlotsExtend(pops: seq<CoreId>, n: nat, count: nat)
    requires |pops| <= count && Elements(pops) <= IdsUpTo(n)
    ensures IdsUpTo(n) + Elements(Slots(pops, n, count)) == IdsUpTo(n + count - |pops|)
  {
    hide Format;
    var s := Slots(pops, n, count);
    forall k | k in IdsUpTo(n + count - |pops|)
      ensures k in IdsUpTo(n) + Elements(s)
    {
      var i :| 1 <= i <= n + count - |pops| && Format(i) == k;
      if n < i {
        assert s[i - n - 1 + |pops|] == k;
      }
    }
    forall j | 0 <= j < count
      ensures s[j] in IdsUpTo(n + count - |pops|)
    {
      if j < |pops| {
        assert pops[j] in Elements(pops);
      }
    }
  }

  lemma GateOpens(s: Store, n: nat, universe: set<Member>, members: seq<Member>)
    requires Shape(s, n, universe) && !Temporal(s, Some(members))
    ensures |Current(s)| == n <= |members|
  {
    RecordCount(s, Current(s));
    IdsUpToSize(n);
  }

  lemma ShapeOfIds(prev: Mapping, n: nat, members: seq<Member>, pops: seq<CoreId>)
    requires prev.Keys == IdsUpTo(n) && n <= |members| <= 0xffff
    requires ValidInput(prev, members, pops)
    ensures Reassign(prev, members, pops).Keys == IdsUpTo(|members|)
    ensures Full(Reassign(prev, members, pops))
  {
    hide *;
    assert |prev| == n by {
      IdsUpToSize(n);
    }
    ReassignSize(prev, members, pops);
    SlotCounts(prev, members, pops);
    StartIsTop(prev, n);
    var count := |Newcomers(members, ActiveIds(prev, members))|;
    KeysAfter(prev, members, pops);
    PopsAreCleared(prev, members, pops);
    SlotsExtend(pops, n, count);
  }

  lemma PopsAreCleared(prev: Mapping, members: seq<Member>, pops: seq<CoreId>)
    requires ValidInput(prev, members, pops)
    ensures Elements(pops) == Cleared(prev, members) <= prev.Keys
  {
  }

  lemma NoPrefixClash(prev: Mapping, members: seq<Member>, universe: set<Member>)
    requires Proper(universe)
    requires forall k :: k in prev && prev[k].Some? ==> prev[k].value in universe
    requires forall m :: m in members ==> m in universe
    ensures SlashFree(InactiveIds(prev, members))
    ensures forall x, m :: x in InactiveIds(prev, members) && m in members ==> !(x <= m.id)
  {
    forall x | x in InactiveIds(prev, members)
      ensures NoSlash(x) && forall m :: m in members ==> !(x <= m.id)
    {
      var k :| k in prev && !Active(prev[k], members) && prev[k].Some? && prev[k].value.id == x;
      assert prev[k].value in universe;
    }
  }

  lemma RecordsStayExact(s: Store, e: Event, s': Store, universe: set<Member>)
    requires Reassigns(s, e, s') && RecordsExact(s, Current(s)) && Proper(universe)
    requires ValidInput(Current(s), e.members, e.pops)
    requires forall k :: k in Current(s) && Current(s)[k].Some? ==> Current(s)[k].value in universe
    requires forall m :: m in e.members ==> m in universe
    ensures s'.mapping == Some(e.sched.after) && RecordsExact(s', e.sched.after)
  {
    hide Reassign, Injective, AssignmentKey, Value, ApplyAll, Schedule.Writes, Schedule.Valid, IsOrder;
    var prev, after := Current(s), e.sched.after;
    NoPrefixClash(prev, e.members, universe);
    RecordsSurviveIff(s, prev, e.members, e.pops, e.sched);
    AfterSchedule(s, prev, e.members, e.sched);
    OnlyMembersPlaced(prev, e.members, e.pops);
    ReassignInjective(prev, e.members, e.pops);
    SlotsSurvive(prev, e.members, e.pops);
    forall k | k in after && after[k].Some?
      ensures HasRecord(s', after[k].value.id, k)
    {
      assert Recorded(s', after, after[k].value);
      var j :| j in after && after[j] == after[k] && HasRecord(s', after[k].value.id, j);
      SameSlot(after, j, k);
    }
    forall key | key in s'.records
      ensures exists k :: k in after && after[k].Some? && key == AssignmentKey(after[k].value.id)
    {
      OldOrNewKey(s, e, s', key);
    }
  }

  lemma OwnKey(x: string)
    ensures ASSIGNMENT_PREFIX + x <= AssignmentKey(x)
  {
  }

  lemma OldOrNewKey(s: Store, e: Event, s': Store, key: string)
    requires Reassigns(s, e, s') && RecordsExact(s, Current(s))
    requires ValidInput(Current(s), e.members, e.pops)
    requires key in s'.records
    ensures exists k :: k in e.sched.after && e.sched.after[k].Some? && key == AssignmentKey(e.sched.after[k].value.id)
  {
    hide Reassign, Injective, Value, ApplyAll, Schedule.Writes, Schedule.Valid, IsOrder, AssignmentKey;
    var prev, after := Current(s), e.sched.after;
    AfterSchedule(s, prev, e.members, e.sched);
    if x :| x in NewIds(prev, e.members) && key == AssignmentKey(x) {
      var m :| m in e.members && m.id == x;
      EveryMemberPlaced(prev, e.members, e.pops, m);
    } else {
      var k :| k in prev && prev[k].Some? && key == AssignmentKey(prev[k].value.id);
      SlotsSurvive(prev, e.members, e.pops);
      var x := prev[k].value.id;
      OwnKey(x);
      assert x !in InactiveIds(prev, e.members);
      assert Active(prev[k], e.members);
    }
  }

  /** Every step keeps the shape; one that passes the gate leaves exactly the listed members. */
  lemma ShapeStep(s: Store, e: Event, s': Store, n: nat, universe: set<Member>)
    requires Shape(s, n, universe) && n <= 0xffff && Proper(universe)
    requires Listed(e.members, universe) && Step(s, e, s')
    ensures if Temporal(s, Some(e.members)) then Shape(s', n, universe)
            else Shape(s', |e.members|, universe) && forall m :: m in e.members <==>
              exists k :: k in Current(s') && Current(s')[k] == Some(m)
  {
    hide Reassign, Value, ApplyAll, Schedule.Writes, Schedule.Valid, Injective, IsOrder, ValidInput, Startable, Top;
    if !Temporal(s, Some(e.members)) {
      var prev := Current(s);
      GateOpens(s, n, universe, e.members);
      StartIsTop(prev, n);
      FourDigitsAreValid(prev, e.members, e.pops);
      ShapeOfIds(prev, n, e.members, e.pops);
      RecordsStayExact(s, e, s', universe);
      ReassignIsExact(prev, e.members, e.pops);
    }
  }

  lemma EmptyShape(universe: set<Member>)
    ensures Shape(Store(None, map[], map[]), 0, universe)
  {
  }

  ghost predicate Run(stores: seq<Store>, events: seq<Event>, universe: set<Member>) {
    && |stores| == |events| + 1
    && stores[0] == Store(None, map[], map[])
    && forall i :: 0 <= i < |events| ==>
         Listed(events[i].members, universe) && Step(stores[i], events[i], stores[i + 1])
  }

  /** After any run from an empty store the ids in use are 0001..n, without gaps or empty slots. */
  lemma {:induction false} ShapeOverRuns(stores: seq<Store>, events: seq<Event>, universe: set<Member>)
    requires Run(stores, events, universe) && Proper(universe)
    ensures exists n :: 0 <= n <= 0xffff && Shape(stores[|events|], n, universe)
    decreases |events|
  {
    hide Step, Proper, Shape, DistinctIds;
    if events == [] {
      EmptyShape(universe);
    } else {
      var last := |events| - 1;
      ShapeOverRuns(stores[..|events|], events[..last], universe);
      var n :| 0 <= n <= 0xffff && Shape(stores[last], n, universe);
      ShapeStep(stores[last], events[last], stores[last + 1], n, universe);
      var n' := if Temporal(stores[last], Some(events[last].members)) then n else |events[last].members|;
      assert Shape(stores[|events|], n', universe);
    }
  }

  // -------------------------------------------------- beyond four hexadecimal digits

  lemma IdsAreHex(n: nat)
    ensures forall k :: k in IdsUpTo(n) ==> IsHex(k)
  {
  }

  /** The string maximum of 0001..n when n has more than four digits. */
  lemma StartBeyond(m: Mapping, n: nat)
    requires n > 0xffff && m.Keys == IdsUpTo(n)
    ensures HexKeys(m) && |Hex(n)| > 1
    ensures StartId(m) == if Leads(n) then Format(n) else AllF(|Hex(n)| - 1)
  {
    hide Format, Less, Hex, Leads, Pow16;
    IdsAreHex(n);
    var d := LongHex(n);
    var best := if Leads(n) then Format(n) else AllF(d);
    AllFInUse(n, d);
    assert Format(n) in m.Keys;
    var top := MaxId(m.Keys);
    var i :| 1 <= i <= n && Format(i) == top;
    if Leads(n) {
      LeaderSortsLast(n, i);
    } else {
      ShorterSortsLast(n, d, i);
    }
    LessTotal(top, best);
  }

  lemma AllFInUse(n: nat, d: nat)
    requires d >= 4 && Pow16(d) <= n
    ensures AllF(d) in IdsUpTo(n)
  {
    FourDigitsOrMore(d);
    FormatWidth(Pow16(d) - 1);
    assert Format(Pow16(d) - 1) == AllF(d);
  }

  /** With ids 0001..n in use, the next id is unused exactly when n has at most four digits or
      all its digits but the last are f; otherwise string `max` stays behind. */
  lemma NextIdFreshIff(m: Mapping, n: nat)
    requires 1 <= n && m.Keys == IdsUpTo(n)
    ensures HexKeys(m) && (NextCoreId(StartId(m)) !in m <==> Leads(n))
  {
    hide Format, Value, Hex, Pow16;
    if n <= 0xffff {
      StartIsTop(m, n);
      NextIsUnused(n);
    } else {
      StartBeyond(m, n);
      if Leads(n) {
        FormatRoundTrip(n);
        NextIsUnused(n);
      } else {
        var d := LongHex(n);
        AllFIs(d);
        assert NextCoreId(StartId(m)) == Format(Pow16(d));
      }
    }
  }

  lemma NextIsUnused(n: nat)
    ensures Format(n + 1) !in IdsUpTo(n)
  {
    forall i | 1 <= i <= n
      ensures Format(i) != Format(n + 1)
    {
      FormatRoundTrip(i);
      FormatRoundTrip(n + 1);
    }
  }

  /** In the other cases one newcomer to a full cluster evicts a running member. */
  lemma OverflowEvicts(m: Mapping, n: nat, members: seq<Member>, x: Member)
    requires !Leads(n) && m.Keys == IdsUpTo(n) && Full(m) && Injective(m)
    requires Cleared(m, members) == {} && Newcomers(members, ActiveIds(m, members)) == [x]
    ensures HexKeys(m)
    ensures var after := Reassign(m, members, []);
            exists y :: y in members && y != x && forall k :: k in after ==> after[k] != Some(y)
  {
    hide Format, Value, Newcomers, StartId;
    NextIdFreshIff(m, n);
    var next := NextCoreId(StartId(m));
    var y := m[next].value;
    assert next !in Cleared(m, members);
    NewcomersExactly(members, ActiveIds(m, members));
    assert y != x by {
      assert x in [x];
    }
    OverwritesSlot(m, members, x, next);
  }

  lemma OverwritesSlot(m: Mapping, members: seq<Member>, x: Member, next: CoreId)
    requires HexKeys(m) && next == NextCoreId(StartId(m)) && Cleared(m, members) == {}
    requires Newcomers(members, ActiveIds(m, members)) == [x]
    ensures Reassign(m, members, []) == m[next := Some(x)]
  {
    hide Format, Value, StartId;
    assert Retained(m, members) == m by {
      assert forall k :: k in m ==> k !in Cleared(m, members);
    }
    var one := [x];
    assert one[1..] == [];
    assert Place(m, one, [], StartId(m)) == Place(m[next := Some(one[0])], one[1..], [], next);
  }
}
