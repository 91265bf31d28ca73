/** Leader, store and workers as one state machine in which a leader may stop
    between any two writes and a successor reloads the mapping
    (voltha/leader.py, voltha/worker.py). */
module CrashSafety {
  import opened Collections
  import opened CoreIds
  import opened Reassignment
  import opened LeaderStore
  import opened ClusterRun

  /** A process. `reading` is a reply on its way, `fired` what the one-shot deferred delivered. */
  datatype Worker = Worker(host: string, running: bool, reading: Option<CoreId>, coreId: Option<CoreId>,
                           timer: bool, fired: seq<CoreId>)

  /** The current leader: mapping in memory, member list, writes still to be sent. */
  datatype Leading = Leading(loaded: Option<Mapping>, members: seq<Member>, pending: seq<Write>)

  datatype State = State(store: Store, workers: map<string, Worker>, leader: Leading)

  datatype Action =
    | Start(id: string, host: string)
    | Stop(id: string)
    | Expire(id: string)
    | NewLeader
    | Track(list: seq<Member>)
    | Reassigning(pops: seq<CoreId>, sched: Schedule)
    | WriteNext
    | PollRead(id: string)
    | PollHandle(id: string)
    | Fire(id: string)

  ghost predicate Running(s: State, id: string) { id in s.workers && s.workers[id].running }

  ghost predicate Init(s: State) {
    s == State(Store(None, map[], map[]), map[], Leading(None, [], []))
  }

  ghost predicate Next(s: State, a: Action, s': State) {
    match a
    case Start(id, host) =>
      // ids carry the start time: never reused, none a prefix of another
      && id !in s.workers && NoSlash(id)
      && (forall w :: w in s.workers ==> !(w <= id) && !(id <= w))
      && s' == s.(workers := s.workers[id := Worker(host, true, None, None, false, [])],
                  store := s.store.(registered := s.store.registered[MembershipKey(id) := host]))
    case Stop(id) =>
      && Running(s, id)
      && s' == s.(workers := s.workers[id := s.workers[id].(running := false)])
    case Expire(id) =>
      // a session expires only once its process has stopped
      && id in s.workers && !Running(s, id)
      && s' == s.(store := s.store.(registered := s.store.registered - {MembershipKey(id)}))
    case NewLeader =>
      s' == s.(leader := Leading(None, [], []))
    case Track(list) =>
      && s.leader.pending == [] && DistinctIds(list) && |list| <= 0xffff
      && (forall m :: m in list ==> m.id in s.workers && s.workers[m.id].host == m.host)
      && (forall id :: Running(s, id) && IsRegistered(s, id) ==> Member(id, s.workers[id].host) in list)
      && s' == s.(store := s.store.(mapping := Some(Current(s.store))),
                  leader := Leading(Some(Current(s.store)), list, []))
    case Reassigning(pops, sched) =>
      && s.leader.pending == [] && s.leader.loaded.Some?
      && HexKeys(s.leader.loaded.value)
      && IsOrder(pops, Cleared(s.leader.loaded.value, s.leader.members))
      && sched.after == Reassign(s.leader.loaded.value, s.leader.members, pops)
      && sched.Valid(s.leader.loaded.value, s.leader.members)
      && s' == s.(leader := s.leader.(loaded := Some(sched.after), pending := sched.Writes()))
    case WriteNext =>
      && s.leader.pending != []
      && s' == s.(store := Apply(s.store, s.leader.pending[0]),
                  leader := s.leader.(pending := s.leader.pending[1..]))
    case PollRead(id) =>
      && Running(s, id) && s.workers[id].coreId.None?
      && AssignmentKey(id) in s.store.records
      && s' == s.(workers := s.workers[id := s.workers[id].(reading := s.store.records[AssignmentKey(id)])])
    case PollHandle(id) =>
      // an empty value is skipped; otherwise the id is latched and the soak timer armed
      && Running(s, id) && s.workers[id].coreId.None? && s.workers[id].reading.Some?
      && s' == s.(workers := s.workers[id := s.workers[id].(coreId := s.workers[id].reading, timer := true)])
    case Fire(id) =>
      && Running(s, id) && s.workers[id].timer && s.workers[id].coreId.Some?
      && var w := s.workers[id];
         s' == s.(workers := s.workers[id := w.(timer := false, fired := w.fired + [w.coreId.value])])
  }

  ghost predicate IsRegistered(s: State, id: string) {
    MembershipKey(id) in s.store.registered
  }

  // ---------------------------------------------------------------- invariants

  ghost predicate GoodMapping(m: Mapping, workers: map<string, Worker>) {
    && |m| <= 0xffff && m.Keys == IdsUpTo(|m|)
    && Injective(m)
    && forall k :: k in m && m[k].Some? ==> Known(m[k].value, workers)
  }

  predicate Known(m: Member, workers: map<string, Worker>) {
    m.id in workers && workers[m.id].host == m.host
  }

  /** What a process has been told, is being told, or could read. */
  ghost predicate Claims(s: State, id: string, c: CoreId) {
    id in s.workers &&
    (s.workers[id].coreId == Some(c) || s.workers[id].reading == Some(c) || HasRecord(s.store, id, c))
  }

  ghost predicate Owned(s: State, id: string, c: CoreId) {
    && Holds(Current(s.store), c, id)
    && (s.leader.loaded.Some? ==> Holds(s.leader.loaded.value, c, id))
  }

  ghost predicate OwnersInv(s: State) {
    forall id, c :: Running(s, id) && Claims(s, id, c) ==> Owned(s, id, c)
  }

  ghost predicate MappingsInv(s: State) {
    && GoodMapping(Current(s.store), s.workers)
    && (s.leader.loaded.Some? ==> GoodMapping(s.leader.loaded.value, s.workers))
  }

  ghost predicate RegisteredInv(s: State) {
    && (forall id :: id in s.workers ==> NoSlash(id))
    && (forall a, b :: a in s.workers && b in s.workers && a <= b ==> a == b)
    && (forall id :: Running(s, id) ==> IsRegistered(s, id))
    && (forall key :: key in s.store.records ==> exists id :: id in s.workers && key == AssignmentKey(id))
  }

  /** Every running member of the mapping is on the member list. */
  ghost predicate RunningListed(s: State, m: Mapping, members: seq<Member>) {
    forall k :: k in m && m[k].Some? && Running(s, m[k].value.id) ==> m[k].value in members
  }

  ghost predicate MembersInv(s: State) {
    && DistinctIds(s.leader.members) && |s.leader.members| <= 0xffff
    && (forall m :: m in s.leader.members ==> Known(m, s.workers))
    && (s.leader.loaded.Some? ==> RunningListed(s, s.leader.loaded.value, s.leader.members))
  }

  ghost predicate PendingWrite(s: State, w: Write) {
    && s.leader.loaded.Some?
    && match w
       case PutMapping(m) => m == s.leader.loaded.value
       case PutAssignment(x, r) => x in s.workers && IsLookup(s.leader.loaded.value, x, r)
       case DropAssignments(x) => x in s.workers && !Running(s, x)
       case DropMembership(x) => x in s.workers && !Running(s, x)
  }

  /** The mapping write is the first of a schedule; until it is done the old mapping is stored. */
  ghost predicate PendingInv(s: State) {
    && (forall w :: w in s.leader.pending ==> PendingWrite(s, w))
    && (forall i :: 0 < i < |s.leader.pending| ==> !s.leader.pending[i].PutMapping?)
    && (s.leader.loaded.Some? && !(s.leader.pending != [] && s.leader.pending[0].PutMapping?) ==>
          s.store.mapping == Some(s.leader.loaded.value))
  }

  /** The id is latched once and delivered at most once. */
  ghost predicate LatchInv(s: State) {
    forall id :: id in s.workers ==>
      var w := s.workers[id];
      if w.coreId.None? then !w.timer && w.fired == []
      else w.fired == (if w.timer then [] else [w.coreId.value])
  }

  ghost predicate Inv(s: State) {
    OwnersInv(s) && MappingsInv(s) && RegisteredInv(s) && MembersInv(s) && PendingInv(s) && LatchInv(s)
  }

  // ------------------------------------------------- steps that leave the mapping

  ghost predicate SameHosts(w: map<string, Worker>, w': map<string, Worker>) {
    forall x :: x in w ==> x in w' && w'[x].host == w[x].host
  }

  /** Leader, mapping and records stay, and no process known before starts running. */
  ghost predicate Quiet(s: State, s': State) {
    && s'.leader == s.leader && s'.store.mapping == s.store.mapping && s'.store.records == s.store.records
    && SameHosts(s.workers, s'.workers)
    && forall x :: x in s.workers && Running(s', x) ==> Running(s, x)
  }

  lemma GoodMappingStays(m: Mapping, w: map<string, Worker>, w': map<string, Worker>)
    requires GoodMapping(m, w) && SameHosts(w, w')
    ensures GoodMapping(m, w')
  {
    hide IdsUpTo, Injective;
  }

  lemma QuietKeepsMappings(s: State, s': State)
    requires MappingsInv(s) && Quiet(s, s')
    ensures MappingsInv(s')
  {
    hide GoodMapping;
    GoodMappingStays(Current(s.store), s.workers, s'.workers);
    if s.leader.loaded.Some? {
      GoodMappingStays(s.leader.loaded.value, s.workers, s'.workers);
    }
  }

  lemma QuietKeepsMembers(s: State, s': State)
    requires MappingsInv(s) && MembersInv(s) && Quiet(s, s')
    ensures MembersInv(s')
  {
    hide IdsUpTo, Injective, DistinctIds;
  }

  lemma QuietKeepsPending(s: State, s': State)
    requires PendingInv(s) && Quiet(s, s')
    ensures PendingInv(s')
  {
    hide IsLookup;
    forall w | w in s'.leader.pending
      ensures PendingWrite(s', w)
    {
      assert PendingWrite(s, w);
    }
  }

  lemma QuietKeepsOwners(s: State, s': State)
    requires OwnersInv(s) && Quiet(s, s')
    requires forall x, c :: Running(s', x) && Claims(s', x, c) ==> Running(s, x) && Claims(s, x, c)
    ensures OwnersInv(s')
  {
    hide Running, Claims, SameHosts;
    forall x, c | Running(s', x) && Claims(s', x, c)
      ensures Owned(s', x, c)
    {
      assert Owned(s, x, c);
    }
  }

  lemma QuietKeeps(s: State, s': State)
    requires Inv(s) && Quiet(s, s')
    requires forall x, c :: Running(s', x) && Claims(s', x, c) ==> Running(s, x) && Claims(s, x, c)
    requires RegisteredInv(s') && LatchInv(s')
    ensures Inv(s')
  {
    hide MappingsInv, MembersInv, PendingInv, OwnersInv, RegisteredInv, LatchInv, Quiet, Claims;
    QuietKeepsMappings(s, s');
    QuietKeepsMembers(s, s');
    QuietKeepsPending(s, s');
    QuietKeepsOwners(s, s');
  }

  /** A step of one process that adds no claim. */
  lemma WorkerStep(s: State, id: string, w: Worker)
    requires Inv(s) && id in s.workers && w.host == s.workers[id].host
    requires w.running ==> Running(s, id)
    requires forall c :: w.coreId == Some(c) || w.reading == Some(c) ==> Claims(s, id, c)
    requires LatchInv(s.(workers := s.workers[id := w]))
    ensures Inv(s.(workers := s.workers[id := w]))
  {
    hide MappingsInv, MembersInv, PendingInv, OwnersInv, LatchInv, HasRecord;
    var s' := s.(workers := s.workers[id := w]);
    assert forall x :: Running(s', x) ==> Running(s, x);
    QuietKeeps(s, s');
  }

  lemma StopKeeps(s: State, id: string, s': State)
    requires Inv(s) && Next(s, Stop(id), s')
    ensures Inv(s')
  {
    hide MappingsInv, MembersInv, PendingInv, OwnersInv, RegisteredInv, HasRecord;
    WorkerStep(s, id, s'.workers[id]);
  }

  lemma PollReadKeeps(s: State, id: string, s': State)
    requires Inv(s) && Next(s, PollRead(id), s')
    ensures Inv(s')
  {
    hide MappingsInv, MembersInv, PendingInv, OwnersInv, RegisteredInv;
    WorkerStep(s, id, s'.workers[id]);
  }

  lemma PollHandleKeeps(s: State, id: string, s': State)
    requires Inv(s) && Next(s, PollHandle(id), s')
    ensures Inv(s')
  {
    hide MappingsInv, MembersInv, PendingInv, OwnersInv, RegisteredInv, HasRecord;
    WorkerStep(s, id, s'.workers[id]);
  }

  lemma FireKeeps(s: State, id: string, s': State)
    requires Inv(s) && Next(s, Fire(id), s')
    ensures Inv(s')
  {
    hide MappingsInv, MembersInv, PendingInv, OwnersInv, RegisteredInv, HasRecord;
    WorkerStep(s, id, s'.workers[id]);
  }

  lemma MembershipKeys(x: string, y: string)
    ensures MEMBERSHIP_PREFIX + x <= MembershipKey(y) <==> x <= y
    ensures MembershipKey(x) == MembershipKey(y) ==> x == y
  {
    PrefixAfter(MEMBERSHIP_PREFIX, x, y);
    PrefixAfter(MEMBERSHIP_PREFIX, y, x);
  }

  lemma NoRecordYet(s: State, id: string)
    requires RegisteredInv(s) && id !in s.workers
    ensures AssignmentKey(id) !in s.store.records
  {
    hide AssignmentKey;
    if AssignmentKey(id) in s.store.records {
      var y :| y in s.workers && AssignmentKey(id) == AssignmentKey(y);
      KeyInjective(id, y);
    }
  }

  lemma StartRegisters(s: State, id: string, host: string, s': State)
    requires RegisteredInv(s) && Next(s, Start(id, host), s')
    ensures RegisteredInv(s')
  {
    hide AssignmentKey, MembershipKey;
    assert forall x :: Running(s', x) ==> x == id || (Running(s, x) && IsRegistered(s, x));
    forall key | key in s'.store.records
      ensures exists y :: y in s'.workers && key == AssignmentKey(y)
    {
      var y :| y in s.workers && key == AssignmentKey(y);
      assert y in s'.workers;
    }
  }

  lemma StartKeeps(s: State, id: string, host: string, s': State)
    requires Inv(s) && Next(s, Start(id, host), s')
    ensures Inv(s')
  {
    hide MembershipKey, AssignmentKey, MappingsInv, MembersInv, PendingInv, OwnersInv, RegisteredInv;
    NoRecordYet(s, id);
    StartRegisters(s, id, host, s');
    assert forall x :: Running(s', x) ==> Running(s, x) || x == id;
    QuietKeeps(s, s');
  }

  lemma ExpireKeeps(s: State, id: string, s': State)
    requires Inv(s) && Next(s, Expire(id), s')
    ensures Inv(s')
  {
    hide MembershipKey, AssignmentKey, MappingsInv, MembersInv, PendingInv, OwnersInv;
    forall x | Running(s', x)
      ensures IsRegistered(s', x)
    {
      assert Running(s, x);
      MembershipKeys(x, id);
    }
    QuietKeeps(s, s');
  }

  // -------------------------------------------------------------- leader steps

  lemma RegisteredStays(s: State, s': State)
    requires RegisteredInv(s) && s'.workers == s.workers
    requires s'.store.registered == s.store.registered && s'.store.records == s.store.records
    ensures RegisteredInv(s')
  {
    hide AssignmentKey, MembershipKey;
    assert forall x :: Running(s', x) ==> Running(s, x) && IsRegistered(s, x);
  }

  lemma NewLeaderKeeps(s: State, s': State)
    requires Inv(s) && Next(s, NewLeader, s')
    ensures Inv(s')
  {
    hide GoodMapping, RegisteredInv;
    forall x, c | Running(s', x) && Claims(s', x, c)
      ensures Owned(s', x, c)
    {
      assert Running(s, x) && Claims(s, x, c);
    }
    RegisteredStays(s, s');
  }

  lemma TrackListsRunning(s: State, list: seq<Member>, s': State)
    requires RegisteredInv(s) && MappingsInv(s) && Next(s, Track(list), s')
    ensures RunningListed(s', Current(s.store), list)
  {
    hide IdsUpTo, Injective, AssignmentKey, DistinctIds, MembershipKey;
    var m := Current(s.store);
    forall k | k in m && m[k].Some? && Running(s', m[k].value.id)
      ensures m[k].value in list
    {
      var x := m[k].value;
      assert Running(s, x.id) && IsRegistered(s, x.id) && Known(x, s.workers);
      assert x == Member(x.id, s.workers[x.id].host);
    }
  }

  lemma TrackKeeps(s: State, list: seq<Member>, s': State)
    requires Inv(s) && Next(s, Track(list), s')
    ensures Inv(s')
  {
    hide GoodMapping, RunningListed, DistinctIds, RegisteredInv;
    TrackListsRunning(s, list, s');
    RegisteredStays(s, s');
    forall x, c | Running(s', x) && Claims(s', x, c)
      ensures Owned(s', x, c)
    {
      assert Running(s, x) && Claims(s, x, c);
    }
  }

  lemma GoodInput(s: State, pops: seq<CoreId>)
    requires s.leader.loaded.Some? && MappingsInv(s) && MembersInv(s)
    requires IsOrder(pops, Cleared(s.leader.loaded.value, s.leader.members))
    ensures ValidInput(s.leader.loaded.value, s.leader.members, pops)
  {
    hide IdsUpTo, Injective, IsOrder, DistinctIds, RunningListed;
    IdsAreFourDigit(|s.leader.loaded.value|);
    FourDigitsAreValid(s.leader.loaded.value, s.leader.members, pops);
  }

  lemma IdsGrow(prev: Mapping, members: seq<Member>, pops: seq<CoreId>)
    requires ValidInput(prev, members, pops) && |prev| <= 0xffff && prev.Keys == IdsUpTo(|prev|) && |members| <= 0xffff
    ensures var after := Reassign(prev, members, pops);
            |after| <= 0xffff && after.Keys == IdsUpTo(|after|)
  {
    hide *;
    if |prev| <= |members| {
      ShapeOfIds(prev, |prev|, members, pops);
      IdsUpToSize(|members|);
    } else {
      SlotCounts(prev, members, pops);
      FewNewcomers(prev, members, pops);
    }
  }

  lemma GoodMappingAfter(s: State, pops: seq<CoreId>)
    requires s.leader.loaded.Some? && MappingsInv(s) && MembersInv(s)
    requires ValidInput(s.leader.loaded.value, s.leader.members, pops)
    ensures GoodMapping(Reassign(s.leader.loaded.value, s.leader.members, pops), s.workers)
  {
    hide IdsUpTo, Injective, ValidInput, DistinctIds, Reassign, RunningListed;
    IdsGrow(s.leader.loaded.value, s.leader.members, pops);
    ReassignInjective(s.leader.loaded.value, s.leader.members, pops);
    OnlyMembersPlaced(s.leader.loaded.value, s.leader.members, pops);
  }

  lemma {:induction false} DropsOf(order: seq<string>, w: Write)
    requires w in Drops(order)
    ensures exists x :: x in order && (w == DropAssignments(x) || w == DropMembership(x))
  {
    var n := |order| - 1;
    if w in Drops(order[..n]) {
      DropsOf(order[..n], w);
    } else {
      assert order[n] in order;
    }
  }

  /** A member is cleared only if its process has stopped. */
  lemma GoneHaveStopped(s: State, x: string)
    requires s.leader.loaded.Some? && MappingsInv(s) && MembersInv(s)
    requires x in InactiveIds(s.leader.loaded.value, s.leader.members)
    ensures x in s.workers && !Running(s, x)
  {
    hide IdsUpTo, Injective, DistinctIds;
    var prev := s.leader.loaded.value;
    var k :| k in prev && !Active(prev[k], s.leader.members) && prev[k].Some? && prev[k].value.id == x;
    assert Known(prev[k].value, s.workers);
  }

  lemma WritesArePending(s: State, pops: seq<CoreId>, sched: Schedule, s': State, w: Write)
    requires MappingsInv(s) && MembersInv(s) && Next(s, Reassigning(pops, sched), s')
    requires w in sched.Writes()
    ensures PendingWrite(s', w)
  {
    hide IdsUpTo, Injective, DistinctIds, Reassign, IsOrder, IsLookup, Drops, RunningListed, GoodMapping;
    var prev := s.leader.loaded.value;
    if w in Drops(sched.goneOrder) {
      DropsOf(sched.goneOrder, w);
      var x :| x in sched.goneOrder && (w == DropAssignments(x) || w == DropMembership(x));
      OrderMember(sched.goneOrder, InactiveIds(prev, s.leader.members), x);
      GoneHaveStopped(s, x);
    } else if w in sched.puts {
      var i :| 0 <= i < |sched.puts| && sched.puts[i] == w;
      OrderMember(sched.newOrder, NewIds(prev, s.leader.members), sched.newOrder[i]);
      var m :| m in s.leader.members && m.id == sched.newOrder[i];
      assert Known(m, s.workers);
    } else {
      assert w == PutMapping(sched.after);
    }
  }

  lemma OrderMember<T>(order: seq<T>, ids: set<T>, x: T)
    requires IsOrder(order, ids) && x in order
    ensures x in ids
  {
    assert x in Elements(order);
  }

  lemma OnlyFirstIsMapping(sched: Schedule, i: nat)
    requires 0 < i < |sched.Writes()| && PutsFor(sched.puts, sched.newOrder, sched.after)
    ensures !sched.Writes()[i].PutMapping?
  {
    var ws := sched.Writes();
    if i <= |sched.puts| {
      assert ws[i] == sched.puts[i - 1];
    } else {
      assert ws[i] == Drops(sched.goneOrder)[i - 1 - |sched.puts|];
      DropsOf(sched.goneOrder, ws[i]);
    }
  }

  lemma ReassignOwners(s: State, pops: seq<CoreId>, sched: Schedule, s': State)
    requires OwnersInv(s) && MembersInv(s) && Next(s, Reassigning(pops, sched), s')
    requires ValidInput(s.leader.loaded.value, s.leader.members, pops)
    ensures OwnersInv(s')
  {
    hide Reassign, ValidInput, IsOrder, Schedule.Valid, Schedule.Writes, HasRecord, DistinctIds;
    SlotsSurvive(s.leader.loaded.value, s.leader.members, pops);
    forall x, c | Running(s', x) && Claims(s', x, c)
      ensures Owned(s', x, c)
    {
      assert Running(s, x) && Claims(s, x, c) && Owned(s, x, c);
      assert Active(s.leader.loaded.value[c], s.leader.members);
    }
  }

  lemma ReassignPending(s: State, pops: seq<CoreId>, sched: Schedule, s': State)
    requires MappingsInv(s) && MembersInv(s) && Next(s, Reassigning(pops, sched), s')
    ensures PendingInv(s')
  {
    hide MappingsInv, MembersInv, Reassign, IsOrder, Drops, PendingWrite;
    forall w | w in s'.leader.pending
      ensures PendingWrite(s', w)
    {
      WritesArePending(s, pops, sched, s', w);
    }
    forall i | 0 < i < |s'.leader.pending|
      ensures !s'.leader.pending[i].PutMapping?
    {
      OnlyFirstIsMapping(sched, i);
    }
    assert s'.leader.pending[0] == PutMapping(sched.after);
  }

  lemma ReassigningKeeps(s: State, pops: seq<CoreId>, sched: Schedule, s': State)
    requires Inv(s) && Next(s, Reassigning(pops, sched), s')
    ensures Inv(s')
  {
    hide Reassign, IsOrder, ValidInput, Schedule.Valid, Schedule.Writes, DistinctIds, GoodMapping, PendingInv,
         RegisteredInv, OwnersInv;
    GoodInput(s, pops);
    GoodMappingAfter(s, pops);
    ReassignPending(s, pops, sched, s');
    ReassignOwners(s, pops, sched, s');
    RegisteredStays(s, s');
    OnlyMembersPlaced(s.leader.loaded.value, s.leader.members, pops);
  }

  // ------------------------------------------------------------------- one write

  lemma RestPending(s: State, s': State)
    requires PendingInv(s) && Next(s, WriteNext, s')
    ensures PendingInv(s')
  {
    hide IsLookup, Current;
    var w := s.leader.pending[0];
    assert w in s.leader.pending && PendingWrite(s, w);
    forall v | v in s'.leader.pending
      ensures PendingWrite(s', v)
    {
      assert v in s.leader.pending && PendingWrite(s, v);
    }
    forall i | 0 <= i < |s'.leader.pending|
      ensures !s'.leader.pending[i].PutMapping?
    {
      assert s'.leader.pending[i] == s.leader.pending[i + 1];
    }
  }

  lemma WriteOwners(s: State, s': State)
    requires OwnersInv(s) && PendingInv(s) && Next(s, WriteNext, s')
    ensures OwnersInv(s')
  {
    hide AssignmentKey, DeletePrefix;
    var w := s.leader.pending[0];
    assert w in s.leader.pending && PendingWrite(s, w);
    forall x, c | Running(s', x) && Claims(s', x, c)
      ensures Owned(s', x, c)
    {
      assert Running(s, x);
      if !Claims(s, x, c) {
        NewClaim(s, w, x, c);
      } else {
        assert Owned(s, x, c);
      }
    }
  }

  lemma NewClaim(s: State, w: Write, x: string, c: CoreId)
    requires !HasRecord(s.store, x, c) && HasRecord(Apply(s.store, w), x, c)
    ensures w == PutAssignment(x, Some(c))
  {
    hide AssignmentKey;
    if w.PutAssignment? && AssignmentKey(w.member) == AssignmentKey(x) {
      KeyInjective(w.member, x);
    }
  }

  lemma WriteRegistered(s: State, s': State)
    requires RegisteredInv(s) && PendingInv(s) && Next(s, WriteNext, s')
    ensures RegisteredInv(s')
  {
    hide AssignmentKey, MembershipKey, IsLookup;
    var w := s.leader.pending[0];
    assert w in s.leader.pending && PendingWrite(s, w);
    forall x | Running(s', x)
      ensures IsRegistered(s', x)
    {
      assert Running(s, x) && IsRegistered(s, x);
      if w.DropMembership? {
        MembershipKeys(w.member, x);
      }
    }
    forall key | key in s'.store.records
      ensures exists id :: id in s'.workers && key == AssignmentKey(id)
    {
      if key in s.store.records {
        var id :| id in s.workers && key == AssignmentKey(id);
      }
    }
  }

  lemma WriteNextKeeps(s: State, s': State)
    requires Inv(s) && Next(s, WriteNext, s')
    ensures Inv(s')
  {
    hide GoodMapping, OwnersInv, RegisteredInv, DistinctIds;
    var w := s.leader.pending[0];
    assert w in s.leader.pending && PendingWrite(s, w);
    RestPending(s, s');
    WriteOwners(s, s');
    WriteRegistered(s, s');
  }

  // -------------------------------------------------------------- main theorems

  lemma StepKeepsInv(s: State, a: Action, s': State)
    requires Inv(s) && Next(s, a, s')
    ensures Inv(s')
  {
    hide Inv, Next;
    match a
    case Start(id, host) => StartKeeps(s, id, host, s');
    case Stop(id) => StopKeeps(s, id, s');
    case Expire(id) => ExpireKeeps(s, id, s');
    case NewLeader => NewLeaderKeeps(s, s');
    case Track(list) => TrackKeeps(s, list, s');
    case Reassigning(pops, sched) => ReassigningKeeps(s, pops, sched, s');
    case WriteNext => WriteNextKeeps(s, s');
    case PollRead(id) => PollReadKeeps(s, id, s');
    case PollHandle(id) => PollHandleKeeps(s, id, s');
    case Fire(id) => FireKeeps(s, id, s');
  }

  ghost predicate Run(ss: seq<State>, actions: seq<Action>) {
    && |ss| == |actions| + 1 && Init(ss[0])
    && forall i :: 0 <= i < |actions| ==> Next(ss[i], actions[i], ss[i + 1])
  }

  lemma InitInv(s: State)
    requires Init(s)
    ensures Inv(s)
  {
    assert IdsUpTo(0) == {};
  }

  lemma {:induction false} RunKeepsInv(ss: seq<State>, actions: seq<Action>, i: nat)
    requires Run(ss, actions) && i < |ss|
    ensures Inv(ss[i])
  {
    hide Inv, Next, Init;
    if i == 0 {
      InitInv(ss[0]);
    } else {
      RunKeepsInv(ss, actions, i - 1);
      StepKeepsInv(ss[i - 1], actions[i - 1], ss[i]);
    }
  }

  /** Over every run, two running processes never hold the same core-store id. */
  lemma NoSharedCoreStore(ss: seq<State>, actions: seq<Action>, i: nat, a: string, b: string)
    requires Run(ss, actions) && i < |ss|
    requires Running(ss[i], a) && Running(ss[i], b)
    requires ss[i].workers[a].coreId.Some? && ss[i].workers[a].coreId == ss[i].workers[b].coreId
    ensures a == b
  {
    hide Next, Init, MappingsInv, MembersInv, PendingInv, RegisteredInv, LatchInv, HasRecord;
    RunKeepsInv(ss, actions, i);
    var c := ss[i].workers[a].coreId.value;
    assert Claims(ss[i], a, c) && Claims(ss[i], b, c);
    assert Owned(ss[i], a, c) && Owned(ss[i], b, c);
  }

  /** A latched id never changes, and the deferred delivers it at most once. */
  lemma {:induction false} LatchedForGood(ss: seq<State>, actions: seq<Action>, i: nat, j: nat, id: string)
    requires Run(ss, actions) && i <= j < |ss|
    requires id in ss[i].workers && ss[i].workers[id].coreId.Some?
    ensures id in ss[j].workers && ss[j].workers[id].coreId == ss[i].workers[id].coreId
    ensures ss[j].workers[id].fired == [] || ss[j].workers[id].fired == [ss[i].workers[id].coreId.value]
    decreases j - i
  {
    hide Next, Init, OwnersInv, MappingsInv, MembersInv, PendingInv, RegisteredInv;
    RunKeepsInv(ss, actions, j);
    if i < j {
      LatchedForGood(ss, actions, i, j - 1, id);
      KeepsLatched(ss[j - 1], actions[j - 1], ss[j], id);
    }
  }

  lemma KeepsLatched(s: State, a: Action, s': State, id: string)
    requires Next(s, a, s') && id in s.workers && s.workers[id].coreId.Some?
    ensures id in s'.workers && s'.workers[id].coreId == s.workers[id].coreId
  {
    hide Current, Cleared, Reassign, Schedule.Valid, Schedule.Writes, IsOrder, Apply;
  }

  // ------------------------------------------------------------------ a first run

  lemma FirstMapping(m: Member)
    ensures Cleared(map[], [m]) == {} && ActiveIds(map[], [m]) == {} && InactiveIds(map[], [m]) == {}
    ensures Reassign(map[], [m], []) == map[Format(1) := Some(m)]
  {
    hide Format;
    assert "0000"[..3] == "000" && "000"[..2] == "00" && "00"[..1] == "0" && "0"[..0] == "";
    assert Number("0000") == 0;
    var one := [m];
    assert one[1..] == [] && Newcomers(one, {}) == [m];
    assert Retained(map[], one) == map[];
    assert Place(map[], one, [], "0000") == Place(map[Format(1) := Some(one[0])], one[1..], [], Format(1));
  }

  lemma FirstSchedule(m: Member, sched: Schedule)
    requires sched == Schedule(map[Format(1) := Some(m)], [PutAssignment(m.id, Some(Format(1)))], [m.id], [])
    ensures sched.Valid(map[], [m])
    ensures sched.Writes() == [PutMapping(sched.after), PutAssignment(m.id, Some(Format(1)))]
  {
    FirstMapping(m);
    assert m in [m];
    assert NewIds(map[], [m]) == {m.id};
  }

  ghost function FirstPlan(id: string, host: string): Schedule {
    Schedule(map[Format(1) := Some(Member(id, host))], [PutAssignment(id, Some(Format(1)))], [id], [])
  }

  /** The states of that run: `told` is the process, `stored` how many of the two writes are done. */
  ghost function Stage(id: string, host: string, leader: Leading, stored: nat, told: Worker): State {
    var mapping :=
      if leader.loaded.None? then None else if stored == 0 then Some(map[]) else Some(FirstPlan(id, host).after);
    var records := if stored < 2 then map[] else map[AssignmentKey(id) := Some(Format(1))];
    State(Store(mapping, records, map[MembershipKey(id) := host]), map[id := told], leader)
  }

  lemma FirstListed(id: string, host: string)
    requires NoSlash(id)
    ensures var m, w := Member(id, host), Worker(host, true, None, None, false, []);
            var s0 := State(Store(None, map[], map[]), map[], Leading(None, [], []));
            var s1 := Stage(id, host, Leading(None, [], []), 0, w);
            var s2 := Stage(id, host, Leading(Some(map[]), [m], []), 0, w);
            Init(s0) && Next(s0, Start(id, host), s1) && Next(s1, Track([m]), s2)
  {
    hide Format, AssignmentKey, MembershipKey;
  }

  lemma FirstWritten(id: string, host: string)
    ensures var m, w, plan := Member(id, host), Worker(host, true, None, None, false, []), FirstPlan(id, host);
            var s2 := Stage(id, host, Leading(Some(map[]), [m], []), 0, w);
            var s3 := Stage(id, host, Leading(Some(plan.after), [m], plan.Writes()), 0, w);
            var s4 := Stage(id, host, Leading(Some(plan.after), [m], plan.puts), 1, w);
            var s5 := Stage(id, host, Leading(Some(plan.after), [m], []), 2, w);
            Next(s2, Reassigning([], plan), s3) && Next(s3, WriteNext, s4) && Next(s4, WriteNext, s5)
  {
    hide Format, AssignmentKey, MembershipKey, Reassign, Cleared, Schedule.Valid, Schedule.Writes;
    FirstMapping(Member(id, host));
    FirstSchedule(Member(id, host), FirstPlan(id, host));
  }

  lemma FirstTold(id: string, host: string, leader: Leading)
    ensures var w, c := Worker(host, true, None, None, false, []), Some(Format(1));
            var s5 := Stage(id, host, leader, 2, w);
            var s6 := Stage(id, host, leader, 2, w.(reading := c));
            var s7 := Stage(id, host, leader, 2, w.(reading := c, coreId := c, timer := true));
            var s8 := Stage(id, host, leader, 2, w.(reading := c, coreId := c, fired := [c.value]));
            Next(s5, PollRead(id), s6) && Next(s6, PollHandle(id), s7) && Next(s7, Fire(id), s8)
  {
    hide Format, AssignmentKey, MembershipKey;
    var w, c := Worker(host, true, None, None, false, []), Some(Format(1));
    var a, b := w.(reading := c), w.(reading := c, coreId := c, timer := true);
    var d := w.(reading := c, coreId := c, fired := [] + [c.value]);
    assert map[id := w][id := a] == map[id := a];
    assert map[id := a][id := b] == map[id := b];
    assert map[id := b][id := d] == map[id := d];
    assert [] + [c.value] == [c.value];
  }

  /** The machine does something: a process starts, is listed, gets the first id and learns it. */
  lemma FirstMemberServed(id: string, host: string) returns (ss: seq<State>, actions: seq<Action>)
    requires NoSlash(id)
    ensures Run(ss, actions) && id in ss[|actions|].workers
    ensures ss[|actions|].workers[id] == Worker(host, true, Some(Format(1)), Some(Format(1)), false, [Format(1)])
  {
    hide Next, Init, Format, FirstPlan, Schedule.Writes;
    var m, c, plan := Member(id, host), Some(Format(1)), FirstPlan(id, host);
    var w := Worker(host, true, None, None, false, []);
    var done := Leading(Some(plan.after), [m], []);
    FirstListed(id, host);
    FirstWritten(id, host);
    FirstTold(id, host, done);
    ss := [State(Store(None, map[], map[]), map[], Leading(None, [], [])),
           Stage(id, host, Leading(None, [], []), 0, w),
           Stage(id, host, Leading(Some(map[]), [m], []), 0, w),
           Stage(id, host, Leading(Some(plan.after), [m], plan.Writes()), 0, w),
           Stage(id, host, Leading(Some(plan.after), [m], plan.puts), 1, w),
           Stage(id, host, done, 2, w),
           Stage(id, host, done, 2, w.(reading := c)),
           Stage(id, host, done, 2, w.(reading := c, coreId := c, timer := true)),
           Stage(id, host, done, 2, w.(reading := c, coreId := c, fired := [c.value]))];
    actions := [Start(id, host), Track([m]), Reassigning([], plan), WriteNext, WriteNext,
                PollRead(id), PollHandle(id), Fire(id)];
  }
}
