/** Leader election over every run: any number of coordinators, sessions ending at
    any time, lost replies, and administrative changes of the leader key
    (voltha/coordinator.py). */
module Election {
  import opened Collections
  import opened Coordination

  /** The leader key, the store's index, the live sessions and who created each session. */
  datatype Cluster = Cluster(key: Option<Record>, index: nat, live: set<Session>, sessions: seq<Instance>,
                             coords: map<Instance, Coord>)

  datatype Action =
    | CreateSession(i: Instance)
    | EndSession(s: Session)
    | SendAcquire(i: Instance)
    | AcquireReply(i: Instance, s: Session, granted: bool)
    | LostAcquire(i: Instance, s: Session)
    | WipeKey
    | OtherWrite
    | ServeRead(i: Instance)
    | HandleRead(i: Instance)
    | ServeWatch(i: Instance)
    | HandleWatch(i: Instance)
    | WatchTimeout(i: Instance)
    | Wait(i: Instance)
    | LeaderBailsOut(i: Instance)
    | BeginStop(i: Instance)
    | EndStop(i: Instance)

  predicate OwnedBy(c: Cluster, s: Session, i: Instance) { s < |c.sessions| && c.sessions[s] == i }

  /** The lock can be taken with `s`: the session lives and nobody else holds the key. */
  predicate CanAcquire(c: Cluster, s: Session) {
    s in c.live && (c.key.None? || c.key.value.session.None? || c.key.value.session == Some(s))
  }

  predicate Enabled(c: Cluster, a: Action) {
    match a
    case EndSession(s) => s in c.live
    case WipeKey => true
    case OtherWrite => true
    case AcquireReply(i, s, granted) =>
      i in c.coords && c.coords[i].phase.Acquiring? && OwnedBy(c, s, i) && (granted ==> CanAcquire(c, s))
    case LostAcquire(i, s) => OwnedBy(c, s, i) && CanAcquire(c, s)
    case CreateSession(i) => i in c.coords
    case SendAcquire(i) => i in c.coords && c.coords[i].phase.Ready? && c.coords[i].session.Some?
    case ServeRead(i) => i in c.coords && c.coords[i].phase.Reading?
    case HandleRead(i) => i in c.coords && c.coords[i].phase.ReadReply?
    case ServeWatch(i) => i in c.coords && c.coords[i].phase.Watching?
    case HandleWatch(i) => i in c.coords && c.coords[i].phase.WatchReply?
    case WatchTimeout(i) => i in c.coords && c.coords[i].phase.WatchReply?
    case Wait(i) => i in c.coords
    case LeaderBailsOut(i) => i in c.coords && c.coords[i].leader.Some?
    case BeginStop(i) => i in c.coords
    case EndStop(i) => i in c.coords && c.coords[i].shuttingDown
  }

  /** Every write of the key raises the index and stamps it on the record. */
  function WriteKey(c: Cluster, value: Instance, session: Option<Session>): Cluster {
    c.(key := Some(Record(value, session, c.index + 1)), index := c.index + 1)
  }

  function Set(c: Cluster, i: Instance, d: Coord): Cluster { c.(coords := c.coords[i := d]) }

  function Do(c: Cluster, a: Action): Cluster
    requires Enabled(c, a)
  {
    match a
    case CreateSession(i) =>
      var s := |c.sessions|;
      Set(c.(live := c.live + {s}, sessions := c.sessions + [i]), i, c.coords[i].(session := Some(s)))
    case EndSession(s) =>
      var d := c.(live := c.live - {s});
      if c.key.Some? && c.key.value.session == Some(s) then WriteKey(d, c.key.value.value, None) else d
    case SendAcquire(i) => Set(c, i, c.coords[i].(phase := Acquiring))
    case AcquireReply(i, s, granted) =>
      Set(if granted then WriteKey(c, i, Some(s)) else c, i, c.coords[i].(phase := Reading(granted)))
    case LostAcquire(i, s) => WriteKey(c, i, Some(s))
    case WipeKey => c.(key := None, index := c.index + 1)
    case OtherWrite => c.(index := c.index + 1)
    case ServeRead(i) => Set(c, i, c.coords[i].(phase := ReadReply(c.coords[i].phase.granted, c.index, c.key)))
    case HandleRead(i) => Set(c, i, AfterRead(c.coords[i], i))
    case ServeWatch(i) =>
      var p := c.coords[i].phase;
      Set(c, i, c.coords[i].(phase := WatchReply(p.index, p.last, c.index, c.key)))
    case HandleWatch(i) => Set(c, i, AfterWatch(c.coords[i], i))
    case WatchTimeout(i) =>
      var p := c.coords[i].phase;
      Set(c, i, c.coords[i].(phase := Watching(p.index, p.last)))
    case Wait(i) => Set(c, i, AfterWait(c.coords[i]))
    case LeaderBailsOut(i) => Set(c, i, Halted(c.coords[i]))
    case BeginStop(i) => Set(c, i, c.coords[i].(shuttingDown := true))
    case EndStop(i) => Set(c, i, Halted(c.coords[i]))
  }

  // ---------------------------------------------------------------- invariant

  /** The key was written after the index `n` was read. */
  predicate KeyPast(c: Cluster, n: nat) {
    n < c.index && (c.key.Some? ==> n < c.key.value.modifyIndex)
  }

  /** An answer read at index `n` is still what the store holds, or the key has changed since. */
  predicate Snapshot(c: Cluster, n: nat, r: Option<Record>) {
    n <= c.index && (c.key == r || KeyPast(c, n)) && (r.Some? ==> r.value.modifyIndex <= n)
  }

  predicate PhaseInv(c: Cluster, p: Phase) {
    match p
    case ReadReply(_, n, r) => Snapshot(c, n, r)
    case Watching(n, last) => Snapshot(c, n, Some(last))
    case WatchReply(n, last, n', updated) => Snapshot(c, n, Some(last)) && Snapshot(c, n', updated)
    case _ => true
  }

  /** The session a self-declared leader relies on. */
  function RelyingOn(d: Coord): Option<Session> {
    if d.phase.Watching? || d.phase.WatchReply? then d.phase.last.session else None
  }

  predicate LeaderInv(c: Cluster, i: Instance)
    requires i in c.coords
  {
    var d := c.coords[i];
    && (d.session.Some? ==> OwnedBy(c, d.session.value, i))
    && (d.iAmLeader ==> RelyingOn(d).Some? && OwnedBy(c, RelyingOn(d).value, i))
  }

  ghost predicate CoordInv(c: Cluster, i: Instance)
    requires i in c.coords
  {
    LocalInv(c.coords[i], i) && PhaseInv(c, c.coords[i].phase) && LeaderInv(c, i)
  }

  ghost predicate Inv(c: Cluster) {
    && (c.key.Some? ==> c.key.value.modifyIndex <= c.index)
    && forall i :: i in c.coords ==> CoordInv(c, i)
  }

  /** The store may move on: indices grow and sessions are only added. */
  predicate Later(c: Cluster, d: Cluster) {
    && c.index <= d.index
    && (d.key == c.key || KeyPast(d, c.index))
    && c.sessions <= d.sessions
  }

  lemma SnapshotLater(c: Cluster, d: Cluster, n: nat, r: Option<Record>)
    requires Snapshot(c, n, r) && Later(c, d)
    ensures Snapshot(d, n, r)
  {
  }

  lemma CoordLater(c: Cluster, d: Cluster, i: Instance)
    requires i in c.coords && i in d.coords && d.coords[i] == c.coords[i]
    requires CoordInv(c, i) && Later(c, d)
    ensures CoordInv(d, i)
  {
    hide LocalInv, Later, Snapshot, OwnedBy;
    SessionsLater(c, d, i);
    match c.coords[i].phase
    case ReadReply(_, n, r) => SnapshotLater(c, d, n, r);
    case Watching(n, last) => SnapshotLater(c, d, n, Some(last));
    case WatchReply(n, last, n', updated) =>
      SnapshotLater(c, d, n, Some(last));
      SnapshotLater(c, d, n', updated);
    case _ =>
  }

  lemma SessionsLater(c: Cluster, d: Cluster, i: Instance)
    requires Later(c, d)
    ensures forall s :: OwnedBy(c, s, i) ==> OwnedBy(d, s, i)
  {
  }

  lemma StoreMoves(c: Cluster, a: Action)
    requires Enabled(c, a) && (c.key.Some? ==> c.key.value.modifyIndex <= c.index)
    ensures var d := Do(c, a);
            Later(c, d) && (d.key.Some? ==> d.key.value.modifyIndex <= d.index) && d.coords.Keys == c.coords.Keys
  {
    hide AfterRead, AfterWatch, AfterWait, Halted;
  }

  /** The coordinator whose state an action changes, if any. */
  predicate Acts(a: Action, i: Instance) {
    match a
    case EndSession(_) => false
    case WipeKey => false
    case OtherWrite => false
    case LostAcquire(_, _) => false
    case _ => a.i == i
  }

  lemma OthersStay(c: Cluster, a: Action, j: Instance)
    requires Enabled(c, a) && j in c.coords && !Acts(a, j)
    ensures var d := Do(c, a); j in d.coords && d.coords[j] == c.coords[j]
  {
    hide AfterRead, AfterWatch, AfterWait, Halted;
  }

  /** Requests, answers and timeouts: only the phase changes. */
  lemma PhaseStep(c: Cluster, a: Action, i: Instance)
    requires Inv(c) && Enabled(c, a) && Acts(a, i)
    requires a.SendAcquire? || a.AcquireReply? || a.ServeRead? || a.ServeWatch? || a.WatchTimeout?
    ensures CoordInv(Do(c, a), i)
  {
    hide WaitersExact, LeadersHalted;
    var e := c.coords[i];
    var d := Do(c, a).coords[i];
    assert CoordInv(c, i);
    assert LocalInv(d, i) by {
      SamePhaseless(e, d);
    }
  }

  lemma SamePhaseless(e: Coord, d: Coord)
    requires d == e.(phase := d.phase)
    ensures WaitersExact(e) ==> WaitersExact(d)
    ensures LeadersHalted(e) ==> LeadersHalted(d)
  {
  }

  lemma HaltedKeeps(e: Coord, i: Instance)
    requires LocalInv(e, i)
    ensures LocalInv(Halted(e), i)
  {
  }

  /** Session creation, waiters and shutdown: the phase stays. */
  lemma QuietStep(c: Cluster, a: Action, i: Instance)
    requires Inv(c) && Enabled(c, a) && Acts(a, i)
    requires a.CreateSession? || a.Wait? || a.LeaderBailsOut? || a.BeginStop? || a.EndStop?
    ensures CoordInv(Do(c, a), i)
  {
    hide WaitersExact, LeadersHalted, AfterWait, Halted;
    var e := c.coords[i];
    assert CoordInv(c, i);
    match a
    case CreateSession(_) => SessionStep(c, i);
    case Wait(_) => WaitKeeps(e, i); WaitIsLocal(e);
    case LeaderBailsOut(_) => HaltedKeeps(e, i); HaltIsLocal(e);
    case BeginStop(_) => assert LocalInv(Do(c, a).coords[i], i) by { StopIrrelevant(e); }
    case EndStop(_) => HaltedKeeps(e, i); HaltIsLocal(e);
  }

  lemma SessionStep(c: Cluster, i: Instance)
    requires Inv(c) && Enabled(c, CreateSession(i))
    ensures CoordInv(Do(c, CreateSession(i)), i)
  {
    hide WaitersExact, LeadersHalted;
    assert CoordInv(c, i);
    SessionIrrelevant(c.coords[i], Some(|c.sessions|));
  }

  lemma SessionIrrelevant(e: Coord, s: Option<Session>)
    ensures WaitersExact(e) ==> WaitersExact(e.(session := s))
    ensures LeadersHalted(e) ==> LeadersHalted(e.(session := s))
  {
  }

  lemma StopIrrelevant(e: Coord)
    ensures WaitersExact(e) ==> WaitersExact(e.(shuttingDown := true))
    ensures LeadersHalted(e) ==> LeadersHalted(e.(shuttingDown := true))
  {
  }

  lemma WaitIsLocal(e: Coord)
    ensures var d := AfterWait(e); d.phase == e.phase && d.session == e.session && d.iAmLeader == e.iAmLeader
  {
  }

  lemma HaltIsLocal(e: Coord)
    ensures var d := Halted(e); d.phase == e.phase && d.session == e.session && d.iAmLeader == e.iAmLeader
  {
  }

  lemma ReadStep(c: Cluster, i: Instance)
    requires Inv(c) && Enabled(c, HandleRead(i))
    ensures CoordInv(Do(c, HandleRead(i)), i)
  {
    hide LocalInv;
    assert CoordInv(c, i);
    assert !c.coords[i].iAmLeader by {
      LeadersWatch(c.coords[i], i);
    }
    AfterReadKeeps(c.coords[i], i);
  }

  lemma WatchStep(c: Cluster, i: Instance)
    requires Inv(c) && Enabled(c, HandleWatch(i))
    ensures CoordInv(Do(c, HandleWatch(i)), i)
  {
    hide LocalInv;
    assert CoordInv(c, i);
    AfterWatchKeeps(c.coords[i], i);
  }

  lemma LeadersWatch(e: Coord, i: Instance)
    requires LocalInv(e, i)
    ensures e.iAmLeader ==> e.phase.Watching? || e.phase.WatchReply?
  {
  }

  lemma StepKeepsInv(c: Cluster, a: Action)
    requires Inv(c) && Enabled(c, a)
    ensures Inv(Do(c, a))
  {
    hide Do, Enabled, CoordInv, Later;
    StoreMoves(c, a);
    forall j | j in Do(c, a).coords
      ensures CoordInv(Do(c, a), j)
    {
      if !Acts(a, j) {
        OthersStay(c, a, j);
        CoordLater(c, Do(c, a), j);
      } else if a.HandleRead? {
        ReadStep(c, j);
      } else if a.HandleWatch? {
        WatchStep(c, j);
      } else if a.CreateSession? || a.Wait? || a.LeaderBailsOut? || a.BeginStop? || a.EndStop? {
        QuietStep(c, a, j);
      } else {
        PhaseStep(c, a, j);
      }
    }
  }

  // ---------------------------------------------------------------- whole runs

  predicate Init(c: Cluster) {
    c.key.None? && c.live == {} && c.sessions == [] && forall i :: i in c.coords ==> c.coords[i] == INITIAL
  }

  /** `d` is reached from `c` by the actions in order. */
  ghost predicate Reaches(c: Cluster, actions: seq<Action>, d: Cluster)
    decreases |actions|
  {
    if actions == [] then d == c
    else Enabled(c, actions[0]) && Reaches(Do(c, actions[0]), actions[1..], d)
  }

  lemma InitInv(c: Cluster)
    requires Init(c)
    ensures Inv(c)
  {
  }

  lemma {:induction false} InvOverRuns(c: Cluster, actions: seq<Action>, d: Cluster)
    requires Inv(c) && Reaches(c, actions, d)
    ensures Inv(d)
    decreases |actions|
  {
    hide Inv, Do, Enabled;
    if actions != [] {
      StepKeepsInv(c, actions[0]);
      InvOverRuns(Do(c, actions[0]), actions[1..], d);
    }
  }

  ghost predicate Reachable(d: Cluster) {
    exists c, actions :: Init(c) && Reaches(c, actions, d)
  }

  lemma ReachableInv(d: Cluster)
    requires Reachable(d)
    ensures Inv(d)
  {
    hide Inv, Init, Reaches;
    var c, actions :| Init(c) && Reaches(c, actions, d);
    InitInv(c);
    InvOverRuns(c, actions, d);
  }

  /** A self-declared leader whose record is the one in the store. */
  predicate HoldsKey(c: Cluster, i: Instance) {
    && i in c.coords && c.coords[i].iAmLeader
    && (c.coords[i].phase.Watching? || c.coords[i].phase.WatchReply?)
    && c.key == Some(c.coords[i].phase.last)
  }

  /** At most one self-declared leader holds the key. */
  lemma OneHolder(c: Cluster, i: Instance, j: Instance)
    requires Reachable(c) && HoldsKey(c, i) && HoldsKey(c, j)
    ensures i == j
  {
    hide Reachable, LocalInv, PhaseInv;
    ReachableInv(c);
    assert CoordInv(c, i) && CoordInv(c, j);
  }

  /** Any other self-declared leader watches below the store's index, so its blocking
      read is answered; the first answer taken from now on demotes it and halts its
      Leader object, whatever happens in between. */
  lemma StaleLeaderIsDemoted(c: Cluster, i: Instance, d: Cluster)
    requires Reachable(c) && i in c.coords && c.coords[i].iAmLeader && !HoldsKey(c, i)
    requires c.coords[i].phase.Watching?
    requires d.coords.Keys == c.coords.Keys && d.coords[i] == Do(c, ServeWatch(i)).coords[i]
    ensures c.coords[i].phase.index < c.index
    ensures Enabled(d, HandleWatch(i))
    ensures var e := Do(d, HandleWatch(i)).coords[i];
            !e.iAmLeader && e.leader.None? && forall n :: 0 <= n < e.created ==> n in e.halted
  {
    hide Reachable, WaitersExact, Reaches;
    ReachableInv(c);
    assert CoordInv(c, i);
  }

  /** A self-declared leader watches, and holds the key exactly as long as the key has not been
      written after the index it watches. */
  lemma HoldsKeyIff(c: Cluster, i: Instance)
    requires Reachable(c) && i in c.coords && c.coords[i].iAmLeader
    ensures var p := c.coords[i].phase;
            (p.Watching? || p.WatchReply?) && (HoldsKey(c, i) <==> !KeyPast(c, p.index))
  {
    hide Reachable, WaitersExact, LeadersHalted;
    ReachableInv(c);
    assert CoordInv(c, i);
  }

  /** Of two Leader objects at least one belongs to an instance for which the key has been written
      after the index it watches: there is a single one as long as that happens to nobody. */
  lemma SecondLeaderIsPast(c: Cluster, i: Instance, j: Instance)
    requires Reachable(c) && i in c.coords && j in c.coords && i != j
    requires c.coords[i].leader.Some? && c.coords[j].leader.Some?
    ensures var p, q := c.coords[i].phase, c.coords[j].phase;
            && (p.Watching? || p.WatchReply?) && (q.Watching? || q.WatchReply?)
            && (KeyPast(c, p.index) || KeyPast(c, q.index))
  {
    hide Reachable, KeyPast, HoldsKey;
    LeaderObjects(c, i);
    LeaderObjects(c, j);
    HoldsKeyIff(c, i);
    HoldsKeyIff(c, j);
    if HoldsKey(c, i) && HoldsKey(c, j) {
      OneHolder(c, i, j);
    }
  }

  /** A stale leader with an answer in flight is demoted by it, or goes on watching below the
      store's index, where its next answer demotes it. A timeout leaves it there too. */
  lemma StaleAnswerInFlight(c: Cluster, i: Instance)
    requires Reachable(c) && i in c.coords && c.coords[i].iAmLeader && !HoldsKey(c, i)
    requires c.coords[i].phase.WatchReply?
    ensures var d := Do(c, HandleWatch(i)); var e := d.coords[i];
            || (!e.iAmLeader && e.leader.None? && forall n :: 0 <= n < e.created ==> n in e.halted)
            || (Reachable(d) && StaleWatcher(d, i))
    ensures var d := Do(c, WatchTimeout(i)); Reachable(d) && StaleWatcher(d, i)
  {
    hide Reachable, WaitersExact;
    ReachableInv(c);
    assert CoordInv(c, i);
    StepReachable(c, HandleWatch(i));
    StepReachable(c, WatchTimeout(i));
    ReachableInv(Do(c, HandleWatch(i)));
    assert CoordInv(Do(c, HandleWatch(i)), i);
  }

  /** What `StaleLeaderIsDemoted` asks for. */
  predicate StaleWatcher(c: Cluster, i: Instance) {
    && i in c.coords && c.coords[i].iAmLeader && !HoldsKey(c, i)
    && c.coords[i].phase.Watching? && c.coords[i].phase.index < c.index
  }

  /** At the top of a pass nobody claims leadership; a Leader object lives only while
      its coordinator claims it; all others ever made are halted. */
  lemma LeaderObjects(c: Cluster, i: Instance)
    requires Reachable(c) && i in c.coords
    ensures var e := c.coords[i];
            && (e.phase.Ready? ==> !e.iAmLeader)
            && (e.leader.Some? ==> e.iAmLeader)
            && (forall n :: 0 <= n < e.created && e.leader != Some(n) ==> n in e.halted)
  {
    hide Reachable, WaitersExact;
    ReachableInv(c);
    assert CoordInv(c, i);
  }

  /** Each waiter ever issued is pending or has fired, never both and never twice; once
      a leader has been seen none is pending. */
  lemma WaitersFireOnce(c: Cluster, i: Instance)
    requires Reachable(c) && i in c.coords
    ensures var e := c.coords[i]; var ids := FiredIds(e.fired);
            && (forall n :: 0 <= n < e.issued ==> (n in ids <==> n !in e.waiters))
            && Distinct(ids)
            && (e.leaderId.Some? ==> forall n :: 0 <= n < e.issued ==> n in ids)
  {
    hide Reachable, LeadersHalted, PhaseInv;
    ReachableInv(c);
    assert CoordInv(c, i);
    var e := c.coords[i];
    SplitDistinct(e.waiters, FiredIds(e.fired));
  }

  lemma SplitDistinct(a: seq<nat>, b: seq<nat>)
    requires Distinct(a + b)
    ensures Distinct(b) && forall n :: n in a + b <==> n in a || n in b
    ensures forall n :: n in a ==> n !in b
  {
    var all := a + b;
    assert forall j :: 0 <= j < |b| ==> b[j] == all[|a| + j];
    assert forall j :: 0 <= j < |a| ==> a[j] == all[j];
  }

  lemma {:induction false} ReachesSnoc(c: Cluster, actions: seq<Action>, d: Cluster, a: Action)
    requires Reaches(c, actions, d) && Enabled(d, a)
    ensures Reaches(c, actions + [a], Do(d, a))
    decreases |actions|
  {
    hide Do, Enabled;
    if actions == [] {
      assert [a][1..] == [];
      assert Reaches(Do(c, a), [], Do(d, a));
      assert [] + [a] == [a];
    } else {
      ReachesSnoc(Do(c, actions[0]), actions[1..], d, a);
      assert (actions + [a])[1..] == actions[1..] + [a];
    }
  }

  lemma StepReachable(d: Cluster, a: Action)
    requires Reachable(d) && Enabled(d, a)
    ensures Reachable(Do(d, a))
  {
    hide Do, Enabled, Init, Reaches;
    var c, actions :| Init(c) && Reaches(c, actions, d);
    ReachesSnoc(c, actions, d, a);
  }

  /** From a free key, a coordinator with a live session of its own becomes leader in four steps. */
  lemma Elect(c: Cluster, i: Instance, s: Session) returns (d: Cluster)
    requires Reachable(c) && i in c.coords && c.coords[i].phase.Ready? && c.coords[i].session == Some(s)
    requires OwnedBy(c, s, i) && CanAcquire(c, s) && c.coords[i].leader.None? && !c.coords[i].iAmLeader
    ensures Reachable(d) && HoldsKey(d, i) && d.coords[i].leader.Some? && RelyingOn(d.coords[i]) == Some(s)
    ensures d.live == c.live && d.sessions == c.sessions && d.coords.Keys == c.coords.Keys
    ensures forall j :: j in c.coords && j != i ==> d.coords[j] == c.coords[j]
  {
    hide Reachable, LocalInv;
    var c1 := Do(c, SendAcquire(i));
    StepReachable(c, SendAcquire(i));
    var c2 := Do(c1, AcquireReply(i, s, true));
    StepReachable(c1, AcquireReply(i, s, true));
    var c3 := Do(c2, ServeRead(i));
    StepReachable(c2, ServeRead(i));
    d := Do(c3, HandleRead(i));
    StepReachable(c3, HandleRead(i));
  }

  /** "A single instance of this object shall exist across the whole cluster" does not
      hold at every moment: the first leader's session ends, the second takes the key,
      and the first has not yet read the change. */
  lemma TwoLeadersAtOnce() returns (c: Cluster)
    ensures Reachable(c)
    ensures "a" in c.coords && c.coords["a"].iAmLeader && c.coords["a"].leader.Some?
    ensures "b" in c.coords && c.coords["b"].iAmLeader && c.coords["b"].leader.Some?
  {
    hide Reachable;
    var c0 := Cluster(None, 0, {}, [], map["a" := INITIAL, "b" := INITIAL]);
    StartReachable(c0);
    var c1 := Do(c0, CreateSession("a"));
    StepReachable(c0, CreateSession("a"));
    var c2 := Do(c1, CreateSession("b"));
    StepReachable(c1, CreateSession("b"));
    var c3 := Elect(c2, "a", 0);
    var c4 := Do(c3, EndSession(0));
    StepReachable(c3, EndSession(0));
    c := Elect(c4, "b", 1);
  }

  lemma StartReachable(c: Cluster)
    requires Init(c)
    ensures Reachable(c)
  {
    assert Reaches(c, [], c);
  }

  // ------------------------------------------------- leading without a Leader object

  /** The states of a run, one more than its actions. */
  ghost predicate IsRun(states: seq<Cluster>, actions: seq<Action>) {
    && |states| == |actions| + 1 && Init(states[0])
    && forall k :: 0 <= k < |actions| ==> Enabled(states[k], actions[k]) && states[k + 1] == Do(states[k], actions[k])
  }

  lemma {:induction false} RunReachable(states: seq<Cluster>, actions: seq<Action>, n: nat)
    requires IsRun(states, actions) && n < |states|
    ensures Reachable(states[n])
  {
    hide Reachable, Do, Enabled, Init;
    if n == 0 {
      StartReachable(states[0]);
    } else {
      RunReachable(states, actions, n - 1);
      StepReachable(states[n - 1], actions[n - 1]);
    }
  }

  predicate Leads(c: Cluster, i: Instance) { i in c.coords && c.coords[i].iAmLeader }

  /** The Leader object stops by itself, or the coordinator is stopped. */
  predicate Abandons(a: Action, i: Instance) { a == LeaderBailsOut(i) || a == EndStop(i) }

  /** The action at `k` abandons the Leader object and `i` has led ever since. */
  ghost predicate AbandonedAt(states: seq<Cluster>, actions: seq<Action>, i: Instance, k: int, n: nat)
    requires |states| == |actions| + 1 && n < |states|
  {
    0 <= k < n && Abandons(actions[k], i) && forall j :: k < j <= n ==> Leads(states[j], i)
  }

  /** Handling an answer: who leads afterwards has just got a Leader object, or has led before. */
  lemma AnswersLead(e: Coord, me: Instance)
    requires LocalInv(e, me)
    ensures e.phase.ReadReply? && AfterRead(e, me).iAmLeader ==> !e.iAmLeader && AfterRead(e, me).leader.Some?
    ensures e.phase.WatchReply? && AfterWatch(e, me).iAmLeader ==> e.iAmLeader && AfterWatch(e, me).leader == e.leader
    ensures AfterWait(e).iAmLeader == e.iAmLeader && AfterWait(e).leader == e.leader
  {
  }

  /** One step of an instance that leads afterwards. */
  lemma LeaderObjectStep(c: Cluster, a: Action, i: Instance)
    requires Reachable(c) && Enabled(c, a) && Leads(Do(c, a), i)
    ensures i in c.coords && (Abandons(a, i) ==> Leads(c, i))
    ensures var e, d := c.coords[i], Do(c, a).coords[i];
            d.leader.None? <==> e.iAmLeader && (e.leader.None? || Abandons(a, i))
  {
    hide Reachable, LocalInv, PhaseInv, LeaderInv, AfterRead, AfterWatch, AfterWait;
    ReachableInv(c);
    StoreMovesKeys(c, a);
    assert CoordInv(c, i);
    AnswersLead(c.coords[i], i);
    LeaderObjects(c, i);
    if !Acts(a, i) {
      OthersStay(c, a, i);
    }
  }

  lemma StoreMovesKeys(c: Cluster, a: Action)
    requires Enabled(c, a)
    ensures Do(c, a).coords.Keys == c.coords.Keys
  {
    hide AfterRead, AfterWatch, AfterWait, Halted;
  }

  /** A leader, key holder or not, has no Leader object exactly when that was abandoned at some
      step and the instance has led ever since. */
  lemma {:induction false} NoLeaderObjectIff(states: seq<Cluster>, actions: seq<Action>, i: Instance, n: nat)
    requires IsRun(states, actions) && n < |states| && Leads(states[n], i)
    ensures states[n].coords[i].leader.None? <==> exists k :: AbandonedAt(states, actions, i, k, n)
  {
    hide Reachable, Do, Enabled, Abandons;
    if n > 0 {
      var m := n - 1;
      var c, a := states[m], actions[m];
      RunReachable(states, actions, m);
      assert states[m + 1] == Do(c, a);
      LeaderObjectStep(c, a, i);
      if Leads(c, i) {
        NoLeaderObjectIff(states, actions, i, m);
        AbandonedLater(states, actions, i, m, n);
      } else {
        assert forall k :: AbandonedAt(states, actions, i, k, n) ==> k == m;
      }
    }
  }

  lemma AbandonedLater(states: seq<Cluster>, actions: seq<Action>, i: Instance, m: nat, n: nat)
    requires |states| == |actions| + 1 && n == m + 1 < |states| && Leads(states[n], i) && Leads(states[m], i)
    ensures (exists k :: AbandonedAt(states, actions, i, k, n)) <==>
            Abandons(actions[m], i) || exists k :: AbandonedAt(states, actions, i, k, m)
  {
    hide Abandons, Leads;
    if Abandons(actions[m], i) {
      assert AbandonedAt(states, actions, i, m, n);
    }
    if k :| AbandonedAt(states, actions, i, k, m) {
      assert AbandonedAt(states, actions, i, k, n);
    }
    if k :| AbandonedAt(states, actions, i, k, n) && k != m {
      assert AbandonedAt(states, actions, i, k, m);
    }
  }
}
