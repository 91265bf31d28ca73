/** Why reassignments have to come one at a time: two leaders, each stepping as in `CrashSafety`,
    over one store (voltha/leader.py). No id is shared if a side reassigns only when the other has
    nothing left to write and has written nothing since the side last read; each half is needed. */
module OverlappingLeaders {
  import opened Collections
  import opened CoreIds
  import opened Reassignment
  import opened LeaderStore
  import opened ClusterRun
  import opened CrashSafety

  datatype Pair = Pair(store: Store, workers: map<string, Worker>, one: Leading, two: Leading)
  {
    /** What the first or the second leader steps on. */
    function Side(first: bool): State { State(store, workers, if first then one else two) }
  }

  ghost predicate Step2(p: Pair, first: bool, a: Action, p': Pair) {
    Next(p.Side(first), a, p'.Side(first)) && (if first then p'.two == p.two else p'.one == p.one)
  }

  ghost predicate Run2(ps: seq<Pair>, steps: seq<(bool, Action)>) {
    && |ps| == |steps| + 1 && Init(ps[0].Side(true)) && Init(ps[0].Side(false))
    && forall i :: 0 <= i < |steps| ==> Step2(ps[i], steps[i].0, steps[i].1, ps[i + 1])
  }

  // -------------------------------------------------------------- the rule suffices

  /** Side `first` has read the member list and the mapping, and the other has written nothing since. */
  ghost predicate Fresh(steps: seq<(bool, Action)>, n: nat, first: bool)
    requires n <= |steps|
  {
    n > 0 &&
    var (side, a) := steps[n - 1];
    if side == first then a.Track? || (!a.NewLeader? && Fresh(steps, n - 1, first))
    else !a.WriteNext? && Fresh(steps, n - 1, first)
  }

  /** A side reassigns only when it is fresh and the other has nothing left to write. */
  ghost predicate Orderly(ps: seq<Pair>, steps: seq<(bool, Action)>)
    requires |ps| == |steps| + 1
  {
    forall n :: 0 <= n < |steps| && steps[n].1.Reassigning? ==>
      Fresh(steps, n, steps[n].0) && ps[n].Side(!steps[n].0).leader.pending == []
  }

  const NONE := Leading(None, [], [])

  /** What a side may act on: a leader that is not fresh counts as one that knows nothing. */
  function Acting(p: Pair, first: bool, ready: bool): State {
    if ready then p.Side(first) else State(p.store, p.workers, NONE)
  }

  /** Only a fresh side has something to write, and only while the other has not. */
  predicate OneWrites(p: Pair, first: bool, ready: bool) {
    p.Side(first).leader.pending != [] ==> ready && p.Side(!first).leader.pending == []
  }

  predicate OfWorkers(a: Action) { !(a.NewLeader? || a.Track? || a.Reassigning? || a.WriteNext?) }

  lemma WorkersActAlone(s: State, a: Action, s': State, leader: Leading)
    requires Next(s, a, s') && OfWorkers(a)
    ensures s'.leader == s.leader && Next(s.(leader := leader), a, s'.(leader := leader))
  {
  }

  lemma MappingCreated(s: State)
    requires Inv(s)
    ensures Inv(s.(store := s.store.(mapping := Some(Current(s.store)))))
  {
    hide GoodMapping, DistinctIds, IsLookup, RegisteredInv;
    var t := s.(store := s.store.(mapping := Some(Current(s.store))));
    RegisteredStays(s, t);
    forall w | w in t.leader.pending
      ensures PendingWrite(t, w)
    {
      assert PendingWrite(s, w);
    }
    forall x, c | Running(t, x) && Claims(t, x, c)
      ensures Owned(t, x, c)
    {
      assert Running(s, x) && Claims(s, x, c) && Owned(s, x, c);
    }
  }

  lemma ForgetsLeader(s: State)
    requires Inv(s)
    ensures Inv(s.(leader := NONE))
  {
    hide Inv;
    StepKeepsInv(s, NewLeader, s.(leader := NONE));
  }

  lemma OwnSide(p: Pair, first: bool, a: Action, p': Pair, ready: bool)
    requires Step2(p, first, a, p') && Inv(Acting(p, first, ready)) && OneWrites(p, first, ready)
    requires a.Reassigning? ==> ready
    ensures Inv(Acting(p', first, a.Track? || (!a.NewLeader? && ready)))
  {
    hide Inv, Current, Cleared, Reassign, Schedule.Valid, Schedule.Writes, IsOrder, Apply;
    var s, s' := p.Side(first), p'.Side(first);
    if ready || a.Track? {
      StepKeepsInv(Acting(p, first, ready), a, s');
    } else if OfWorkers(a) {
      WorkersActAlone(s, a, s', NONE);
      StepKeepsInv(Acting(p, first, ready), a, s'.(leader := NONE));
    }
  }

  lemma OtherSide(p: Pair, first: bool, a: Action, p': Pair, own: bool, ready: bool)
    requires Step2(p, first, a, p') && Inv(Acting(p, !first, ready)) && Inv(Acting(p', first, own))
    ensures Inv(Acting(p', !first, !a.WriteNext? && ready))
  {
    hide Inv, Current, Cleared, Reassign, Schedule.Valid, Schedule.Writes, IsOrder, Apply;
    var s, t := p.Side(!first), p'.Side(!first);
    if !ready || a.WriteNext? {
      ForgetsLeader(Acting(p', first, own));
    } else if OfWorkers(a) {
      WorkersActAlone(p.Side(first), a, p'.Side(first), s.leader);
      StepKeepsInv(s, a, t);
    } else if a.Track? {
      MappingCreated(s);
    }
  }

  lemma OneStillWrites(p: Pair, first: bool, a: Action, p': Pair, own: bool, other: bool)
    requires Step2(p, first, a, p') && OneWrites(p, first, own) && OneWrites(p, !first, other)
    requires a.Reassigning? ==> own && p.Side(!first).leader.pending == []
    ensures OneWrites(p', first, a.Track? || (!a.NewLeader? && own)) && OneWrites(p', !first, !a.WriteNext? && other)
  {
    hide Current, Cleared, Reassign, Schedule.Valid, Schedule.Writes, IsOrder, Apply;
  }

  lemma {:induction false} OrderlyKeepsInv(ps: seq<Pair>, steps: seq<(bool, Action)>, n: nat)
    requires Run2(ps, steps) && Orderly(ps, steps) && n <= |steps|
    ensures forall first ::
              Inv(Acting(ps[n], first, Fresh(steps, n, first))) && OneWrites(ps[n], first, Fresh(steps, n, first))
  {
    hide Inv, Init, Step2, Acting, OneWrites;
    if n == 0 {
      StartsWell(ps[0]);
    } else {
      var m := n - 1;
      var (side, a) := steps[m];
      var p, p' := ps[m], ps[m + 1];
      OrderlyKeepsInv(ps, steps, m);
      var own, other := Fresh(steps, m, side), Fresh(steps, m, !side);
      assert Step2(p, side, a, p');
      OwnSide(p, side, a, p', own);
      OtherSide(p, side, a, p', a.Track? || (!a.NewLeader? && own), other);
      OneStillWrites(p, side, a, p', own, other);
    }
  }

  lemma StartsWell(p: Pair)
    requires Init(p.Side(true)) && Init(p.Side(false))
    ensures forall first :: Inv(Acting(p, first, false)) && OneWrites(p, first, false)
  {
    hide Inv;
    InitInv(State(p.store, p.workers, NONE));
  }

  lemma ReadyOrNot(p: Pair, first: bool, ready: bool)
    ensures Acting(p, first, ready).store == p.store && Acting(p, first, ready).workers == p.workers
  {
  }

  /** Two leaders may run at once: no two running processes get one id in any orderly run. */
  lemma OrderlyIsSafe(ps: seq<Pair>, steps: seq<(bool, Action)>, n: nat, a: string, b: string)
    requires Run2(ps, steps) && Orderly(ps, steps) && n <= |steps|
    requires Running(ps[n].Side(true), a) && Running(ps[n].Side(true), b)
    requires ps[n].workers[a].coreId.Some? && ps[n].workers[a].coreId == ps[n].workers[b].coreId
    ensures a == b
  {
    hide Orderly, Init, Step2, Acting, MappingsInv, MembersInv, PendingInv, RegisteredInv, LatchInv, HasRecord;
    OrderlyKeepsInv(ps, steps, n);
    ReadyOrNot(ps[n], true, Fresh(steps, n, true));
    var s := Acting(ps[n], true, Fresh(steps, n, true));
    assert Inv(s);
    var c := ps[n].workers[a].coreId.value;
    assert Claims(s, a, c) && Claims(s, b, c);
    assert Owned(s, a, c) && Owned(s, b, c);
  }

  // ------------------------------------------------------------ and what goes wrong

  const A := Member("a", "h")
  const B := Member("b", "h")
  const NEW := CrashSafety.Worker("h", true, None, None, false, [])

  ghost function PlanA(): Schedule { FirstPlan("a", "h") }

  ghost function PlanB(): Schedule {
    Schedule(map[Format(1) := Some(B), Format(2) := Some(A)],
             [PutAssignment("b", Some(Format(1))), PutAssignment("a", Some(Format(2)))], ["b", "a"], [])
  }

  /** A process that has been told the first id. */
  ghost function Told(): CrashSafety.Worker {
    NEW.(reading := Some(Format(1)), coreId := Some(Format(1)), timer := true)
  }

  ghost function Asked(): CrashSafety.Worker { NEW.(reading := Some(Format(1))) }

  function Ids(both: bool): map<string, string> {
    if both then map[MembershipKey("a") := "h", MembershipKey("b") := "h"] else map[MembershipKey("a") := "h"]
  }

  ghost function At(mapping: Option<Mapping>, records: map<string, Option<CoreId>>, a: CrashSafety.Worker,
                    b: Option<CrashSafety.Worker>, one: Leading, two: Leading): Pair
  {
    Pair(Store(mapping, records, Ids(b.Some?)),
         if b.Some? then map["a" := a, "b" := b.value] else map["a" := a], one, two)
  }

  ghost function RecordA(): map<string, Option<CoreId>> { map[AssignmentKey("a") := Some(Format(1))] }

  ghost function RecordAB(): map<string, Option<CoreId>> { RecordA()[AssignmentKey("b") := Some(Format(1))] }

  lemma SecondMapping()
    ensures Cleared(map[], [B, A]) == {} && ActiveIds(map[], [B, A]) == {} && InactiveIds(map[], [B, A]) == {}
    ensures Reassign(map[], [B, A], []) == PlanB().after
  {
    hide Format;
    assert "0000"[..3] == "000" && "000"[..2] == "00" && "00"[..1] == "0" && "0"[..0] == "";
    assert Number("0000") == 0;
    FormatRoundTrip(1);
    var two := [B, A];
    assert two[1..] == [A] && [A][1..] == [];
    assert Newcomers([A], {}) == [A];
    assert Newcomers(two, {}) == [two[0]] + Newcomers(two[1..], {}) == [B, A];
    assert Retained(map[], two) == map[];
    var m: Mapping := map[Format(1) := Some(B)];
    assert Place(map[], two, [], "0000") == Place(m, two[1..], [], Format(1));
    assert Place(m, [A], [], Format(1)) == Place(m[Format(2) := Some(A)], [A][1..], [], Format(2));
  }

  lemma SecondSchedule()
    ensures PlanB().Valid(map[], [B, A])
    ensures PlanB().Writes() == [PutMapping(PlanB().after)] + PlanB().puts
  {
    hide Format;
    SecondMapping();
    FormatRoundTrip(1);
    FormatRoundTrip(2);
    assert B in [B, A] && A in [B, A];
    assert NewIds(map[], [B, A]) == {"b", "a"};
  }

  /** The first leader has only seen one process when it loads the mapping. */
  lemma FirstTracks()
    ensures var s0 := Pair(Store(None, map[], map[]), map[], NONE, NONE);
            var s1 := At(None, map[], NEW, None, NONE, NONE);
            var s2 := At(Some(map[]), map[], NEW, None, Leading(Some(map[]), [A], []), NONE);
            && Init(s0.Side(true)) && Init(s0.Side(false))
            && Step2(s0, true, Start("a", "h"), s1) && Step2(s1, true, Track([A]), s2)
  {
    hide Format, AssignmentKey, MembershipKey;
  }

  lemma FirstPlans(b: Option<CrashSafety.Worker>, two: Leading)
    ensures var s := At(Some(map[]), map[], NEW, b, Leading(Some(map[]), [A], []), two);
            var p := PlanA();
            Step2(s, true, Reassigning([], p), s.(one := Leading(Some(p.after), [A], p.Writes())))
  {
    hide Format, AssignmentKey, MembershipKey, Reassign, Cleared, Schedule.Valid, Schedule.Writes, Ids;
    FirstMapping(A);
    FirstSchedule(A, PlanA());
  }

  lemma SecondStarts(one: Leading)
    ensures var s3 := At(Some(map[]), map[], NEW, None, one, NONE);
            var s4 := At(Some(map[]), map[], NEW, Some(NEW), one, NONE);
            Step2(s3, false, Start("b", "h"), s4)
  {
    hide Format, AssignmentKey, MembershipKey;
    KeysDiffer();
    assert "a"[0] != "b"[0];
    assert map["a" := NEW]["b" := NEW] == map["a" := NEW, "b" := NEW];
    assert Ids(false)[MembershipKey("b") := "h"] == Ids(true);
  }

  /** The second one has seen both, and loads the mapping before the first has written it. */
  lemma SecondTracks(one: Leading)
    ensures var b1 := Leading(Some(map[]), [B, A], []);
            var s4 := At(Some(map[]), map[], NEW, Some(NEW), one, NONE);
            var s5 := At(Some(map[]), map[], NEW, Some(NEW), one, b1);
            Step2(s4, false, Track([B, A]), s5)
  {
    hide Format, AssignmentKey, MembershipKey;
    assert A in [B, A] && B in [B, A];
  }

  lemma SecondPlans(s: Pair)
    requires s.two == Leading(Some(map[]), [B, A], [])
    ensures var p := PlanB();
            Step2(s, false, Reassigning([], p), s.(two := Leading(Some(p.after), [B, A], p.Writes())))
  {
    hide Format, AssignmentKey, MembershipKey, Reassign, Cleared, Schedule.Valid, Schedule.Writes, Ids;
    SecondMapping();
    SecondSchedule();
  }

  lemma KeysDiffer()
    ensures MembershipKey("a") != MembershipKey("b") && AssignmentKey("a") != AssignmentKey("b")
  {
    if AssignmentKey("a") == AssignmentKey("b") {
      KeyInjective("a", "b");
    }
    assert MembershipKey("a")[|MEMBERSHIP_PREFIX|..] == "a" && MembershipKey("b")[|MEMBERSHIP_PREFIX|..] == "b";
  }

  lemma FirstWrites(two: Leading)
    ensures var p := PlanA();
            var s6 := At(Some(map[]), map[], NEW, Some(NEW), Leading(Some(p.after), [A], p.Writes()), two);
            var s7 := At(Some(p.after), map[], NEW, Some(NEW), Leading(Some(p.after), [A], p.puts), two);
            var s8 := At(Some(p.after), RecordA(), NEW, Some(NEW), Leading(Some(p.after), [A], []), two);
            Step2(s6, true, WriteNext, s7) && Step2(s7, true, WriteNext, s8)
  {
    hide Format, AssignmentKey, MembershipKey;
    FirstSchedule(A, PlanA());
  }

  lemma FirstTells(mapping: Option<Mapping>, one: Leading, two: Leading)
    ensures var s8 := At(mapping, RecordA(), NEW, Some(NEW), one, two);
            var s9 := At(mapping, RecordA(), Asked(), Some(NEW), one, two);
            var s10 := At(mapping, RecordA(), Told(), Some(NEW), one, two);
            Step2(s8, true, PollRead("a"), s9) && Step2(s9, true, PollHandle("a"), s10)
  {
    hide Format, AssignmentKey, MembershipKey;
    Overwrites(NEW, NEW, Asked(), NEW);
    Overwrites(Asked(), NEW, Told(), NEW);
  }

  lemma Overwrites(a: CrashSafety.Worker, b: CrashSafety.Worker, a': CrashSafety.Worker, b': CrashSafety.Worker)
    ensures map["a" := a, "b" := b]["a" := a'] == map["a" := a', "b" := b]
    ensures map["a" := a, "b" := b]["b" := b'] == map["a" := a, "b" := b']
  {
  }

  lemma SecondWrites(one: Leading, was: Option<Mapping>)
    ensures var p := PlanB();
            var s10 := At(was, RecordA(), Told(), Some(NEW), one, Leading(Some(p.after), [B, A], p.Writes()));
            var s11 := At(Some(p.after), RecordA(), Told(), Some(NEW), one, Leading(Some(p.after), [B, A], p.puts));
            var s12 := At(Some(p.after), RecordAB(), Told(), Some(NEW), one,
                          Leading(Some(p.after), [B, A], p.puts[1..]));
            Step2(s10, false, WriteNext, s11) && Step2(s11, false, WriteNext, s12)
  {
    hide Format, AssignmentKey, MembershipKey;
    SecondSchedule();
  }

  lemma SecondTells(mapping: Option<Mapping>, one: Leading, two: Leading)
    ensures var s12 := At(mapping, RecordAB(), Told(), Some(NEW), one, two);
            var s13 := At(mapping, RecordAB(), Told(), Some(Asked()), one, two);
            var s14 := At(mapping, RecordAB(), Told(), Some(Told()), one, two);
            Step2(s12, false, PollRead("b"), s13) && Step2(s13, false, PollHandle("b"), s14)
  {
    hide Format, AssignmentKey, MembershipKey;
    Overwrites(Told(), NEW, Told(), Asked());
    Overwrites(Told(), Asked(), Told(), Told());
  }

  ghost predicate Shared(p: Pair) {
    && Running(p.Side(true), "a") && Running(p.Side(true), "b")
    && p.workers["a"].coreId == Some(Format(1)) && p.workers["b"].coreId == Some(Format(1))
  }

  lemma Seen(mapping: Option<Mapping>, records: map<string, Option<CoreId>>, a: CrashSafety.Worker,
             b: CrashSafety.Worker, one: Leading, two: Leading)
    ensures At(mapping, records, a, Some(b), one, two).Side(true).leader == one
    ensures At(mapping, records, a, Some(b), one, two).Side(false).leader == two
    ensures a == b == Told() ==> Shared(At(mapping, records, a, Some(b), one, two))
  {
  }

  /** Two running processes get one id though each leader reassigns at once after it has read:
      the other still has something to write. */
  lemma OverlapSharesCoreStore() returns (ps: seq<Pair>, steps: seq<(bool, Action)>)
    ensures Run2(ps, steps) && Shared(ps[|steps|])
    ensures forall n :: 0 <= n < |steps| && steps[n].1.Reassigning? ==> Fresh(steps, n, steps[n].0)
  {
    hide Step2, Init, Format, PlanA, Schedule.Writes, RecordA, RecordAB, Ids, Told, Asked, Shared;
    var pa, pb := PlanA(), PlanB();
    var one, two := Leading(Some(pa.after), [A], pa.Writes()), Leading(Some(pb.after), [B, A], pb.Writes());
    var done := Leading(Some(pa.after), [A], []);
    var last := Leading(Some(pb.after), [B, A], pb.puts[1..]);
    FirstTracks();
    FirstPlans(None, NONE);
    SecondStarts(one);
    SecondTracks(one);
    SecondPlans(At(Some(map[]), map[], NEW, Some(NEW), one, Leading(Some(map[]), [B, A], [])));
    FirstWrites(two);
    FirstTells(Some(pa.after), done, two);
    SecondWrites(done, Some(pa.after));
    SecondTells(Some(pb.after), done, last);
    Seen(Some(pb.after), RecordAB(), Told(), Told(), done, last);
    ps := [Pair(Store(None, map[], map[]), map[], NONE, NONE),
           At(None, map[], NEW, None, NONE, NONE),
           At(Some(map[]), map[], NEW, None, Leading(Some(map[]), [A], []), NONE),
           At(Some(map[]), map[], NEW, None, one, NONE),
           At(Some(map[]), map[], NEW, Some(NEW), one, NONE),
           At(Some(map[]), map[], NEW, Some(NEW), one, Leading(Some(map[]), [B, A], [])),
           At(Some(map[]), map[], NEW, Some(NEW), one, two),
           At(Some(pa.after), map[], NEW, Some(NEW), Leading(Some(pa.after), [A], pa.puts), two),
           At(Some(pa.after), RecordA(), NEW, Some(NEW), done, two),
           At(Some(pa.after), RecordA(), Asked(), Some(NEW), done, two),
           At(Some(pa.after), RecordA(), Told(), Some(NEW), done, two),
           At(Some(pb.after), RecordA(), Told(), Some(NEW), done, Leading(Some(pb.after), [B, A], pb.puts)),
           At(Some(pb.after), RecordAB(), Told(), Some(NEW), done, last),
           At(Some(pb.after), RecordAB(), Told(), Some(Asked()), done, last),
           At(Some(pb.after), RecordAB(), Told(), Some(Told()), done, last)];
    steps := [(true, Start("a", "h")), (true, Track([A])), (true, Reassigning([], pa)),
              (false, Start("b", "h")), (false, Track([B, A])), (false, Reassigning([], pb)),
              (true, WriteNext), (true, WriteNext), (true, PollRead("a")), (true, PollHandle("a")),
              (false, WriteNext), (false, WriteNext), (false, PollRead("b")), (false, PollHandle("b"))];
  }

  /** The same though a leader reassigns only when the other has nothing left to write:
      it read the mapping before the other wrote it. */
  lemma StaleSharesCoreStore() returns (ps: seq<Pair>, steps: seq<(bool, Action)>)
    ensures Run2(ps, steps) && Shared(ps[|steps|])
    ensures forall n :: 0 <= n < |steps| && steps[n].1.Reassigning? ==>
              ps[n].Side(!steps[n].0).leader.pending == []
  {
    hide Step2, Init, Format, PlanA, Schedule.Writes, RecordA, RecordAB, Ids, Told, Asked, Shared;
    var pa, pb := PlanA(), PlanB();
    var one, two := Leading(Some(map[]), [A], []), Leading(Some(map[]), [B, A], []);
    var done := Leading(Some(pa.after), [A], []);
    var next := Leading(Some(pb.after), [B, A], pb.Writes());
    var last := Leading(Some(pb.after), [B, A], pb.puts[1..]);
    FirstTracks();
    SecondStarts(one);
    SecondTracks(one);
    FirstPlans(Some(NEW), two);
    FirstWrites(two);
    FirstTells(Some(pa.after), done, two);
    Seen(Some(map[]), map[], NEW, NEW, one, two);
    Seen(Some(pa.after), RecordA(), Told(), NEW, done, two);
    SecondPlans(At(Some(pa.after), RecordA(), Told(), Some(NEW), done, two));
    SecondWrites(done, Some(pa.after));
    SecondTells(Some(pb.after), done, last);
    Seen(Some(pb.after), RecordAB(), Told(), Told(), done, last);
    ps := [Pair(Store(None, map[], map[]), map[], NONE, NONE),
           At(None, map[], NEW, None, NONE, NONE),
           At(Some(map[]), map[], NEW, None, one, NONE),
           At(Some(map[]), map[], NEW, Some(NEW), one, NONE),
           At(Some(map[]), map[], NEW, Some(NEW), one, two),
           At(Some(map[]), map[], NEW, Some(NEW), Leading(Some(pa.after), [A], pa.Writes()), two),
           At(Some(pa.after), map[], NEW, Some(NEW), Leading(Some(pa.after), [A], pa.puts), two),
           At(Some(pa.after), RecordA(), NEW, Some(NEW), done, two),
           At(Some(pa.after), RecordA(), Asked(), Some(NEW), done, two),
           At(Some(pa.after), RecordA(), Told(), Some(NEW), done, two),
           At(Some(pa.after), RecordA(), Told(), Some(NEW), done, next),
           At(Some(pb.after), RecordA(), Told(), Some(NEW), done, Leading(Some(pb.after), [B, A], pb.puts)),
           At(Some(pb.after), RecordAB(), Told(), Some(NEW), done, last),
           At(Some(pb.after), RecordAB(), Told(), Some(Asked()), done, last),
           At(Some(pb.after), RecordAB(), Told(), Some(Told()), done, last)];
    steps := [(true, Start("a", "h")), (true, Track([A])), (false, Start("b", "h")), (false, Track([B, A])),
              (true, Reassigning([], pa)), (true, WriteNext), (true, WriteNext),
              (true, PollRead("a")), (true, PollHandle("a")), (false, Reassigning([], pb)),
              (false, WriteNext), (false, WriteNext), (false, PollRead("b")), (false, PollHandle("b"))];
  }
}
