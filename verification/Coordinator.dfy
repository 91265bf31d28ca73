/** One coordinator: the handlers of the leadership tracking loop between two
    suspensions, as functions of its state and as an object
    (voltha/coordinator.py). */
module Coordination {
  import opened Collections

  type Instance = string
  type Session = nat

  /** The record under the leader key; a released lock has no session. */
  datatype Record = Record(value: Instance, session: Option<Session>, modifyIndex: nat)

  /** Where the tracking loop is suspended. The `...Reply` phases hold an answer that
      has left the store and is not yet handled. */
  datatype Phase =
    | Ready
    | Acquiring
    | Reading(granted: bool)
    | ReadReply(granted: bool, index: nat, record: Option<Record>)
    | Watching(index: nat, last: Record)
    | WatchReply(index: nat, last: Record, newIndex: nat, updated: Option<Record>)
    | Exited

  /** `created` counts the Leader objects made so far, `halted` those stopped; waiters
      are numbered in the order in which they were issued. */
  datatype Coord = Coord(session: Option<Session>, iAmLeader: bool, leaderId: Option<Instance>,
                         shuttingDown: bool, leader: Option<nat>, created: nat, halted: set<nat>,
                         waiters: seq<nat>, issued: nat, fired: seq<(nat, Instance)>, phase: Phase)

  const INITIAL := Coord(None, false, None, false, None, 0, {}, [], 0, [], Ready)

  // ------------------------------------------------------------ specification

  function Fire(waiters: seq<nat>, id: Instance): seq<(nat, Instance)> {
    seq(|waiters|, i requires 0 <= i < |waiters| => (waiters[i], id))
  }

  function WithLeaderId(c: Coord, id: Instance): Coord {
    c.(leaderId := Some(id), waiters := [], fired := c.fired + Fire(c.waiters, id))
  }

  function Halted(c: Coord): Coord {
    if c.leader.Some? then c.(leader := None, halted := c.halted + {c.leader.value}) else c
  }

  function Promoted(c: Coord, me: Instance): Coord {
    if c.iAmLeader then c
    else WithLeaderId(c.(iAmLeader := true), me).(leader := Some(c.created), created := c.created + 1)
  }

  function Demoted(c: Coord, id: Instance): Coord {
    var d := WithLeaderId(c, id);
    if c.iAmLeader then Halted(d.(iAmLeader := false)) else d
  }

  /** The end of one pass of the loop: reschedule, except during shutdown. */
  function Leave(c: Coord): Coord { c.(phase := if c.shuttingDown then Exited else Ready) }

  function AfterRead(c: Coord, me: Instance): Coord
    requires c.phase.ReadReply?
  {
    match c.phase.record
    case None => Leave(c)
    case Some(r) =>
      var watch := Watching(c.phase.index, r);
      if !c.phase.granted then
        var d := Demoted(c, r.value);
        if c.iAmLeader && c.leader.None? then Leave(d) else d.(phase := watch)
      else if r.session.None? then Leave(c)
      else if r.session == c.session then Promoted(c, me).(phase := watch)
      else c.(phase := watch)
  }

  function AfterWatch(c: Coord, me: Instance): Coord
    requires c.phase.WatchReply?
  {
    if c.phase.updated != Some(c.phase.last) then
      Leave(if c.iAmLeader then Demoted(c, me) else c)
    else
      c.(phase := Watching(c.phase.newIndex, c.phase.last))
  }

  function AfterWait(c: Coord): Coord {
    var d := c.(issued := c.issued + 1);
    if c.leaderId.Some? then d.(fired := c.fired + [(c.issued, c.leaderId.value)])
    else d.(waiters := c.waiters + [c.issued])
  }

  // ---------------------------------------------------------- local invariant

  function FiredIds(fired: seq<(nat, Instance)>): seq<nat> {
    seq(|fired|, i requires 0 <= i < |fired| => fired[i].0)
  }

  /** Every waiter issued is pending or has fired, and only once; none pends once a leader is known. */
  ghost predicate WaitersExact(c: Coord) {
    && Distinct(c.waiters + FiredIds(c.fired))
    && (forall n :: n in c.waiters + FiredIds(c.fired) <==> 0 <= n < c.issued)
    && (c.leaderId.Some? ==> c.waiters == [])
  }

  /** All Leader objects but the current one are halted. */
  ghost predicate LeadersHalted(c: Coord) {
    && (forall n :: 0 <= n < c.created ==> (n in c.halted <==> c.leader != Some(n)))
    && (c.leader.Some? ==> c.leader.value < c.created)
    && (forall n :: n in c.halted ==> n < c.created)
  }

  ghost predicate LocalInv(c: Coord, me: Instance) {
    && WaitersExact(c) && LeadersHalted(c)
    && (c.iAmLeader ==> c.phase.Watching? || c.phase.WatchReply?)
    && (c.iAmLeader ==> c.leaderId == Some(me))
    && (c.leader.Some? ==> c.iAmLeader)
  }

  lemma FireAll(c: Coord, id: Instance)
    requires WaitersExact(c)
    ensures WaitersExact(WithLeaderId(c, id))
  {
    var d := WithLeaderId(c, id);
    var f := FiredIds(c.fired);
    assert FiredIds(d.fired) == f + c.waiters;
    assert d.waiters + FiredIds(d.fired) == f + c.waiters;
    DistinctSwap(c.waiters, f);
  }

  lemma DistinctSwap(a: seq<nat>, b: seq<nat>)
    requires Distinct(a + b)
    ensures Distinct(b + a)
    ensures forall n :: n in a + b <==> n in b + a
  {
    forall i, j | 0 <= i < j < |b + a|
      ensures (b + a)[i] != (b + a)[j]
    {
      var i' := if i < |b| then |a| + i else i - |b|;
      var j' := if j < |b| then |a| + j else j - |b|;
      assert (b + a)[i] == (a + b)[i'] && (b + a)[j] == (a + b)[j'];
    }
    assert forall n :: n in a + b <==> n in a || n in b;
    assert forall n :: n in b + a <==> n in a || n in b;
  }

  lemma DistinctSnoc(a: seq<nat>, x: nat)
    requires Distinct(a) && x !in a
    ensures Distinct(a + [x])
    ensures forall n :: n in a + [x] <==> n in a || n == x
  {
  }

  lemma WaitKeeps(c: Coord, me: Instance)
    requires LocalInv(c, me)
    ensures LocalInv(AfterWait(c), me)
  {
    var d := AfterWait(c);
    var f := FiredIds(c.fired);
    DistinctSnoc(c.waiters + f, c.issued);
    if c.leaderId.Some? {
      assert FiredIds(d.fired) == f + [c.issued];
      assert d.waiters + FiredIds(d.fired) == c.waiters + f + [c.issued];
    } else {
      DistinctSwap(c.waiters, f);
      DistinctSnoc(f + c.waiters, c.issued);
      assert f + d.waiters == (f + c.waiters) + [c.issued];
      DistinctSwap(f, d.waiters);
    }
  }

  lemma DemotedKeeps(c: Coord, id: Instance)
    requires WaitersExact(c) && LeadersHalted(c) && (c.leader.Some? ==> c.iAmLeader)
    ensures var d := Demoted(c, id);
            WaitersExact(d) && LeadersHalted(d) && !d.iAmLeader && d.leader.None?
  {
    FireAll(c, id);
  }

  lemma PromotedKeeps(c: Coord, me: Instance)
    requires WaitersExact(c) && LeadersHalted(c) && (c.leader.Some? ==> c.iAmLeader)
    requires c.iAmLeader ==> c.leaderId == Some(me)
    ensures var d := Promoted(c, me);
            WaitersExact(d) && LeadersHalted(d) && d.iAmLeader && d.leaderId == Some(me)
  {
    FireAll(c.(iAmLeader := true), me);
  }

  lemma AfterReadKeeps(c: Coord, me: Instance)
    requires LocalInv(c, me) && c.phase.ReadReply?
    ensures LocalInv(AfterRead(c, me), me)
  {
    hide WithLeaderId, Distinct, FiredIds;
    if c.phase.record.Some? {
      DemotedKeeps(c, c.phase.record.value.value);
      PromotedKeeps(c, me);
    }
  }

  lemma AfterWatchKeeps(c: Coord, me: Instance)
    requires LocalInv(c, me) && c.phase.WatchReply?
    ensures LocalInv(AfterWatch(c, me), me)
  {
    DemotedKeeps(c, me);
  }

  // ------------------------------------------------------------- the object

  class Coordinator {
    const me: Instance
    var session: Option<Session>
    var iAmLeader: bool
    var leaderId: Option<Instance>
    var shuttingDown: bool
    var leader: Option<nat>
    var created: nat
    var halted: set<nat>
    var waiters: seq<nat>
    var issued: nat
    var fired: seq<(nat, Instance)>
    var phase: Phase

    function State(): Coord
      reads this
    {
      Coord(session, iAmLeader, leaderId, shuttingDown, leader, created, halted, waiters, issued, fired, phase)
    }

    constructor (me: Instance)
      ensures this.me == me && State() == INITIAL
    {
      this.me := me;
      session, iAmLeader, leaderId, shuttingDown := None, false, None, false;
      leader, created, halted := None, 0, {};
      waiters, issued, fired, phase := [], 0, [], Ready;
    }

    method WaitForALeader()
      modifies this
      ensures State() == AfterWait(old(State()))
    {
      var d := issued;
      issued := issued + 1;
      if leaderId.Some? {
        fired := fired + [(d, leaderId.value)];
      } else {
        waiters := waiters + [d];
      }
    }

    method SetLeaderId(id: Instance)
      modifies this
      ensures State() == WithLeaderId(old(State()), id)
    {
      leaderId := Some(id);
      var deferreds := waiters;
      waiters := [];
      ghost var before := fired;
      for i := 0 to |deferreds|
        invariant fired == before + Fire(deferreds[..i], id)
        invariant State() == old(State()).(leaderId := Some(id), waiters := [], fired := fired)
      {
        fired := fired + [(deferreds[i], id)];
        assert Fire(deferreds[..i + 1], id) == Fire(deferreds[..i], id) + [(deferreds[i], id)];
      }
      assert deferreds[..|deferreds|] == deferreds;
    }

    method AssertLeadership()
      modifies this
      ensures State() == Promoted(old(State()), me)
    {
      if !iAmLeader {
        iAmLeader := true;
        SetLeaderId(me);
        leader := Some(created);
        created := created + 1;
      }
    }

    /** Raises when there is no Leader object: the local `d` is then unbound. */
    method HaltLeader() returns (ok: bool)
      modifies this
      ensures ok == old(leader).Some? && State() == Halted(old(State()))
    {
      ok := false;
      if leader.Some? {
        halted := halted + {leader.value};
        leader := None;
        ok := true;
      }
    }

    method AssertNonleadership(id: Instance) returns (ok: bool)
      modifies this
      ensures State() == Demoted(old(State()), id)
      ensures ok == (old(iAmLeader) ==> old(leader).Some?)
    {
      SetLeaderId(id);
      ok := true;
      if iAmLeader {
        iAmLeader := false;
        ok := HaltLeader();
      }
    }

    method EndOfPass()
      modifies this`phase
      ensures State() == Leave(old(State()))
    {
      phase := if shuttingDown then Exited else Ready;
    }

    /** The read-back after the acquire attempt. An exception also ends the pass. */
    method OnRead()
      requires phase.ReadReply?
      modifies this
      ensures State() == AfterRead(old(State()), me)
    {
      var granted, index, record := phase.granted, phase.index, phase.record;
      if record.None? {
        EndOfPass();
        return;
      }
      if granted {
        if record.value.session.None? {
          EndOfPass();
          return;
        }
        if record.value.session == session {
          AssertLeadership();
        }
      } else {
        var ok := AssertNonleadership(record.value.value);
        if !ok {
          EndOfPass();
          return;
        }
      }
      phase := Watching(index, record.value);
    }

    method OnWatch()
      requires phase.WatchReply?
      modifies this
      ensures State() == AfterWatch(old(State()), me)
    {
      var last, newIndex, updated := phase.last, phase.newIndex, phase.updated;
      if updated.None? || updated.value != last {
        if iAmLeader {
          var _ := AssertNonleadership(me);
        }
        EndOfPass();
      } else {
        phase := Watching(newIndex, last);
      }
    }
  }
}
