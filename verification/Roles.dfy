/** Controller roles and generation ids (ofagent/of_protocol_handler.py, ofagent/agent.py). */
module Roles {
  import opened Collections

  const TWO63 := 0x8000_0000_0000_0000
  const TWO64 := 0x1_0000_0000_0000_0000

  datatype Role = NoChange | Equal | Master | Slave

  /** What a handler does with a request. */
  datatype Reply = Silent | RoleReply(role: Role, generation: Option<nat>) | Stale | IsSlave | Forwarded

  /** The two's complement value of a number's low 64 bits. */
  function Signed64(x: int): int {
    var m := x % TWO64;
    if m < TWO63 then m else m - TWO64
  }

  /** The staleness test as the agent computes it. */
  function Distance(generation: nat, cached: nat): int {
    var diff: int := generation - cached;
    if diff > 0x7fff_ffff_ffff_ffff || -diff > 0x7fff_ffff_ffff_ffff then diff % TWO64 else diff
  }

  predicate IsStale(generation: nat, cached: Option<nat>) {
    cached.Some? && Distance(generation, cached.value) < 0
  }

  /** A request is rejected exactly when it is behind by less than 2^63. */
  lemma StaleIff(generation: nat, cached: nat)
    ensures IsStale(generation, Some(cached)) <==> -TWO63 < generation - cached < 0
  {
  }

  /** Section 6.3.4 of the OpenFlow Switch Specification 1.3.0 takes the signed 64-bit difference. */
  predicate IsStaleBySpecification(generation: nat, cached: nat) { Signed64(generation - cached) < 0 }

  /** The two agree for all 64-bit ids except when the request is behind by exactly 2^63 or
      ahead by 2^63 or more. */
  lemma AgreesWithSpecification(generation: nat, cached: nat)
    requires generation < TWO64 && cached < TWO64
    ensures (IsStale(generation, Some(cached)) <==> IsStaleBySpecification(generation, cached)) <==>
            !(generation - cached == -TWO63 || generation - cached >= TWO63)
  {
    var diff := generation - cached;
    if diff < 0 {
      assert diff % TWO64 == diff + TWO64;
    } else {
      assert diff % TWO64 == diff;
    }
  }

  /** Both ways of disagreeing occur: a request behind by exactly 2^63 is stale by the specification,
      and so is one ahead by that much, but neither is rejected. */
  lemma StaleButAccepted()
    ensures !IsStale(0, Some(TWO63)) && IsStaleBySpecification(0, TWO63)
    ensures !IsStale(TWO63, Some(0)) && IsStaleBySpecification(TWO63, 0)
  {
    AgreesWithSpecification(0, TWO63);
    AgreesWithSpecification(TWO63, 0);
    StaleIff(0, TWO63);
    StaleIff(TWO63, 0);
  }

  // ----------------------------------------------------------------- the objects

  /** The generation id belongs to the agent and outlives connections. */
  class Agent {
    var generation: Option<nat>

    constructor ()
      ensures generation == None
    {
      generation := None;
    }
  }

  /** The role belongs to the handler of one connection. */
  class ProtocolHandler {
    const agent: Agent
    var role: Option<Role>

    constructor (agent: Agent)
      ensures this.agent == agent && role == None
    {
      this.agent, role := agent, None;
    }

    method HandleRoleRequest(asked: Role, generation: nat) returns (reply: Reply)
      modifies this, agent
      ensures (reply, State(agent.generation, role)) ==
                Handle(State(old(agent.generation), old(role)), RoleRequest(asked, generation))
    {
      reply := Silent;
      if asked == Master || asked == Slave {
        if agent.generation.Some? && Distance(generation, agent.generation.value) < 0 {
          reply := Stale;
        } else {
          agent.generation := Some(generation);
          role := Some(asked);
          reply := RoleReply(asked, Some(generation));
        }
      } else if asked == Equal {
        role := Some(asked);
        reply := RoleReply(asked, None);
      }
    }

    /** Flow mod, group mod, packet out and port mod all start with this test. */
    method HandleUpdate() returns (reply: Reply)
      ensures (reply, State(agent.generation, role)) == Handle(State(agent.generation, role), Update)
    {
      if role == Some(Master) || role == Some(Equal) {
        return Forwarded;
      } else if role == Some(Slave) {
        return IsSlave;
      }
      reply := Silent;
    }
  }

  // ---------------------------------------------------------------- whole runs

  datatype State = State(generation: Option<nat>, role: Option<Role>)

  datatype Event = RoleRequest(role: Role, generation: nat) | Update | Reconnect

  predicate IsClaim(e: Event) { e.RoleRequest? && (e.role == Master || e.role == Slave) }

  function Handle(s: State, e: Event): (Reply, State) {
    match e
    case RoleRequest(r, g) =>
      if IsClaim(e) then
        if IsStale(g, s.generation) then (Stale, s) else (RoleReply(r, Some(g)), State(Some(g), Some(r)))
      else if r == Equal then (RoleReply(r, None), s.(role := Some(r)))
      else (Silent, s)
    case Update =>
      var forward := s.role == Some(Master) || s.role == Some(Equal);
      (if forward then Forwarded else if s.role == Some(Slave) then IsSlave else Silent, s)
    case Reconnect => (Silent, s.(role := None))
  }

  function After(events: seq<Event>): State {
    if events == [] then State(None, None)
    else Handle(After(events[..|events| - 1]), events[|events| - 1]).1
  }

  /** The reply to the event at `i`. */
  function ReplyTo(events: seq<Event>, i: nat): Reply
    requires i < |events|
  {
    Handle(After(events[..i]), events[i]).0
  }

  /** Event `i` was answered with a role reply. */
  predicate Accepted(events: seq<Event>, i: nat)
    requires i < |events|
  {
    ReplyTo(events, i).RoleReply?
  }

  lemma PrefixReplies(events: seq<Event>, n: nat)
    requires n <= |events|
    ensures forall i :: 0 <= i < n ==> ReplyTo(events[..n], i) == ReplyTo(events, i)
  {
    forall i | 0 <= i < n
      ensures ReplyTo(events[..n], i) == ReplyTo(events, i)
    {
      assert events[..n][..i] == events[..i];
    }
  }

  /** Event `i` is the last accepted MASTER or SLAVE request. */
  ghost predicate IsLastClaim(events: seq<Event>, i: int) {
    && 0 <= i < |events| && IsClaim(events[i]) && Accepted(events, i)
    && forall j :: i < j < |events| && IsClaim(events[j]) ==> !Accepted(events, j)
  }

  /** The cached id is that of the last accepted claim; there is none exactly before the first claim. */
  lemma {:induction false} GenerationIsLastAccepted(events: seq<Event>)
    ensures match After(events).generation
            case None => forall i :: 0 <= i < |events| ==> !IsClaim(events[i])
            case Some(g) => exists i :: IsLastClaim(events, i) && events[i].generation == g
  {
    hide Distance;
    if events != [] {
      var n := |events| - 1;
      GenerationIsLastAccepted(events[..n]);
      PrefixReplies(events, n);
      if IsClaim(events[n]) && Accepted(events, n) {
        assert IsLastClaim(events, n);
      } else if After(events[..n]).generation.Some? {
        var i :| IsLastClaim(events[..n], i) && events[i].generation == After(events[..n]).generation.value;
        assert IsLastClaim(events, i);
      }
    }
  }

  /** Event `i` is the last accepted role request, and the connection it came on is still up. */
  ghost predicate IsRuling(events: seq<Event>, i: int) {
    && 0 <= i < |events| && events[i].RoleRequest? && Accepted(events, i)
    && forall j :: i < j < |events| ==> !events[j].Reconnect? && !Accepted(events, j)
  }

  lemma {:induction false} RoleIsLastAccepted(events: seq<Event>)
    ensures match After(events).role
            case None => forall i :: !IsRuling(events, i)
            case Some(r) => exists i :: IsRuling(events, i) && events[i].role == r
  {
    hide Distance;
    if events != [] {
      var n := |events| - 1;
      RoleIsLastAccepted(events[..n]);
      PrefixReplies(events, n);
      if Accepted(events, n) {
        assert IsRuling(events, n);
      } else if !events[n].Reconnect? {
        forall i | i < n
          ensures IsRuling(events, i) <==> IsRuling(events[..n], i)
        {
        }
      }
    }
  }

  /** An update is forwarded exactly when the last accepted role request on the current
      connection asked for MASTER or EQUAL. */
  lemma ForwardedIff(events: seq<Event>, i: nat)
    requires i < |events| && events[i].Update?
    ensures ReplyTo(events, i) == Forwarded <==>
            exists k :: IsRuling(events[..i], k) && (events[k].role == Master || events[k].role == Equal)
  {
    RoleIsLastAccepted(events[..i]);
    forall j, k | IsRuling(events[..i], j) && IsRuling(events[..i], k)
      ensures j == k
    {
    }
  }

  /** While all claimed ids lie within 2^63 of each other, the cached id is the largest claimed
      so far and a claim is accepted exactly when no earlier one was larger. */
  lemma NewestWins(events: seq<Event>)
    requires InWindow(events)
    ensures forall i :: 0 <= i < |events| && IsClaim(events[i]) ==>
              After(events).generation.Some? && events[i].generation <= After(events).generation.value
    ensures forall i :: 0 <= i < |events| && IsClaim(events[i]) ==>
              (Accepted(events, i) <==> NoneAbove(events[..i], events[i].generation))
  {
    hide After, ReplyTo;
    CachedIsLargest(events);
    forall i | 0 <= i < |events| && IsClaim(events[i])
      ensures Accepted(events, i) <==> NoneAbove(events[..i], events[i].generation)
    {
      AcceptedIffNewest(events, i);
    }
  }

  /** All claimed ids lie within 2^63 of each other. */
  predicate InWindow(events: seq<Event>) {
    forall i, j :: 0 <= i < |events| && 0 <= j < |events| && IsClaim(events[i]) && IsClaim(events[j]) ==>
      events[i].generation - events[j].generation < TWO63
  }

  lemma AcceptedIffNewest(events: seq<Event>, i: nat)
    requires InWindow(events) && i < |events| && IsClaim(events[i])
    ensures Accepted(events, i) <==> NoneAbove(events[..i], events[i].generation)
  {
    hide After, Distance;
    var before, g := events[..i], events[i].generation;
    CachedIsLargest(before);
    GenerationIsLastAccepted(before);
    var cached := After(before).generation;
    if cached.Some? {
      var k :| IsLastClaim(before, k) && before[k].generation == cached.value;
      assert events[k] == before[k];
      assert cached.value - g < TWO63;
      StaleIff(g, cached.value);
    }
  }

  lemma {:induction false} CachedIsLargest(events: seq<Event>)
    requires InWindow(events)
    ensures var s := After(events); if s.generation.Some? then NoneAbove(events, s.generation.value)
                                    else forall i :: 0 <= i < |events| ==> !IsClaim(events[i])
  {
    hide Distance;
    if events != [] {
      var n := |events| - 1;
      var before, e := events[..n], events[n];
      CachedIsLargest(before);
      GenerationIsLastAccepted(before);
      var cached := After(before).generation;
      if IsClaim(e) && cached.Some? {
        var k :| IsLastClaim(before, k) && before[k].generation == cached.value;
        assert events[k] == before[k];
        assert cached.value - e.generation < TWO63;
        StaleIff(e.generation, cached.value);
      }
    }
  }

  predicate NoneAbove(events: seq<Event>, g: nat) {
    forall i :: 0 <= i < |events| && IsClaim(events[i]) ==> events[i].generation <= g
  }
}
