/** Flow matching and selection of the PON simulator (ponsim/ponsim.py). */
module PonFlows {
  import opened Collections

  datatype Tag = Tag(vid: nat, pcp: nat, etype: nat)
  datatype Ip = Ip(proto: nat, dst: string)
  datatype Udp = Udp(sport: nat, dport: nat)
  datatype Payload = Payload(size: nat, ip: Option<Ip>, udp: Option<Udp>)

  /** An Ethernet frame; the outermost VLAN tag comes first and carries the type that follows it. */
  datatype Frame = Frame(src: string, dst: string, etype: nat, tags: seq<Tag>, payload: Payload)

  datatype Field =
    | InPort(port: nat)
    | EthType(etype: nat)
    | IpProto(proto: nat)
    | VlanVid(vid: nat)
    | VlanPcp(pcp: nat)
    | Ipv4Dst(address: nat)
    | UdpSrc(port: nat)
    | UdpDst(port: nat)
    | Metadata
    | Unsupported

  datatype Action =
    | Output(port: nat)
    | PopVlan
    | PushVlan(etype: nat)
    | SetVid(vid: nat)
    | SetPcp(pcp: nat)
    | UnsupportedAction

  datatype Flow = Flow(priority: nat, fields: seq<Field>, actions: seq<Action>)

  // ------------------------------------------------------------------ matching

  function Decimal(n: nat): string {
    if n < 10 then [(('0' as int) + n) as char] else Decimal(n / 10) + [(('0' as int) + n % 10) as char]
  }

  /** `ipv4int2str`. */
  function Dotted(a: nat): string {
    Decimal(a / 0x1000000 % 256) + "." + Decimal(a / 0x10000 % 256) + "." +
    Decimal(a / 0x100 % 256) + "." + Decimal(a % 256)
  }

  /** The bit a matched field contributes; IP_PROTO = 34 shares a bit with UDP_SRC. */
  function Bit(f: Field): bv8 {
    match f
    case UdpDst(_) => 1
    case UdpSrc(_) => 2
    case Ipv4Dst(_) => 4
    case VlanPcp(_) => 8
    case VlanVid(_) => 16
    case IpProto(_) => 34
    case EthType(_) => 64
    case InPort(_) => 128
    case _ => 0
  }

  predicate FieldMatches(f: Field, port: nat, frame: Frame) {
    match f
    case InPort(p) => p == port
    case EthType(t) => t == (if frame.tags != [] then frame.tags[0].etype else frame.etype)
    case IpProto(p) => frame.payload.ip.Some? && p == frame.payload.ip.value.proto
    case VlanVid(v) =>
      (v / 4096 % 2 == 1) == (frame.tags != []) && (frame.tags != [] ==> frame.tags[0].vid == v % 4096)
    case VlanPcp(p) => frame.tags != [] && p == frame.tags[0].pcp
    case Ipv4Dst(a) => frame.payload.ip.Some? && Dotted(a) == frame.payload.ip.value.dst
    case UdpSrc(p) => frame.payload.udp.Some? && p == frame.payload.udp.value.sport
    case UdpDst(p) => frame.payload.udp.Some? && p == frame.payload.udp.value.dport
    case Metadata => true
    case Unsupported => false
  }

  datatype Match = Raises | Mask(mask: nat)

  function OrBits(fields: seq<Field>): bv8 {
    if fields == [] then 0 else OrBits(fields[..|fields| - 1]) | Bit(fields[|fields| - 1])
  }

  predicate AllMatch(fields: seq<Field>, port: nat, frame: Frame) {
    forall i :: 0 <= i < |fields| ==> FieldMatches(fields[i], port, frame)
  }

  /** An unsupported field is reached: all fields before it match. */
  predicate Chokes(fields: seq<Field>, port: nat, frame: Frame) {
    exists k :: 0 <= k < |fields| && fields[k].Unsupported? && AllMatch(fields[..k], port, frame)
  }

  /** The value of a match: raised, the union of all bits, or zero on any mismatch. */
  function MatchOf(flow: Flow, port: nat, frame: Frame): Match {
    if Chokes(flow.fields, port, frame) then Raises
    else if AllMatch(flow.fields, port, frame) then Mask(OrBits(flow.fields) as nat)
    else Mask(0)
  }

  /** `is_match`: one pass with early returns. */
  method IsMatch(flow: Flow, port: nat, frame: Frame) returns (r: Match)
    ensures r == MatchOf(flow, port, frame)
  {
    hide FieldMatches, Bit;
    var mask: bv8 := 0;
    for i := 0 to |flow.fields|
      invariant AllMatch(flow.fields[..i], port, frame)
      invariant forall k :: 0 <= k < i ==> !flow.fields[k].Unsupported?
      invariant mask == OrBits(flow.fields[..i])
    {
      var f := flow.fields[i];
      assert flow.fields[..i + 1][..i] == flow.fields[..i];
      if f.Unsupported? {
        return Raises;
      }
      if !FieldMatches(f, port, frame) {
        NoChoke(flow.fields, i, port, frame);
        return Mask(0);
      }
      mask := mask | Bit(f);
    }
    assert flow.fields[..|flow.fields|] == flow.fields;
    return Mask(mask as nat);
  }

  lemma NoChoke(fields: seq<Field>, i: nat, port: nat, frame: Frame)
    requires i < |fields| && !FieldMatches(fields[i], port, frame) && !fields[i].Unsupported?
    requires forall k :: 0 <= k < i ==> !fields[k].Unsupported?
    ensures !Chokes(fields, port, frame) && !AllMatch(fields, port, frame)
  {
    forall k | 0 <= k < |fields| && fields[k].Unsupported?
      ensures !AllMatch(fields[..k], port, frame)
    {
      assert fields[..k][i] == fields[i];
    }
  }

  /** A flow matches with a non-zero mask exactly when all its fields match and one of
      them is more than metadata; so a flow without such a field never matches. */
  lemma NonZeroMask(flow: Flow, port: nat, frame: Frame)
    requires !Chokes(flow.fields, port, frame)
    ensures MatchOf(flow, port, frame) != Mask(0) <==>
            AllMatch(flow.fields, port, frame) && exists i :: 0 <= i < |flow.fields| && !flow.fields[i].Metadata?
  {
    if AllMatch(flow.fields, port, frame) {
      OrIsZero(flow.fields, port, frame);
    }
  }

  lemma {:induction false} OrIsZero(fields: seq<Field>, port: nat, frame: Frame)
    requires AllMatch(fields, port, frame)
    ensures OrBits(fields) == 0 <==> forall i :: 0 <= i < |fields| ==> fields[i].Metadata?
  {
    if fields != [] {
      var n := |fields| - 1;
      OrIsZero(fields[..n], port, frame);
      assert forall i :: 0 <= i < n ==> fields[..n][i] == fields[i];
      assert FieldMatches(fields[n], port, frame);
      OrZero(OrBits(fields[..n]), Bit(fields[n]));
    }
  }

  lemma OrZero(a: bv8, b: bv8)
    ensures a | b == 0 <==> a == 0 && b == 0
  {
  }

  // ----------------------------------------------------------------- selection

  datatype Choice = Raised | Dropped | Picked(flow: Flow)

  predicate Hits(f: Flow, port: nat, frame: Frame) {
    var m := MatchOf(f, port, frame);
    m.Mask? && m.mask > 0
  }

  /** Higher priority, then larger mask. */
  predicate Better(f: Flow, g: Flow, port: nat, frame: Frame)
    requires Hits(f, port, frame) && Hits(g, port, frame)
  {
    || f.priority > g.priority
    || (f.priority == g.priority && MatchOf(f, port, frame).mask > MatchOf(g, port, frame).mask)
  }

  /** `flows[i]` hits, nothing is better, and everything before it is worse. */
  ghost predicate IsBest(flows: seq<Flow>, i: int, port: nat, frame: Frame) {
    && 0 <= i < |flows| && Hits(flows[i], port, frame)
    && (forall j :: 0 <= j < |flows| && Hits(flows[j], port, frame) ==> !Better(flows[j], flows[i], port, frame))
    && (forall j :: 0 <= j < i && Hits(flows[j], port, frame) ==> Better(flows[i], flows[j], port, frame))
  }

  ghost predicate NoHit(flows: seq<Flow>, port: nat, frame: Frame) {
    forall f :: f in flows ==> !Hits(f, port, frame)
  }

  /** A flow with a reachable unsupported field is looked at: no hit has higher priority. */
  ghost predicate Aborts(flows: seq<Flow>, port: nat, frame: Frame) {
    exists f :: f in flows && MatchOf(f, port, frame).Raises? &&
      forall g :: g in flows && Hits(g, port, frame) ==> g.priority <= f.priority
  }

  /** The plain definition of selection over the flows as installed. */
  ghost predicate IsChoice(flows: seq<Flow>, port: nat, frame: Frame, c: Choice) {
    match c
    case Raised => Aborts(flows, port, frame)
    case Dropped => !Aborts(flows, port, frame) && NoHit(flows, port, frame)
    case Picked(f) => !Aborts(flows, port, frame) && exists i :: IsBest(flows, i, port, frame) && flows[i] == f
  }

  lemma {:induction false} ProtoBit(fields: seq<Field>, i: nat)
    requires i < |fields| && fields[i].IpProto?
    ensures OrBits(fields) | 2 == OrBits(fields)
  {
    var n := |fields| - 1;
    var a, b := OrBits(fields[..n]), Bit(fields[n]);
    if i < n {
      ProtoBit(fields[..n], i);
      assert (a | b) | 2 == (a | 2) | b;
    } else {
      assert (a | 34) | 2 == a | 34;
    }
  }

  /** The price of the shared bit: matching the UDP source port as well does not make a flow
      that matches the IP protocol any better. */
  lemma SharedBitTies(f: Flow, g: Flow, i: nat, sport: nat, port: nat, frame: Frame)
    requires f.fields == g.fields + [UdpSrc(sport)] && i < |g.fields| && g.fields[i].IpProto?
    requires f.priority == g.priority
    requires Hits(f, port, frame) && Hits(g, port, frame)
    ensures !Better(f, g, port, frame) && !Better(g, f, port, frame)
  {
    ProtoBit(g.fields, i);
    assert f.fields[..|g.fields|] == g.fields;
  }

  lemma ChoiceUnique(flows: seq<Flow>, port: nat, frame: Frame, c: Choice, d: Choice)
    requires IsChoice(flows, port, frame, c) && IsChoice(flows, port, frame, d)
    ensures c == d
  {
    hide MatchOf;
    if c.Picked? && d.Picked? {
      var i :| IsBest(flows, i, port, frame) && flows[i] == c.flow;
      var j :| IsBest(flows, j, port, frame) && flows[j] == d.flow;
    }
  }

  // --------------------------------------------------------------- sorted table

  predicate Descending(flows: seq<Flow>) {
    forall i, j :: 0 <= i < j < |flows| ==> flows[i].priority >= flows[j].priority
  }

  /** The number of leading flows that are not overtaken by `x`. */
  function Position(x: Flow, s: seq<Flow>): (p: nat)
    ensures p <= |s|
    ensures forall i :: 0 <= i < p ==> s[i].priority >= x.priority
    ensures p < |s| ==> s[p].priority < x.priority
  {
    if s == [] || s[0].priority < x.priority then 0 else 1 + Position(x, s[1..])
  }

  function Insert(x: Flow, s: seq<Flow>): seq<Flow> {
    var p := Position(x, s);
    s[..p] + [x] + s[p..]
  }

  /** `sorted(flows, key=priority, reverse=True)`, which keeps equal priorities in order. */
  function SortDesc(flows: seq<Flow>): seq<Flow> {
    if flows == [] then [] else Insert(flows[|flows| - 1], SortDesc(flows[..|flows| - 1]))
  }

  lemma InsertDescending(x: Flow, s: seq<Flow>)
    requires Descending(s)
    ensures Descending(Insert(x, s)) && multiset(Insert(x, s)) == multiset(s) + multiset{x}
  {
    hide Position;
    var p := Position(x, s);
    assert s == s[..p] + s[p..];
  }

  lemma {:induction false} SortIsDescending(flows: seq<Flow>)
    ensures Descending(SortDesc(flows)) && multiset(SortDesc(flows)) == multiset(flows)
  {
    hide Descending, Insert;
    if flows == [] {
      NothingDescends();
    } else {
      var n := |flows| - 1;
      SortIsDescending(flows[..n]);
      InsertDescending(flows[n], SortDesc(flows[..n]));
      assert flows == flows[..n] + [flows[n]];
    }
  }

  lemma NothingDescends()
    ensures Descending([])
  {
  }

  ghost predicate BestFlow(flows: seq<Flow>, f: Flow, port: nat, frame: Frame) {
    exists i :: IsBest(flows, i, port, frame) && flows[i] == f
  }

  /** Whether `x`, arriving last, takes over from the best flow so far. */
  predicate TakesOver(x: Flow, best: Option<Flow>, port: nat, frame: Frame)
    requires best.Some? ==> Hits(best.value, port, frame)
  {
    Hits(x, port, frame) && (best.Some? ==> Better(x, best.value, port, frame))
  }

  ghost predicate IsBestSoFar(flows: seq<Flow>, best: Option<Flow>, port: nat, frame: Frame) {
    match best
    case None => NoHit(flows, port, frame)
    case Some(f) => Hits(f, port, frame) && BestFlow(flows, f, port, frame)
  }

  lemma NewBest(s: seq<Flow>, p: nat, x: Flow, best: Option<Flow>, port: nat, frame: Frame)
    requires p <= |s| && IsBestSoFar(s, best, port, frame) && TakesOver(x, best, port, frame)
    ensures IsBest(s[..p] + [x] + s[p..], p, port, frame)
  {
    hide MatchOf;
    var t := s[..p] + [x] + s[p..];
    assert forall j :: 0 <= j < |t| && j != p ==> t[j] in s;
    if best.Some? {
      var i :| IsBest(s, i, port, frame) && s[i] == best.value;
    }
  }

  lemma OldBest(s: seq<Flow>, p: nat, x: Flow, i: int, port: nat, frame: Frame)
    requires p <= |s| && IsBest(s, i, port, frame)
    requires Hits(x, port, frame) ==> !Better(x, s[i], port, frame)
    requires forall j :: p <= j < |s| ==> s[j].priority < x.priority
    ensures var t := s[..p] + [x] + s[p..];
            var i' := if i < p then i else i + 1;
            IsBest(t, i', port, frame) && t[i'] == s[i]
  {
    hide MatchOf;
    var t := s[..p] + [x] + s[p..];
    var i' := if i < p then i else i + 1;
    assert t[i'] == s[i];
    forall j | 0 <= j < |t| && Hits(t[j], port, frame)
      ensures !Better(t[j], s[i], port, frame) && (j < i' ==> Better(s[i], t[j], port, frame))
    {
      if j != p {
        var k := if j < p then j else j - 1;
        assert t[j] == s[k];
      }
    }
  }

  /** Adding `x` at a place where only flows of at least its priority precede it and only
      flows of lower priority follow. */
  lemma BestInsertAt(s: seq<Flow>, p: nat, x: Flow, best: Option<Flow>, port: nat, frame: Frame)
    requires p <= |s| && IsBestSoFar(s, best, port, frame)
    requires forall j :: p <= j < |s| ==> s[j].priority < x.priority
    ensures IsBestSoFar(s[..p] + [x] + s[p..], if TakesOver(x, best, port, frame) then Some(x) else best, port, frame)
  {
    hide MatchOf;
    var t := s[..p] + [x] + s[p..];
    if TakesOver(x, best, port, frame) {
      NewBest(s, p, x, best, port, frame);
    } else if best.Some? {
      var i :| IsBest(s, i, port, frame) && s[i] == best.value;
      OldBest(s, p, x, i, port, frame);
    }
  }

  /** Sorting does not change which flow is best. */
  lemma {:induction false} SortKeepsBest(flows: seq<Flow>, port: nat, frame: Frame) returns (best: Option<Flow>)
    ensures IsBestSoFar(flows, best, port, frame) && IsBestSoFar(SortDesc(flows), best, port, frame)
  {
    hide Hits, Better, IsBestSoFar, Descending;
    if flows == [] {
      NothingBest(port, frame);
      best := None;
    } else {
      var n := |flows| - 1;
      var x, s := flows[n], SortDesc(flows[..n]);
      var b := SortKeepsBest(flows[..n], port, frame);
      HitOfBest(s, b, port, frame);
      best := if TakesOver(x, b, port, frame) then Some(x) else b;
      BestInsertAt(flows[..n], n, x, b, port, frame);
      assert flows[..n][..n] + [x] + flows[..n][n..] == flows;
      SortIsDescending(flows[..n]);
      FollowersAreLower(x, s);
      BestInsertAt(s, Position(x, s), x, b, port, frame);
    }
  }

  lemma NothingBest(port: nat, frame: Frame)
    ensures IsBestSoFar([], None, port, frame)
  {
  }

  lemma HitOfBest(s: seq<Flow>, best: Option<Flow>, port: nat, frame: Frame)
    requires IsBestSoFar(s, best, port, frame)
    ensures best.Some? ==> Hits(best.value, port, frame)
  {
  }

  lemma FollowersAreLower(x: Flow, s: seq<Flow>)
    requires Descending(s)
    ensures forall j :: Position(x, s) <= j < |s| ==> s[j].priority < x.priority
  {
    hide Position;
  }

  /** Selection over the sorted table is selection over the flows as installed. */
  lemma SortKeepsChoice(flows: seq<Flow>, port: nat, frame: Frame, c: Choice)
    requires IsChoice(SortDesc(flows), port, frame, c)
    ensures IsChoice(flows, port, frame, c)
  {
    hide Hits, Better, SortDesc, IsBest;
    SortIsDescending(flows);
    SameMembers(SortDesc(flows), flows);
    var best := SortKeepsBest(flows, port, frame);
    if c.Picked? {
      ChoiceIsBest(SortDesc(flows), port, frame, c, best);
    }
  }

  lemma SameMembers(a: seq<Flow>, b: seq<Flow>)
    requires multiset(a) == multiset(b)
    ensures forall f :: f in a <==> f in b
  {
    forall f
      ensures f in a <==> f in b
    {
      assert f in multiset(a) <==> f in multiset(b);
    }
  }

  lemma ChoiceIsBest(flows: seq<Flow>, port: nat, frame: Frame, c: Choice, best: Option<Flow>)
    requires IsChoice(flows, port, frame, c) && c.Picked? && IsBestSoFar(flows, best, port, frame)
    ensures best == Some(c.flow)
  {
    hide MatchOf;
    var i :| IsBest(flows, i, port, frame) && flows[i] == c.flow;
    if best.Some? {
      var j :| IsBest(flows, j, port, frame) && flows[j] == best.value;
    }
  }

  /** The scan of `process_frame`, with its early exit. By `SortKeepsChoice` its
      choice on the sorted list is the one that the plain definition makes on the list as given. */
  method Select(flows: seq<Flow>, port: nat, frame: Frame) returns (c: Choice)
    requires Descending(flows)
    ensures IsChoice(flows, port, frame, c)
  {
    hide MatchOf, Chokes, AllMatch, OrBits;
    var matchedMask := 0;
    var highest := 0;
    var matched: Option<Flow> := None;
    for i := 0 to |flows|
      invariant forall j :: 0 <= j < i ==> flows[j].priority >= highest && MatchOf(flows[j], port, frame).Mask?
      invariant 0 < i ==> highest == flows[i - 1].priority
      invariant IsBestSoFar(flows[..i], matched, port, frame)
      invariant matched.Some? ==> 0 < i && matched.value.priority == highest
      invariant matchedMask == if matched.Some? then MatchOf(matched.value, port, frame).mask else 0
    {
      var f := flows[i];
      assert flows[..i][..i] + [f] + flows[..i][i..] == flows[..i + 1];
      if matched.Some? && f.priority < highest {
        StopEarly(flows, i, matched.value, port, frame);
        return Picked(matched.value);
      }
      highest := f.priority;
      var m := IsMatch(f, port, frame);
      if m.Raises? {
        RaisesHere(flows, i, matched, port, frame);
        return Raised;
      }
      BestInsertAt(flows[..i], i, f, matched, port, frame);
      if m.mask > matchedMask {
        matchedMask, matched := m.mask, Some(f);
      }
    }
    assert flows[..|flows|] == flows;
    c := if matched.Some? then Picked(matched.value) else Dropped;
  }

  /** Everything from a lower priority on is irrelevant once there is a hit. */
  lemma StopEarly(flows: seq<Flow>, i: nat, f: Flow, port: nat, frame: Frame)
    requires Descending(flows) && 0 < i < |flows| && BestFlow(flows[..i], f, port, frame)
    requires flows[i].priority < flows[i - 1].priority
    requires forall j :: 0 <= j < i ==> MatchOf(flows[j], port, frame).Mask?
    ensures IsChoice(flows, port, frame, Picked(f))
  {
    hide MatchOf;
    var k :| IsBest(flows[..i], k, port, frame) && flows[..i][k] == f;
    assert forall j :: 0 <= j < i ==> flows[..i][j] == flows[j];
    assert f.priority >= flows[i - 1].priority;
    assert forall j :: i <= j < |flows| ==> flows[j].priority <= flows[i].priority;
    assert IsBest(flows, k, port, frame);
    forall g | g in flows && MatchOf(g, port, frame).Raises?
      ensures f in flows && Hits(f, port, frame) && f.priority > g.priority
    {
      var j :| 0 <= j < |flows| && flows[j] == g;
    }
  }

  lemma RaisesHere(flows: seq<Flow>, i: nat, matched: Option<Flow>, port: nat, frame: Frame)
    requires Descending(flows) && i < |flows| && IsBestSoFar(flows[..i], matched, port, frame)
    requires matched.Some? ==> matched.value.priority <= flows[i].priority
    requires MatchOf(flows[i], port, frame).Raises?
    ensures IsChoice(flows, port, frame, Raised)
  {
    hide MatchOf;
    forall g | g in flows && Hits(g, port, frame)
      ensures g.priority <= flows[i].priority
    {
      var j :| 0 <= j < |flows| && flows[j] == g;
      if j < i {
        assert flows[..i][j] == g;
        if matched.Some? {
          var k :| IsBest(flows[..i], k, port, frame) && flows[..i][k] == matched.value;
        }
      }
    }
    assert flows[i] in flows;
  }
}
