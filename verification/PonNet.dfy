/** One OLT fanned out to any number of ONUs: counters, mutually recursive delivery
    and one frame object shared by all ONUs (ponsim/ponsim.py). */
module PonNet {
  import opened Collections
  import opened PonFlows
  import opened PonActions

  // ------------------------------------------------------------------- counters

  /** Size ranges; 1024 lies in two of them. */
  const BINS: seq<(nat, nat)> :=
    [(1, 64), (65, 127), (128, 255), (256, 511), (512, 1024), (1024, 1518), (1519, 9216)]

  /** Per bin the counts of port 1 (PON) and port 2; `order` is the dictionary's iteration order. */
  datatype Counter = Counter(order: seq<nat>, pon: seq<nat>, nni: seq<nat>)
  {
    ghost predicate Valid() {
      && (forall b :: 0 <= b < |BINS| ==> b in order) && (forall i :: 0 <= i < |order| ==> order[i] < |BINS|)
      && |pon| == |BINS| && |nni| == |BINS|
    }

    function Of(port: nat): seq<nat> { if port == 1 then pon else nni }
  }

  predicate Fits(b: nat, size: nat)
    requires b < |BINS|
  {
    BINS[b].0 <= size <= BINS[b].1
  }

  function FirstFit(order: seq<nat>, size: nat): (r: Option<nat>)
    requires forall i :: 0 <= i < |order| ==> order[i] < |BINS|
    ensures r.Some? ==> r.value < |BINS| && Fits(r.value, size)
    ensures r.None? <==> forall i :: 0 <= i < |order| ==> !Fits(order[i], size)
  {
    if order == [] then None
    else if Fits(order[0], size) then Some(order[0])
    else FirstFit(order[1..], size)
  }

  function Count(c: Counter, port: nat, size: nat): Counter
    requires c.Valid() && (port == 1 || port == 2)
  {
    match FirstFit(c.order, size)
    case None => c
    case Some(b) =>
      if port == 1 then c.(pon := c.pon[b := c.pon[b] + 1]) else c.(nni := c.nni[b := c.nni[b] + 1])
  }

  function Sum(s: seq<nat>): nat {
    if s == [] then 0 else Sum(s[..|s| - 1]) + s[|s| - 1]
  }

  function Total(c: Counter, port: nat): nat { Sum(c.Of(port)) }

  function Counted(size: nat): nat { if 1 <= size <= 9216 then 1 else 0 }

  lemma {:induction false} SumBump(s: seq<nat>, b: nat)
    requires b < |s|
    ensures Sum(s[b := s[b] + 1]) == Sum(s) + 1
  {
    var n := |s| - 1;
    var t := s[b := s[b] + 1];
    if b == n {
      assert t[..n] == s[..n];
    } else {
      SumBump(s[..n], b);
      assert t[..n] == s[..n][b := s[b] + 1];
    }
  }

  /** Whatever the iteration order, a frame of 1 to 9216 bytes is counted once, in one bin, on its port. */
  lemma CountedOnce(c: Counter, port: nat, size: nat)
    requires c.Valid() && (port == 1 || port == 2)
    ensures var d := Count(c, port, size);
            d.Valid() && Total(d, port) == Total(c, port) + Counted(size) && Total(d, 3 - port) == Total(c, 3 - port)
  {
    var r := FirstFit(c.order, size);
    assert r.Some? <==> 1 <= size <= 9216 by {
      if 1 <= size <= 9216 {
        var b := if size <= 64 then 0 else if size <= 127 then 1 else if size <= 255 then 2
                 else if size <= 511 then 3 else if size <= 1024 then 4 else if size <= 1518 then 5 else 6;
        assert Fits(b, size) && b in c.order;
      }
    }
    if r.Some? {
      SumBump(c.Of(port), r.value);
    }
  }

  // -------------------------------------------------------------------- devices

  datatype Dev = Dev(flows: seq<Flow>, rx: Counter, tx: Counter)

  datatype Who = Olt | Onu(i: nat)

  /** `egress` lists the frames that left the network, with the port they left through. */
  datatype Net = Net(olt: Dev, onus: seq<Dev>, egress: seq<(nat, Frame)>)
  {
    predicate Has(w: Who) { w.Onu? ==> w.i < |onus| }

    function Get(w: Who): Dev
      requires Has(w)
    {
      if w.Olt? then olt else onus[w.i]
    }

    function Put(w: Who, d: Dev): Net
      requires Has(w)
    {
      if w.Olt? then this.(olt := d) else this.(onus := onus[w.i := d])
    }

    ghost predicate Valid() { forall w :: Has(w) ==> Get(w).rx.Valid() && Get(w).tx.Valid() }
  }

  datatype Target = World(port: nat) | Device(who: Who)

  /** The wiring: port 2 leads out of the network, port 1 across the PON. */
  function Links(onus: nat, w: Who, port: nat): seq<Target> {
    match w
    case Olt =>
      if port == 2 then [World(0)]
      else if port == 1 then seq(onus, i requires 0 <= i < onus => Device(Onu(i)))
      else []
    case Onu(i) => if port == 2 then [World(128 + i)] else if port == 1 then [Device(Olt)] else []
  }

  function CountRx(net: Net, w: Who, port: nat, size: nat): Net
    requires net.Valid() && net.Has(w) && (port == 1 || port == 2)
  {
    net.Put(w, net.Get(w).(rx := Count(net.Get(w).rx, port, size)))
  }

  function CountTx(net: Net, w: Who, port: nat, size: nat): Net
    requires net.Valid() && net.Has(w) && (port == 1 || port == 2)
  {
    net.Put(w, net.Get(w).(tx := Count(net.Get(w).tx, port, size)))
  }

  lemma CountKeepsValid(net: Net, w: Who, port: nat, size: nat)
    requires net.Valid() && net.Has(w) && (port == 1 || port == 2)
    ensures CountRx(net, w, port, size).Valid() && CountTx(net, w, port, size).Valid()
  {
    hide Count;
    CountedOnce(net.Get(w).rx, port, size);
    CountedOnce(net.Get(w).tx, port, size);
    forall v | net.Has(v)
      ensures CountRx(net, w, port, size).Get(v).rx.Valid() && CountRx(net, w, port, size).Get(v).tx.Valid()
      ensures CountTx(net, w, port, size).Get(v).rx.Valid() && CountTx(net, w, port, size).Get(v).tx.Valid()
    {
      assert net.Get(v).rx.Valid() && net.Get(v).tx.Valid();
    }
  }

  ghost function ChoiceOf(flows: seq<Flow>, port: nat, frame: Frame): (c: Choice)
    ensures IsChoice(flows, port, frame, c)
  {
    ChoiceExists(flows, port, frame);
    var c :| IsChoice(flows, port, frame, c);
    c
  }

  lemma ChoiceExists(flows: seq<Flow>, port: nat, frame: Frame)
    ensures exists c :: IsChoice(flows, port, frame, c)
  {
    hide Hits, MatchOf;
    var best := SortKeepsBest(flows, port, frame);
    if Aborts(flows, port, frame) {
      assert IsChoice(flows, port, frame, Raised);
    } else if best.None? {
      assert IsChoice(flows, port, frame, Dropped);
    } else {
      assert IsChoice(flows, port, frame, Picked(best.value));
    }
  }

  // ------------------------------------------------------------------- delivery

  /** `Raise` is an exception from matching or acting, `TooDeep` the exhausted call stack. */
  datatype Status = Done | Raise | TooDeep

  /** The network afterwards, and what is left in the frame object that was passed in. */
  datatype Outcome = Outcome(status: Status, net: Net, frame: Frame)

  ghost function Ingress(net: Net, w: Who, port: nat, f: Frame, depth: nat): (o: Outcome)
    requires net.Valid() && net.Has(w) && (port == 1 || port == 2)
    ensures o.net.Valid() && |o.net.onus| == |net.onus|
    decreases depth, 0
  {
    if depth == 0 then Outcome(TooDeep, net, f)
    else
      CountKeepsValid(net, w, port, Size(f));
      var n1 := CountRx(net, w, port, Size(f));
      match ChoiceOf(net.Get(w).flows, port, f)
      case Raised => Outcome(Raise, n1, f)
      case Dropped => Outcome(Done, n1, f)
      case Picked(flow) =>
        var kept, sent, out := InPlace(flow.actions, f), ActAll(flow.actions, f), EgressPort(flow.actions);
        if sent.None? then Outcome(Raise, n1, kept)
        else if out.None? || Links(|net.onus|, w, out.value) == [] then Outcome(Done, n1, kept)
        else
          CountKeepsValid(n1, w, out.value, Size(sent.value));
          var n2 := CountTx(n1, w, out.value, Size(sent.value));
          var o := Forward(n2, Links(|net.onus|, w, out.value), sent.value, depth - 1);
          Outcome(o.status, o.net, if Rebuilds(flow.actions, f) then kept else o.frame)
  }

  ghost function Forward(net: Net, links: seq<Target>, f: Frame, depth: nat): (o: Outcome)
    requires net.Valid() && forall k :: 0 <= k < |links| && links[k].Device? ==> net.Has(links[k].who)
    ensures o.net.Valid() && |o.net.onus| == |net.onus|
    decreases depth, |links| + 1
  {
    if links == [] then Outcome(Done, net, f)
    else match links[0]
      case World(p) =>
        var n := net.(egress := net.egress + [(p, f)]);
        assert forall w :: n.Has(w) ==> net.Has(w) && n.Get(w) == net.Get(w);
        Forward(n, links[1..], f, depth)
      case Device(w) =>
        var o := Ingress(net, w, 1, f, depth);
        if o.status != Done then o else Forward(o.net, links[1..], o.frame, depth)
  }

  // --------------------------------------------------------------- conservation

  function SumTx(onus: seq<Dev>): nat {
    if onus == [] then 0 else SumTx(onus[..|onus| - 1]) + Total(onus[|onus| - 1].tx, 1)
  }

  /** Frames sent by ONUs on the PON and not yet received by the OLT. */
  function Upstream(net: Net): int { SumTx(net.onus) - Total(net.olt.rx, 1) }

  /** Frames sent by the OLT on the PON and not yet received by ONU `i`. */
  function Downstream(net: Net, i: nat): int
    requires i < |net.onus|
  {
    Total(net.olt.tx, 1) - Total(net.onus[i].rx, 1)
  }

  lemma {:induction false} SumTxUpdate(onus: seq<Dev>, i: nat, d: Dev)
    requires i < |onus|
    ensures SumTx(onus[i := d]) == SumTx(onus) - Total(onus[i].tx, 1) + Total(d.tx, 1)
  {
    hide Total;
    var n := |onus| - 1;
    var t := onus[i := d];
    if i == n {
      assert t[..n] == onus[..n];
    } else {
      SumTxUpdate(onus[..n], i, d);
      assert t[..n] == onus[..n][i := d];
    }
  }

  lemma RxEntry(net: Net, w: Who, port: nat, size: nat)
    requires net.Valid() && net.Has(w) && (port == 1 || port == 2)
    ensures var n := CountRx(net, w, port, size);
            var c := if port == 1 then Counted(size) else 0;
            && n.Valid() && |n.onus| == |net.onus|
            && Upstream(n) == Upstream(net) - (if w == Olt then c else 0)
            && forall i :: 0 <= i < |net.onus| ==>
                 Downstream(n, i) == Downstream(net, i) - (if w == Onu(i) then c else 0)
  {
    hide Count, Total, Counted;
    CountKeepsValid(net, w, port, size);
    assert net.Get(w).rx.Valid();
    CountedOnce(net.Get(w).rx, port, size);
    if w.Onu? {
      SumTxUpdate(net.onus, w.i, CountRx(net, w, port, size).onus[w.i]);
    }
  }

  lemma TxEntry(net: Net, w: Who, port: nat, size: nat)
    requires net.Valid() && net.Has(w) && (port == 1 || port == 2)
    ensures var n := CountTx(net, w, port, size);
            var c := if port == 1 then Counted(size) else 0;
            && n.Valid() && |n.onus| == |net.onus|
            && Upstream(n) == Upstream(net) + (if w == Olt then 0 else c)
            && forall i :: 0 <= i < |net.onus| ==> Downstream(n, i) == Downstream(net, i) + (if w == Olt then c else 0)
  {
    hide Count, Total, Counted;
    CountKeepsValid(net, w, port, size);
    assert net.Get(w).tx.Valid();
    CountedOnce(net.Get(w).tx, port, size);
    if w.Onu? {
      SumTxUpdate(net.onus, w.i, CountTx(net, w, port, size).onus[w.i]);
    }
  }

  /** How much delivery along the links will add to the receive counter of `v`. */
  function Due(links: seq<Target>, v: Who, c: nat): nat {
    if links == [] then 0 else (if links[0] == Device(v) then c else 0) + Due(links[1..], v, c)
  }

  /** From `net` to `o` the receivers took `up` and `down(i)`: exactly when the call
      completed, at most that when it was cut short. */
  ghost predicate Ledger(net: Net, o: Outcome, f: Frame, up: int, down: nat -> int) {
    && Size(o.frame) == Size(f) && |o.net.onus| == |net.onus|
    && Upstream(o.net) >= Upstream(net) - up
    && (o.status == Done ==> Upstream(o.net) == Upstream(net) - up)
    && (forall i :: 0 <= i < |net.onus| ==> Downstream(o.net, i) >= Downstream(net, i) - down(i))
    && (o.status == Done ==> forall i :: 0 <= i < |net.onus| ==> Downstream(o.net, i) == Downstream(net, i) - down(i))
  }

  function InDue(w: Who, port: nat, f: Frame, v: Who): nat {
    if port == 1 && v == w then Counted(Size(f)) else 0
  }

  lemma {:induction false} IngressLedger(net: Net, w: Who, port: nat, f: Frame, depth: nat)
    requires net.Valid() && net.Has(w) && (port == 1 || port == 2)
    ensures Ledger(net, Ingress(net, w, port, f, depth), f, InDue(w, port, f, Olt),
                   (i: nat) => InDue(w, port, f, Onu(i)))
    decreases depth, 1
  {
    hide CountRx, CountTx, Upstream, Downstream, Size, ChoiceOf, InPlace, ActAll, Counted, Due, Links, Forward;
    if depth > 0 {
      RxEntry(net, w, port, Size(f));
      var c := ChoiceOf(net.Get(w).flows, port, f);
      if c.Picked? {
        SameSizeInPlace(c.flow.actions, f);
        var sent, out := ActAll(c.flow.actions, f), EgressPort(c.flow.actions);
        if sent.Some? && out.Some? && Links(|net.onus|, w, out.value) != [] {
          PortsWithLinks(|net.onus|, w, out.value);
          SentLedger(net, w, port, f, sent.value, out.value, depth);
          if !Rebuilds(c.flow.actions, f) {
            SameObjectSameFrame(c.flow.actions, f);
          }
        }
      }
    }
  }

  lemma PortsWithLinks(onus: nat, w: Who, port: nat)
    ensures Links(onus, w, port) != [] ==> port == 1 || port == 2
    ensures forall k :: 0 <= k < |Links(onus, w, port)| ==>
              var t := Links(onus, w, port)[k]; t.Device? && t.who.Onu? ==> t.who.i < onus
  {
  }

  /** What a device sends on the PON is exactly what its links then receive. */
  lemma {:induction false} SentLedger(net: Net, w: Who, port: nat, f: Frame, g: Frame, out: nat, depth: nat)
    requires net.Valid() && net.Has(w) && (port == 1 || port == 2) && (out == 1 || out == 2) && depth > 0
    ensures var n1 := CountRx(net, w, port, Size(f));
            n1.Valid() && n1.Has(w) && CountTx(n1, w, out, Size(g)).Valid()
    ensures var n2 := CountTx(CountRx(net, w, port, Size(f)), w, out, Size(g));
            var o := Forward(n2, Links(|net.onus|, w, out), g, depth - 1);
            Size(o.frame) == Size(g) &&
            Ledger(net, o.(frame := f), f, InDue(w, port, f, Olt), (i: nat) => InDue(w, port, f, Onu(i)))
    decreases depth, 0
  {
    hide CountRx, CountTx, Upstream, Downstream, Size, Counted, Due, Links, Forward;
    RxEntry(net, w, port, Size(f));
    var n1 := CountRx(net, w, port, Size(f));
    TxEntry(n1, w, out, Size(g));
    var n2 := CountTx(n1, w, out, Size(g));
    PortsWithLinks(|net.onus|, w, out);
    ForwardLedger(n2, Links(|net.onus|, w, out), g, depth - 1);
    LinkDues(|net.onus|, w, out, Counted(Size(g)));
  }

  lemma {:induction false} ForwardLedger(net: Net, links: seq<Target>, f: Frame, depth: nat)
    requires net.Valid() && forall k :: 0 <= k < |links| && links[k].Device? ==> net.Has(links[k].who)
    ensures var c := Counted(Size(f));
            Ledger(net, Forward(net, links, f, depth), f, Due(links, Olt, c), (i: nat) => Due(links, Onu(i), c))
    decreases depth, |links| + 2
  {
    hide Upstream, Downstream, Size, Counted, Ingress;
    if links != [] {
      match links[0]
      case World(p) =>
        var n := net.(egress := net.egress + [(p, f)]);
        EgressIsFree(net, n);
        ForwardLedger(n, links[1..], f, depth);
      case Device(w) =>
        IngressLedger(net, w, 1, f, depth);
        var o := Ingress(net, w, 1, f, depth);
        if o.status == Done {
          ForwardLedger(o.net, links[1..], o.frame, depth);
        }
    }
  }

  lemma EgressIsFree(net: Net, n: Net)
    requires net.Valid() && n.olt == net.olt && n.onus == net.onus
    ensures n.Valid() && Upstream(n) == Upstream(net)
    ensures forall i :: 0 <= i < |net.onus| ==> Downstream(n, i) == Downstream(net, i)
  {
    assert forall w :: n.Has(w) ==> net.Has(w) && n.Get(w) == net.Get(w);
  }

  /** The OLT's PON links reach every ONU once; an ONU's reach the OLT once. */
  lemma LinkDues(onus: nat, w: Who, port: nat, c: nat)
    requires port == 1 || port == 2
    ensures var links := Links(onus, w, port);
            && Due(links, Olt, c) == (if port == 1 && w.Onu? then c else 0)
            && forall i :: 0 <= i < onus ==> Due(links, Onu(i), c) == (if port == 1 && w == Olt then c else 0)
  {
    if w == Olt && port == 1 {
      OnuDues(onus, 0, c);
      assert Links(onus, w, port)[0..] == Links(onus, w, port);
    }
  }

  lemma {:induction false} OnuDues(onus: nat, k: nat, c: nat)
    requires k <= onus
    ensures var links := Links(onus, Olt, 1)[k..];
            Due(links, Olt, c) == 0 && forall i :: 0 <= i < onus ==> Due(links, Onu(i), c) == (if k <= i then c else 0)
    decreases onus - k
  {
    var links := Links(onus, Olt, 1)[k..];
    if k < onus {
      OnuDues(onus, k + 1, c);
      assert links[0] == Device(Onu(k)) && links[1..] == Links(onus, Olt, 1)[k + 1..];
    }
  }

  // ------------------------------------------------------------------ whole runs

  datatype Op =
    | Install(who: Who, flows: seq<Flow>)
    | Inject(who: Who, frame: Frame, depth: nat)

  /** An operation on a device that does not exist raises before touching anything. */
  ghost function Perform(net: Net, op: Op): (r: (Status, Net))
    requires net.Valid()
    ensures r.1.Valid() && |r.1.onus| == |net.onus|
  {
    if !net.Has(op.who) then (Raise, net)
    else match op
      case Install(w, flows) =>
        var n := net.Put(w, net.Get(w).(flows := SortDesc(flows)));
        assert forall v :: n.Has(v) ==> net.Has(v) && n.Get(v).rx == net.Get(v).rx && n.Get(v).tx == net.Get(v).tx;
        (Done, n)
      case Inject(w, f, depth) =>
        var o := Ingress(net, w, 2, f, depth);
        (o.status, o.net)
  }

  /** All that was sent on the PON has been received, and counted the same on both sides. */
  ghost predicate Conserved(net: Net) {
    Upstream(net) == 0 && forall i :: 0 <= i < |net.onus| ==> Downstream(net, i) == 0
  }

  /** Nothing is received that was not sent. */
  ghost predicate NothingInvented(net: Net) {
    Upstream(net) >= 0 && forall i :: 0 <= i < |net.onus| ==> Downstream(net, i) >= 0
  }

  lemma InstallKeeps(net: Net, w: Who, flows: seq<Flow>)
    requires net.Valid() && net.Has(w)
    ensures var n := Perform(net, Install(w, flows)).1;
            Upstream(n) == Upstream(net) && forall i :: 0 <= i < |net.onus| ==> Downstream(n, i) == Downstream(net, i)
  {
    hide SortDesc, Total;
    if w.Onu? {
      SumTxUpdate(net.onus, w.i, net.onus[w.i].(flows := SortDesc(flows)));
    }
  }

  lemma PerformKeeps(net: Net, op: Op)
    requires net.Valid()
    ensures NothingInvented(net) ==> NothingInvented(Perform(net, op).1)
    ensures Conserved(net) && (Perform(net, op).0 == Done || !net.Has(op.who)) ==> Conserved(Perform(net, op).1)
  {
    hide Upstream, Downstream, Ingress, Counted;
    if net.Has(op.who) {
      match op
      case Install(w, flows) => InstallKeeps(net, w, flows);
      case Inject(w, f, depth) => IngressLedger(net, w, 2, f, depth);
    }
  }

  ghost function PerformAll(net: Net, ops: seq<Op>): (n: Net)
    requires net.Valid()
    ensures n.Valid()
    decreases |ops|
  {
    if ops == [] then net else PerformAll(Perform(net, ops[0]).1, ops[1..])
  }

  /** No injected frame was cut short by an exception. */
  ghost predicate AllCompleted(net: Net, ops: seq<Op>)
    requires net.Valid()
    decreases |ops|
  {
    ops == [] ||
    ((Perform(net, ops[0]).0 == Done || !net.Has(ops[0].who)) && AllCompleted(Perform(net, ops[0]).1, ops[1..]))
  }

  /** After any operations, with any tables, nothing is received that was not sent; and what was
      sent was received if no delivery raised (`PonConservation` says when that is). */
  lemma {:induction false} NothingInventedOverRuns(net: Net, ops: seq<Op>)
    requires net.Valid()
    ensures NothingInvented(net) ==> NothingInvented(PerformAll(net, ops))
    ensures Conserved(net) && AllCompleted(net, ops) ==> Conserved(PerformAll(net, ops))
    decreases |ops|
  {
    hide Conserved, NothingInvented, Perform;
    if ops != [] {
      PerformKeeps(net, ops[0]);
      NothingInventedOverRuns(Perform(net, ops[0]).1, ops[1..]);
    }
  }

  // ------------------------------------------------------ termination, direction

  /** No selected flow sends a frame back through the port it came from. */
  ghost predicate NoHairpin(net: Net) {
    forall w, port, f {:trigger Turns(net, w, port, f)} :: net.Has(w) && (port == 1 || port == 2) ==>
      !Turns(net, w, port, f)
  }

  ghost predicate Turns(net: Net, w: Who, port: nat, f: Frame)
    requires net.Has(w)
  {
    var c := ChoiceOf(net.Get(w).flows, port, f);
    c.Picked? && EgressPort(c.flow.actions) == Some(port)
  }

  /** A flow that sends frames out of a port also insists that they came in through another one. */
  predicate PinsOtherPort(flow: Flow) {
    var out := EgressPort(flow.actions);
    out.Some? ==> exists i :: 0 <= i < |flow.fields| && flow.fields[i].InPort? && flow.fields[i].port != out.value
  }

  /** A condition on the flow tables alone that rules hairpins out. */
  lemma PinnedPortsSuffice(net: Net)
    requires forall w, flow :: net.Has(w) && flow in net.Get(w).flows ==> PinsOtherPort(flow)
    ensures NoHairpin(net)
  {
    hide EgressPort;
    forall w, port, f | net.Has(w) && (port == 1 || port == 2)
      ensures !Turns(net, w, port, f)
    {
      var c := ChoiceOf(net.Get(w).flows, port, f);
      if c.Picked? {
        PickedMatches(net.Get(w).flows, port, f, c);
        assert PinsOtherPort(c.flow);
      }
    }
  }

  lemma PickedMatches(flows: seq<Flow>, port: nat, f: Frame, c: Choice)
    requires IsChoice(flows, port, f, c) && c.Picked?
    ensures c.flow in flows && AllMatch(c.flow.fields, port, f)
  {
    hide OrBits, FieldMatches;
  }

  /** Delivery changes no flow table. */
  predicate SameFlows(a: Net, b: Net) {
    && |a.onus| == |b.onus| && a.olt.flows == b.olt.flows
    && forall i :: 0 <= i < |a.onus| ==> a.onus[i].flows == b.onus[i].flows
  }

  lemma SameFlowsTurn(a: Net, b: Net)
    requires SameFlows(a, b) && NoHairpin(a)
    ensures NoHairpin(b)
  {
    forall w, port, f | b.Has(w) && (port == 1 || port == 2)
      ensures !Turns(b, w, port, f)
    {
      assert !Turns(a, w, port, f);
    }
  }

  lemma CountKeepsFlows(net: Net, w: Who, port: nat, size: nat)
    requires net.Valid() && net.Has(w) && (port == 1 || port == 2)
    ensures SameFlows(net, CountRx(net, w, port, size)) && CountRx(net, w, port, size).egress == net.egress
    ensures SameFlows(net, CountTx(net, w, port, size)) && CountTx(net, w, port, size).egress == net.egress
  {
    hide Count;
  }

  /** What a device sends for a frame, when it sends it through port `out`. */
  ghost function SentThrough(flows: seq<Flow>, port: nat, f: Frame, out: nat): Option<Frame> {
    var c := ChoiceOf(flows, port, f);
    if c.Picked? && EgressPort(c.flow.actions) == Some(out) then ActAll(c.flow.actions, f) else None
  }

  /** What it leaves in the frame object. */
  ghost function Left(flows: seq<Flow>, port: nat, f: Frame): Frame {
    var c := ChoiceOf(flows, port, f);
    if c.Picked? then InPlace(c.flow.actions, f) else f
  }

  function Leaving(port: nat, f: Option<Frame>): seq<(nat, Frame)> {
    if f.Some? then [(port, f.value)] else []
  }

  function Uplink(w: Who): nat { if w == Olt then 0 else 128 + w.i }

  /** A frame arriving from the PON goes at most once further, out of the network. */
  lemma FromPon(net: Net, w: Who, f: Frame, depth: nat)
    requires net.Valid() && net.Has(w) && SentThrough(net.Get(w).flows, 1, f, 1).None? && depth > 0
    ensures var o := Ingress(net, w, 1, f, depth);
            && o.status != TooDeep && SameFlows(net, o.net)
            && (o.status == Done ==>
                 o.net.egress == net.egress + Leaving(Uplink(w), SentThrough(net.Get(w).flows, 1, f, 2)))
            && (o.status == Raise ==> o.net.egress == net.egress)
            && o.frame == Left(net.Get(w).flows, 1, f)
  {
    hide CountRx, CountTx, ChoiceOf, InPlace, ActAll, Size;
    CountKeepsValid(net, w, 1, Size(f));
    CountKeepsFlows(net, w, 1, Size(f));
    var n1 := CountRx(net, w, 1, Size(f));
    var c := ChoiceOf(net.Get(w).flows, 1, f);
    if c.Picked? {
      var sent, out := ActAll(c.flow.actions, f), EgressPort(c.flow.actions);
      if sent.Some? && out == Some(2) {
        CountKeepsValid(n1, w, 2, Size(sent.value));
        CountKeepsFlows(n1, w, 2, Size(sent.value));
        OutToWorld(CountTx(n1, w, 2, Size(sent.value)), Uplink(w), sent.value, depth - 1);
        assert Links(|net.onus|, w, 2) == [World(Uplink(w))];
        if !Rebuilds(c.flow.actions, f) {
          SameObjectSameFrame(c.flow.actions, f);
        }
      } else if sent.Some? && out.Some? {
        assert Links(|net.onus|, w, out.value) == [];
      }
    }
  }

  lemma HairpinFree(net: Net, w: Who, port: nat, f: Frame)
    requires NoHairpin(net) && net.Has(w) && (port == 1 || port == 2)
    ensures !Turns(net, w, port, f) && SentThrough(net.Get(w).flows, port, f, port).None?
  {
    hide ActAll, ChoiceOf;
    assert !Turns(net, w, port, f);
  }

  lemma OutToWorld(net: Net, port: nat, f: Frame, depth: nat)
    requires net.Valid()
    ensures Forward(net, [World(port)], f, depth) == Outcome(Done, net.(egress := net.egress + [(port, f)]), f)
  {
    var n := net.(egress := net.egress + [(port, f)]);
    var one := [World(port)];
    assert forall w :: n.Has(w) ==> net.Has(w) && n.Get(w) == net.Get(w);
    assert one[1..] == [];
    assert Forward(n, one[1..], f, depth) == Outcome(Done, n, f);
  }

  // --------------------------------------------------------------------- fan-out

  /** The frame ONU `i` finds in the object shared by all: what the earlier ones left there. */
  ghost function Seen(onus: seq<Dev>, f: Frame, i: nat): Frame
    requires i <= |onus|
  {
    if i == 0 then f else Left(onus[i - 1].flows, 1, Seen(onus, f, i - 1))
  }

  /** What the ONUs from `k` on send out, given the frame that ONU `k` finds. */
  ghost function Copies(onus: seq<Dev>, k: nat, f: Frame): seq<(nat, Frame)>
    requires k <= |onus|
    decreases |onus| - k
  {
    if k == |onus| then []
    else Leaving(128 + k, SentThrough(onus[k].flows, 1, f, 2)) + Copies(onus, k + 1, Left(onus[k].flows, 1, f))
  }

  lemma {:induction false} CopiesByFlows(a: seq<Dev>, b: seq<Dev>, k: nat, f: Frame)
    requires k <= |a| == |b| && forall i :: 0 <= i < |a| ==> a[i].flows == b[i].flows
    ensures Copies(a, k, f) == Copies(b, k, f)
    decreases |a| - k
  {
    hide Left, SentThrough;
    if k < |a| {
      CopiesByFlows(a, b, k + 1, Left(a[k].flows, 1, f));
    }
  }

  /** Delivery from the OLT to the ONUs: in link order, each working on what the ones
      before left; if one raises, only a prefix of the copies gets out. */
  lemma {:induction false} FanOut(net: Net, k: nat, f: Frame, depth: nat)
    requires net.Valid() && NoHairpin(net) && depth > 0 && k <= |net.onus|
    ensures var o := Forward(net, Links(|net.onus|, Olt, 1)[k..], f, depth);
            && o.status != TooDeep && SameFlows(net, o.net)
            && net.egress <= o.net.egress <= net.egress + Copies(net.onus, k, f)
            && (o.status == Done ==> o.net.egress == net.egress + Copies(net.onus, k, f))
    decreases |net.onus| - k
  {
    hide Ingress, Forward, NoHairpin, Left, SentThrough, Leaving, Links;
    ForwardStep(net, k, f, depth);
    if k < |net.onus| {
      HairpinFree(net, Onu(k), 1, f);
      FromPon(net, Onu(k), f, depth);
      var o := Ingress(net, Onu(k), 1, f, depth);
      var mine := Leaving(128 + k, SentThrough(net.onus[k].flows, 1, f, 2));
      var rest := Copies(net.onus, k + 1, o.frame);
      assert net.egress + (mine + rest) == net.egress + mine + rest;
      if o.status == Done {
        SameFlowsTurn(net, o.net);
        FanOut(o.net, k + 1, o.frame, depth);
        CopiesByFlows(net.onus, o.net.onus, k + 1, o.frame);
      }
    }
  }

  lemma ForwardStep(net: Net, k: nat, f: Frame, depth: nat)
    requires net.Valid() && k <= |net.onus|
    ensures var o := Forward(net, Links(|net.onus|, Olt, 1)[k..], f, depth);
            if k == |net.onus| then o == Outcome(Done, net, f)
            else var p := Ingress(net, Onu(k), 1, f, depth);
              if p.status != Done then o == p
              else o == Forward(p.net, Links(|p.net.onus|, Olt, 1)[k + 1..], p.frame, depth)
  {
    hide Ingress;
    if k < |net.onus| {
      var links := Links(|net.onus|, Olt, 1)[k..];
      assert links[0] == Device(Onu(k)) && links[1..] == Links(|net.onus|, Olt, 1)[k + 1..];
    }
  }

  /** Ports within bounds, each at most once, in ascending order. */
  ghost predicate Ascending(c: seq<(nat, Frame)>, lo: nat, hi: nat) {
    && (forall i :: 0 <= i < |c| ==> lo <= c[i].0 < hi)
    && (forall i, j :: 0 <= i < j < |c| ==> c[i].0 < c[j].0)
  }

  /** Each UNI port gets at most one copy, in port order. */
  lemma {:induction false} CopiesPorts(onus: seq<Dev>, k: nat, f: Frame)
    requires k <= |onus|
    ensures Ascending(Copies(onus, k, f), 128 + k, 128 + |onus|)
    decreases |onus| - k
  {
    hide Left, SentThrough, Leaving;
    if k < |onus| {
      var g := Left(onus[k].flows, 1, f);
      CopiesPorts(onus, k + 1, g);
      AscendingFirst(128 + k, SentThrough(onus[k].flows, 1, f, 2), Copies(onus, k + 1, g), 128 + |onus|);
    }
  }

  lemma AscendingFirst(port: nat, f: Option<Frame>, c: seq<(nat, Frame)>, hi: nat)
    requires Ascending(c, port + 1, hi) && port < hi
    ensures Ascending(Leaving(port, f) + c, port, hi)
  {
    var d := Leaving(port, f) + c;
    if f.Some? {
      assert d[0] == (port, f.value);
      assert forall i :: 1 <= i < |d| ==> d[i] == c[i - 1];
    } else {
      assert d == c;
    }
  }

  /** A frame injected at the NNI: the recursion ends at depth two and copies leave only through UNIs. */
  lemma InjectAtNni(net: Net, f: Frame, depth: nat)
    requires net.Valid() && NoHairpin(net) && depth >= 2
    ensures var o := Ingress(net, Olt, 2, f, depth);
            var g := SentThrough(net.olt.flows, 2, f, 1);
            var all := if g.Some? then Copies(net.onus, 0, g.value) else [];
            && o.status != TooDeep
            && net.egress <= o.net.egress <= net.egress + all
            && (o.status == Done ==> o.net.egress == net.egress + all)
  {
    hide CountRx, CountTx, ChoiceOf, InPlace, ActAll, Size, NoHairpin, Copies;
    CountKeepsValid(net, Olt, 2, Size(f));
    CountKeepsFlows(net, Olt, 2, Size(f));
    HairpinFree(net, Olt, 2, f);
    var n1 := CountRx(net, Olt, 2, Size(f));
    var g := SentThrough(net.olt.flows, 2, f, 1);
    if g.Some? {
      if net.onus == [] {
        NoCopies(g.value);
        assert Links(0, Olt, 1) == [];
      } else {
        CountKeepsValid(n1, Olt, 1, Size(g.value));
        CountKeepsFlows(n1, Olt, 1, Size(g.value));
        var n2 := CountTx(n1, Olt, 1, Size(g.value));
        SameFlowsTurn(net, n1);
        SameFlowsTurn(n1, n2);
        var links := Links(|net.onus|, Olt, 1);
        assert links[0..] == links;
        FanOut(n2, 0, g.value, depth - 1);
        CopiesByFlows(net.onus, n2.onus, 0, g.value);
      }
    }
  }

  lemma NoCopies(f: Frame)
    ensures Copies([], 0, f) == []
  {
  }

  /** A frame injected at a UNI leaves only through the NNI, at most once. */
  lemma InjectAtUni(net: Net, i: nat, f: Frame, depth: nat)
    requires net.Valid() && i < |net.onus| && NoHairpin(net) && depth >= 2
    ensures var o := Ingress(net, Onu(i), 2, f, depth);
            var g := SentThrough(net.onus[i].flows, 2, f, 1);
            var sent := if g.Some? then Leaving(0, SentThrough(net.olt.flows, 1, g.value, 2)) else [];
            && o.status != TooDeep
            && (o.status == Done ==> o.net.egress == net.egress + sent)
            && (o.status == Raise ==> o.net.egress == net.egress)
  {
    hide CountRx, CountTx, ChoiceOf, InPlace, ActAll, Size, NoHairpin;
    var w := Onu(i);
    CountKeepsValid(net, w, 2, Size(f));
    CountKeepsFlows(net, w, 2, Size(f));
    HairpinFree(net, w, 2, f);
    var n1 := CountRx(net, w, 2, Size(f));
    var g := SentThrough(net.onus[i].flows, 2, f, 1);
    if g.Some? {
      CountKeepsValid(n1, w, 1, Size(g.value));
      CountKeepsFlows(n1, w, 1, Size(g.value));
      var n2 := CountTx(n1, w, 1, Size(g.value));
      SameFlowsTurn(net, n1);
      SameFlowsTurn(n1, n2);
      HairpinFree(n2, Olt, 1, g.value);
      FromPon(n2, Olt, g.value, depth - 1);
      OnlyOlt(n2, g.value, depth - 1);
    }
  }

  lemma OnlyOlt(net: Net, f: Frame, depth: nat)
    requires net.Valid()
    ensures Forward(net, [Device(Olt)], f, depth) == Ingress(net, Olt, 1, f, depth)
  {
    hide Ingress;
    var one := [Device(Olt)];
    assert one[1..] == [];
  }

  // ---------------------------------------------------- sharing one frame object

  /** The tag fields that the ONUs before `i` have overwritten in the shared frame. */
  ghost function OverrideBy(onus: seq<Dev>, f: Frame, i: nat): Override
    requires i <= |onus| && f.tags != []
  {
    if i == 0 then Override(None, None)
    else
      var o := OverrideBy(onus, f, i - 1);
      var c := ChoiceOf(onus[i - 1].flows, 1, Overridden(f, o));
      if c.Picked? then LeadingSets(c.flow.actions, o) else o
  }

  lemma {:induction false} SeenIsOverride(onus: seq<Dev>, f: Frame, i: nat)
    requires i <= |onus| && f.tags != []
    ensures Seen(onus, f, i) == Overridden(f, OverrideBy(onus, f, i))
  {
    hide ChoiceOf, InPlace, LeadingSets;
    if i > 0 {
      SeenIsOverride(onus, f, i - 1);
      var o := OverrideBy(onus, f, i - 1);
      var c := ChoiceOf(onus[i - 1].flows, 1, Overridden(f, o));
      if c.Picked? {
        InPlaceIsOverride(c.flow.actions, f, o);
      }
    } else {
      assert Overridden(f, Override(None, None)) == f;
    }
  }

  lemma {:induction false} UntaggedSeenAsIs(onus: seq<Dev>, f: Frame, i: nat)
    requires i <= |onus| && f.tags == []
    ensures Seen(onus, f, i) == f
  {
    hide ChoiceOf, InPlace;
    if i > 0 {
      UntaggedSeenAsIs(onus, f, i - 1);
      var c := ChoiceOf(onus[i - 1].flows, 1, f);
      if c.Picked? {
        UntaggedIsSafe(c.flow.actions, f);
      }
    }
  }

  /** ONU `i` finds the frame as the OLT sent it exactly when the frame is untagged or the
      last VLAN id and priority that earlier ONUs set in place equal the original ones. */
  lemma OwnCopyIff(onus: seq<Dev>, f: Frame, i: nat)
    requires i <= |onus|
    ensures Seen(onus, f, i) == f <==> (f.tags == [] || Agrees(OverrideBy(onus, f, i), f.tags[0]))
  {
    hide Seen, OverrideBy;
    if f.tags == [] {
      UntaggedSeenAsIs(onus, f, i);
    } else {
      SeenIsOverride(onus, f, i);
      var g := Overridden(f, OverrideBy(onus, f, i));
      assert g.tags[0] == f.tags[0] <==> g == f;
    }
  }

  /** In particular when no earlier ONU's selected flow sets a field before a push or pop. */
  lemma {:induction false} NoLeadingSetsNoSharing(onus: seq<Dev>, f: Frame, i: nat)
    requires i <= |onus|
    requires forall j :: 0 <= j < i ==> SetsNothingFirst(onus[j].flows, f)
    ensures Seen(onus, f, i) == f
  {
    hide ChoiceOf, InPlace, LeadingSets;
    if i > 0 {
      NoLeadingSetsNoSharing(onus, f, i - 1);
      var c := ChoiceOf(onus[i - 1].flows, 1, f);
      if c.Picked? {
        UnalteredIff(c.flow.actions, f);
      }
    }
  }

  /** What the ONUs from `k` on would send out if each had its own copy of the frame. */
  ghost function OwnCopies(onus: seq<Dev>, k: nat, f: Frame): seq<(nat, Frame)>
    requires k <= |onus|
    decreases |onus| - k
  {
    if k == |onus| then [] else Leaving(128 + k, SentThrough(onus[k].flows, 1, f, 2)) + OwnCopies(onus, k + 1, f)
  }

  lemma {:induction false} SharedLikeOwn(onus: seq<Dev>, k: nat, f: Frame)
    requires k <= |onus| && forall j :: 0 <= j <= |onus| ==> Seen(onus, f, j) == f
    ensures Copies(onus, k, f) == OwnCopies(onus, k, f)
    decreases |onus| - k
  {
    hide Left, SentThrough;
    if k < |onus| {
      assert Seen(onus, f, k) == f && Seen(onus, f, k + 1) == Left(onus[k].flows, 1, f);
      SharedLikeOwn(onus, k + 1, f);
    }
  }

  /** The shared object makes no difference when no ONU's flow for the frame sets a tag
      field before a push or pop. */
  lemma NoLeadingSetsLikeOwn(onus: seq<Dev>, f: Frame)
    requires forall j :: 0 <= j < |onus| ==> SetsNothingFirst(onus[j].flows, f)
    ensures Copies(onus, 0, f) == OwnCopies(onus, 0, f)
  {
    hide Seen, ChoiceOf;
    forall j | 0 <= j <= |onus|
      ensures Seen(onus, f, j) == f
    {
      NoLeadingSetsNoSharing(onus, f, j);
    }
    SharedLikeOwn(onus, 0, f);
  }

  ghost predicate SetsNothingFirst(flows: seq<Flow>, f: Frame) {
    var c := ChoiceOf(flows, 1, f);
    c.Picked? ==> LeadingSets(c.flow.actions, Override(None, None)) == Override(None, None)
  }

  const RETAGS := Flow(1, [InPort(1)], [SetVid(7), Output(2)])
  const PASSES := Flow(1, [InPort(1)], [Output(2)])

  function Tagged(vid: nat): Frame { Frame("", "", 0x8100, [Tag(vid, 0, 0x800)], Payload(100, None, None)) }

  lemma OnlyFlowIsPicked(flow: Flow, f: Frame)
    requires flow.fields == [InPort(1)]
    ensures ChoiceOf([flow], 1, f) == Picked(flow)
  {
    var flows := [flow];
    assert flow.fields[..0] == [];
    assert OrBits(flow.fields) == 128;
    assert MatchOf(flow, 1, f) == Mask(128);
    assert IsBest(flows, 0, 1, f);
    assert IsChoice(flows, 1, f, Picked(flow));
    ChoiceUnique(flows, 1, f, Picked(flow), ChoiceOf(flows, 1, f));
  }

  lemma RetagsAndPasses(vid: nat)
    ensures SentThrough([RETAGS], 1, Tagged(vid), 2) == Some(Tagged(7)) && Left([RETAGS], 1, Tagged(vid)) == Tagged(7)
    ensures SentThrough([PASSES], 1, Tagged(vid), 2) == Some(Tagged(vid))
  {
    OnlyFlowIsPicked(RETAGS, Tagged(vid));
    OnlyFlowIsPicked(PASSES, Tagged(vid));
    var f, both, out := Tagged(vid), RETAGS.actions, PASSES.actions;
    assert SetTop(f, SetVid(7)).tags == Tagged(7).tags;
    assert out[1..] == [] && both[1..] == out;
    assert ActAll(out, f) == ActAll(out[1..], f) == Some(f);
    assert ActAll(out, Tagged(7)) == ActAll(out[1..], Tagged(7)) == Some(Tagged(7));
    assert ActAll(both, f) == ActAll(both[1..], Tagged(7));
    assert InPlace(out, Tagged(7)) == InPlace(out[1..], Tagged(7)) == Tagged(7);
    assert InPlace(both, f) == InPlace(both[1..], Tagged(7));
    assert EgressPort(both) == Some(2) && EgressPort(out) == Some(2);
  }

  /** Two ONUs, the first of which sets the VLAN id in place: the second sends out what the first
      has made of the frame, not what the OLT sent. */
  lemma SharingShows(c: Counter)
    ensures var onus := [Dev([RETAGS], c, c), Dev([PASSES], c, c)];
            && Copies(onus, 0, Tagged(5)) == [(128, Tagged(7)), (129, Tagged(7))]
            && OwnCopies(onus, 0, Tagged(5)) == [(128, Tagged(7)), (129, Tagged(5))]
  {
    hide Left, SentThrough, Tagged;
    var onus := [Dev([RETAGS], c, c), Dev([PASSES], c, c)];
    RetagsAndPasses(5);
    RetagsAndPasses(7);
    var g := Left([PASSES], 1, Tagged(7));
    assert Copies(onus, 2, g) == [] && OwnCopies(onus, 2, Tagged(5)) == [];
    assert Copies(onus, 1, Tagged(7)) == Leaving(129, Some(Tagged(7))) + Copies(onus, 2, g);
    assert OwnCopies(onus, 1, Tagged(5)) == Leaving(129, Some(Tagged(5))) + OwnCopies(onus, 2, Tagged(5));
    assert Copies(onus, 0, Tagged(5)) == Leaving(128, Some(Tagged(7))) + Copies(onus, 1, Tagged(7));
    assert OwnCopies(onus, 0, Tagged(5)) == Leaving(128, Some(Tagged(7))) + OwnCopies(onus, 1, Tagged(5));
  }

  // ------------------------------------------------------------ endless recursion

  const ECHO := Flow(1, [InPort(1)], [Output(1)])

  /** If the OLT and the first ONU send PON frames back to the PON, no depth suffices. */
  lemma {:induction false} EchoesForever(net: Net, w: Who, f: Frame, depth: nat)
    requires net.Valid() && net.onus != [] && net.olt.flows == [ECHO] && net.onus[0].flows == [ECHO]
    requires w == Olt || w == Onu(0)
    ensures Ingress(net, w, 1, f, depth).status == TooDeep
    decreases depth
  {
    hide CountRx, CountTx, ChoiceOf, Size;
    if depth > 0 {
      OnlyFlowIsPicked(ECHO, f);
      CountKeepsValid(net, w, 1, Size(f));
      CountKeepsFlows(net, w, 1, Size(f));
      var n1 := CountRx(net, w, 1, Size(f));
      CountKeepsValid(n1, w, 1, Size(f));
      CountKeepsFlows(n1, w, 1, Size(f));
      var n2 := CountTx(n1, w, 1, Size(f));
      var next := if w == Olt then Onu(0) else Olt;
      EchoesForever(n2, next, f, depth - 1);
      EchoActions(f);
      var links := Links(|net.onus|, w, 1);
      assert links[0] == Device(next);
    }
  }

  lemma EchoActions(f: Frame)
    ensures ActAll(ECHO.actions, f) == Some(f) && EgressPort(ECHO.actions) == Some(1)
  {
    assert ECHO.actions[1..] == [];
  }
}
