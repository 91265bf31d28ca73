/** When frames are conserved on the PON of the simulator (ponsim/ponsim.py): exactly which
    deliveries lose frames, and whole runs of them. */
module PonConservation {
  import opened Collections
  import opened PonFlows
  import opened PonActions
  import opened PonNet

  // ------------------------------------------------------- one frame from the PON

  /** Handling the frame raises: selection reaches an unsupported field, or the selected flow's
      actions hold an unknown action or a set-field that meets an untagged frame. */
  ghost predicate Fails(flows: seq<Flow>, port: nat, f: Frame) {
    Aborts(flows, port, f) || exists flow :: IsChoice(flows, port, f, Picked(flow)) && BadActions(flow, f)
  }

  predicate BadActions(flow: Flow, f: Frame) {
    exists k :: 0 <= k < |flow.actions| && BadAt(flow.actions, k, |f.tags|)
  }

  lemma FailsIff(flows: seq<Flow>, port: nat, f: Frame)
    ensures var c := ChoiceOf(flows, port, f);
            Fails(flows, port, f) <==> c.Raised? || (c.Picked? && ActAll(c.flow.actions, f).None?)
  {
    hide Aborts, NoHit, IsBest, ActAll, BadAt;
    var c := ChoiceOf(flows, port, f);
    if c.Picked? {
      RaisesExactly(c.flow.actions, f);
    }
    forall flow | IsChoice(flows, port, f, Picked(flow))
      ensures c == Picked(flow)
    {
      ChoiceUnique(flows, port, f, c, Picked(flow));
    }
  }

  /** The device never sends a frame from the PON back to it. */
  ghost predicate Quiet(net: Net, w: Who)
    requires net.Has(w)
  {
    forall f :: SentThrough(net.Get(w).flows, 1, f, 1).None?
  }

  ghost predicate OnusQuiet(net: Net) {
    forall i :: 0 <= i < |net.onus| ==> Quiet(net, Onu(i))
  }

  /** Neither the OLT nor any ONU echoes frames on the PON and there is room for two calls, or
      one of the sides never does and there is room for three. */
  ghost predicate Bounded(net: Net, depth: nat) {
    (Quiet(net, Olt) || OnusQuiet(net)) && depth >= if Quiet(net, Olt) && OnusQuiet(net) then 2 else 3
  }

  lemma QuietByFlows(a: Net, b: Net, w: Who)
    requires SameFlows(a, b) && a.Has(w)
    ensures b.Has(w) && a.Get(w).flows == b.Get(w).flows && (Quiet(a, w) <==> Quiet(b, w))
  {
    hide SentThrough;
  }

  lemma SilentIfQuiet(net: Net, w: Who, f: Frame)
    requires net.Has(w)
    ensures Quiet(net, w) ==> SentThrough(net.Get(w).flows, 1, f, 1).None?
  {
  }

  lemma OnusQuietByFlows(a: Net, b: Net)
    requires SameFlows(a, b)
    ensures OnusQuiet(a) <==> OnusQuiet(b)
  {
    hide Quiet;
    forall i | 0 <= i < |a.onus|
      ensures Quiet(a, Onu(i)) <==> Quiet(b, Onu(i))
    {
      QuietByFlows(a, b, Onu(i));
    }
  }

  lemma NoHairpinIsQuiet(net: Net)
    requires NoHairpin(net)
    ensures Quiet(net, Olt) && OnusQuiet(net)
  {
    hide NoHairpin, SentThrough;
    forall w, f | net.Has(w)
      ensures SentThrough(net.Get(w).flows, 1, f, 1).None?
    {
      HairpinFree(net, w, 1, f);
    }
  }

  /** What the counters of the PON side owe after `w` has received a frame of that size. */
  ghost predicate Received(net: Net, n: Net, w: Who, size: nat) {
    && |n.onus| == |net.onus|
    && Upstream(n) == Upstream(net) - (if w == Olt then Counted(size) else 0)
    && forall i :: 0 <= i < |net.onus| ==>
         Downstream(n, i) == Downstream(net, i) - (if w == Onu(i) then Counted(size) else 0)
  }

  /** A frame from the PON is counted whether or not handling it then raises. */
  lemma Arrival(net: Net, w: Who, f: Frame, depth: nat)
    requires net.Valid() && net.Has(w) && SentThrough(net.Get(w).flows, 1, f, 1).None? && depth > 0
    ensures var o := Ingress(net, w, 1, f, depth);
            && o.status == (if Fails(net.Get(w).flows, 1, f) then Raise else Done)
            && Received(net, o.net, w, Size(f)) && Size(o.frame) == Size(f)
  {
    hide CountRx, CountTx, ChoiceOf, InPlace, ActAll, Size, Upstream, Downstream, Counted, Fails;
    FailsIff(net.Get(w).flows, 1, f);
    RxEntry(net, w, 1, Size(f));
    var n1 := CountRx(net, w, 1, Size(f));
    var c := ChoiceOf(net.Get(w).flows, 1, f);
    if c.Picked? {
      SameSizeInPlace(c.flow.actions, f);
      var sent, out := ActAll(c.flow.actions, f), EgressPort(c.flow.actions);
      if sent.Some? && out == Some(2) {
        TxEntry(n1, w, 2, Size(sent.value));
        var n2 := CountTx(n1, w, 2, Size(sent.value));
        OutToWorld(n2, Uplink(w), sent.value, depth - 1);
        EgressIsFree(n2, n2.(egress := n2.egress + [(Uplink(w), sent.value)]));
        assert Links(|net.onus|, w, 2) == [World(Uplink(w))];
        if !Rebuilds(c.flow.actions, f) {
          SameObjectSameFrame(c.flow.actions, f);
        }
      } else if sent.Some? && out.Some? {
        assert Links(|net.onus|, w, out.value) == [];
      }
    }
  }

  /** An ONU fails on a frame from the PON itself, or the OLT fails on what the ONU sends back. */
  ghost predicate OnuFails(net: Net, k: nat, f: Frame)
    requires k < |net.onus|
  {
    var h := SentThrough(net.onus[k].flows, 1, f, 1);
    Fails(net.onus[k].flows, 1, f) || (h.Some? && Fails(net.olt.flows, 1, h.value))
  }

  /** What the ONU leaves in the frame object, which the OLT shares if it is sent back as it is. */
  ghost function OnuLeft(net: Net, k: nat, f: Frame): Frame
    requires k < |net.onus|
  {
    var h, c := SentThrough(net.onus[k].flows, 1, f, 1), ChoiceOf(net.onus[k].flows, 1, f);
    if h.Some? && !Rebuilds(c.flow.actions, f) then Left(net.olt.flows, 1, h.value)
    else Left(net.onus[k].flows, 1, f)
  }

  /** The same at an ONU, which may send the frame back to an OLT that does not. */
  lemma OnuArrival(net: Net, k: nat, f: Frame, depth: nat)
    requires net.Valid() && k < |net.onus| && depth > 0
    requires var h := SentThrough(net.onus[k].flows, 1, f, 1);
             h.Some? ==> depth >= 2 && SentThrough(net.olt.flows, 1, h.value, 1).None?
    ensures var o := Ingress(net, Onu(k), 1, f, depth);
            && o.status == (if OnuFails(net, k, f) then Raise else Done)
            && SameFlows(net, o.net) && Received(net, o.net, Onu(k), Size(f))
            && o.frame == OnuLeft(net, k, f) && Size(o.frame) == Size(f)
  {
    hide CountRx, CountTx, ChoiceOf, InPlace, ActAll, Size, Upstream, Downstream, Counted, Fails, Forward;
    var w := Onu(k);
    var h := SentThrough(net.onus[k].flows, 1, f, 1);
    if h.None? {
      Arrival(net, w, f, depth);
      FromPon(net, w, f, depth);
    } else {
      FailsIff(net.onus[k].flows, 1, f);
      RxEntry(net, w, 1, Size(f));
      CountKeepsFlows(net, w, 1, Size(f));
      var n1 := CountRx(net, w, 1, Size(f));
      TxEntry(n1, w, 1, Size(h.value));
      CountKeepsFlows(n1, w, 1, Size(h.value));
      var n2 := CountTx(n1, w, 1, Size(h.value));
      OnlyOlt(n2, h.value, depth - 1);
      Arrival(n2, Olt, h.value, depth - 1);
      FromPon(n2, Olt, h.value, depth - 1);
      var c := ChoiceOf(net.onus[k].flows, 1, f);
      SameSizeInPlace(c.flow.actions, f);
      if !Rebuilds(c.flow.actions, f) {
        SameObjectSameFrame(c.flow.actions, f);
      }
    }
  }

  // ------------------------------------------------------------------- fan-out

  /** The frame ONU `i` finds in the object that the OLT sent as `g`. */
  ghost function Found(net: Net, g: Frame, i: nat): Frame
    requires i <= |net.onus|
  {
    if i == 0 then g else OnuLeft(net, i - 1, Found(net, g, i - 1))
  }

  /** No ONU from `k` up to `i` fails on the frame it finds. */
  ghost predicate Reached(net: Net, g: Frame, k: nat, i: nat)
    requires i <= |net.onus|
  {
    forall j :: k <= j < i ==> !OnuFails(net, j, Found(net, g, j))
  }

  /** Without echoes these are the frames and failures of `PonNet`. */
  lemma {:induction false} FoundIsSeen(net: Net, g: Frame, i: nat)
    requires OnusQuiet(net) && i <= |net.onus|
    ensures Found(net, g, i) == Seen(net.onus, g, i)
    ensures i < |net.onus| ==>
              (OnuFails(net, i, Found(net, g, i)) <==> Fails(net.onus[i].flows, 1, Seen(net.onus, g, i)))
  {
    hide Left, SentThrough, Fails;
    if i > 0 {
      FoundIsSeen(net, g, i - 1);
      SilentIfQuiet(net, Onu(i - 1), Found(net, g, i - 1));
    }
    if i < |net.onus| {
      SilentIfQuiet(net, Onu(i), Found(net, g, i));
    }
  }

  lemma OnuByFlows(a: Net, b: Net, k: nat, f: Frame)
    requires SameFlows(a, b) && k < |a.onus|
    ensures OnuLeft(a, k, f) == OnuLeft(b, k, f) && (OnuFails(a, k, f) <==> OnuFails(b, k, f))
  {
    hide SentThrough, Left, Fails, ChoiceOf, Rebuilds;
  }

  lemma {:induction false} FoundByFlows(a: Net, b: Net, g: Frame, i: nat)
    requires SameFlows(a, b) && i <= |a.onus|
    ensures Found(a, g, i) == Found(b, g, i)
  {
    hide OnuLeft;
    if i > 0 {
      FoundByFlows(a, b, g, i - 1);
      OnuByFlows(a, b, i - 1, Found(a, g, i - 1));
    }
  }

  lemma ReachedByFlows(a: Net, b: Net, g: Frame, k: nat, i: nat)
    requires SameFlows(a, b) && i <= |a.onus|
    ensures Reached(a, g, k, i) <==> Reached(b, g, k, i)
  {
    hide OnuFails, Found, SameFlows;
    SameFlowsJoin(a, b, b);
    forall j | k <= j < i
      ensures OnuFails(a, j, Found(a, g, j)) <==> OnuFails(b, j, Found(b, g, j))
    {
      FoundByFlows(a, b, g, j);
      OnuByFlows(a, b, j, Found(a, g, j));
    }
  }

  /** No ONU sends back what the OLT sends it, or the OLT then keeps it and there is room for that. */
  ghost predicate Airs(net: Net, depth: nat) {
    depth > 0 && (OnusQuiet(net) || (Quiet(net, Olt) && depth > 1))
  }

  lemma AirsByFlows(a: Net, b: Net, depth: nat)
    requires SameFlows(a, b)
    ensures Airs(a, depth) <==> Airs(b, depth)
  {
    hide Quiet, OnusQuiet;
    QuietByFlows(a, b, Olt);
    OnusQuietByFlows(a, b);
  }

  lemma AirArrival(net: Net, k: nat, f: Frame, depth: nat)
    requires net.Valid() && k < |net.onus| && Airs(net, depth)
    ensures var o := Ingress(net, Onu(k), 1, f, depth);
            && o.status == (if OnuFails(net, k, f) then Raise else Done)
            && SameFlows(net, o.net) && Received(net, o.net, Onu(k), Size(f))
            && o.frame == OnuLeft(net, k, f) && Size(o.frame) == Size(f)
  {
    hide Ingress, SentThrough, OnuFails, OnuLeft, SameFlows, Received, Size, Quiet;
    var h := SentThrough(net.onus[k].flows, 1, f, 1);
    if h.Some? {
      SilentIfQuiet(net, Onu(k), f);
      SilentIfQuiet(net, Olt, h.value);
    }
    OnuArrival(net, k, f, depth);
  }

  /** From the OLT's counters to those of the ONUs from `k` on: only the ONUs up to the first that
      fails, itself included, receive the frame. */
  ghost predicate FannedOut(net: Net, n: Net, g: Frame, k: nat) {
    && |n.onus| == |net.onus| && Upstream(n) == Upstream(net)
    && forall i :: 0 <= i < |net.onus| ==>
         Downstream(n, i) == Downstream(net, i) - (if k <= i && Reached(net, g, k, i) then Counted(Size(g)) else 0)
  }

  lemma {:induction false} FanOutCounts(net: Net, g: Frame, k: nat, depth: nat)
    requires net.Valid() && Airs(net, depth) && k <= |net.onus| && Size(Found(net, g, k)) == Size(g)
    ensures var o := Forward(net, Links(|net.onus|, Olt, 1)[k..], Found(net, g, k), depth);
            o.status == (if Reached(net, g, k, |net.onus|) then Done else Raise) && FannedOut(net, o.net, g, k)
    decreases |net.onus| - k
  {
    hide Ingress, Forward, Airs, OnuLeft, Links, OnuFails, Upstream, Downstream, Counted, Size;
    var f := Found(net, g, k);
    ForwardStep(net, k, f, depth);
    if k < |net.onus| {
      AirArrival(net, k, f, depth);
      var o := Ingress(net, Onu(k), 1, f, depth);
      if o.status == Done {
        AirsByFlows(net, o.net, depth);
        FoundByFlows(net, o.net, g, k + 1);
        FanOutCounts(o.net, g, k + 1, depth);
        forall i | k < i <= |net.onus|
          ensures Reached(net, g, k, i) <==> Reached(o.net, g, k + 1, i)
        {
          ReachedByFlows(net, o.net, g, k + 1, i);
        }
      }
    }
  }

  // -------------------------------------------------------------- one injection

  /** The frame that the OLT sends on the PON for one from outside: from the NNI, or from a UNI
      when the OLT sends back what an ONU sent it. */
  ghost function Cast(net: Net, w: Who, f: Frame): Option<Frame>
    requires net.Has(w)
  {
    var g := SentThrough(net.Get(w).flows, 2, f, 1);
    if w == Olt || g.None? then g else SentThrough(net.olt.flows, 1, g.value, 1)
  }

  /** A frame from outside gets to all ONUs if the OLT sends it on the PON at all: it is of a size
      that is not counted, or no ONU before the last fails on it. */
  ghost predicate Complete(net: Net, w: Who, f: Frame)
    requires net.Has(w)
  {
    var g := Cast(net, w, f);
    g.None? || Counted(Size(g.value)) == 0 || net.onus == [] || Reached(net, g.value, 0, |net.onus| - 1)
  }

  /** The counters of the PON side owe the same. */
  ghost predicate SameDebts(net: Net, n: Net) {
    && |n.onus| == |net.onus| && Upstream(n) == Upstream(net)
    && forall i :: 0 <= i < |net.onus| ==> Downstream(n, i) == Downstream(net, i)
  }

  /** The ONUs behind the first that fails on what was cast miss it. */
  ghost predicate Missed(net: Net, n: Net, g: Option<Frame>) {
    && |n.onus| == |net.onus| && Upstream(n) == Upstream(net)
    && forall i :: 0 <= i < |net.onus| ==>
         Downstream(n, i) == Downstream(net, i) +
           (if g.Some? && !Reached(net, g.value, 0, i) then Counted(Size(g.value)) else 0)
  }

  /** A frame from outside that is not sent on the PON does not touch its counters. */
  lemma OffThePon(net: Net, w: Who, f: Frame, depth: nat)
    requires net.Valid() && net.Has(w) && depth > 0 && SentThrough(net.Get(w).flows, 2, f, 1).None?
    ensures var o := Ingress(net, w, 2, f, depth); o.status != TooDeep && SameDebts(net, o.net)
  {
    hide CountRx, CountTx, ChoiceOf, InPlace, ActAll, Size, Upstream, Downstream, Counted;
    RxEntry(net, w, 2, Size(f));
    var n1 := CountRx(net, w, 2, Size(f));
    var c := ChoiceOf(net.Get(w).flows, 2, f);
    if c.Picked? {
      var sent, out := ActAll(c.flow.actions, f), EgressPort(c.flow.actions);
      if sent.Some? && out == Some(2) {
        TxEntry(n1, w, 2, Size(sent.value));
        var n2 := CountTx(n1, w, 2, Size(sent.value));
        OutToWorld(n2, Uplink(w), sent.value, depth - 1);
        EgressIsFree(n2, n2.(egress := n2.egress + [(Uplink(w), sent.value)]));
        assert Links(|net.onus|, w, 2) == [World(Uplink(w))];
      } else if sent.Some? && out.Some? {
        assert Links(|net.onus|, w, out.value) == [];
      }
    }
  }

  /** The OLT, having received a frame through `port`, casts `g`. */
  lemma CastCounts(net: Net, port: nat, f: Frame, g: Frame, depth: nat)
    requires net.Valid() && (port == 1 || port == 2) && SentThrough(net.olt.flows, port, f, 1) == Some(g)
    requires depth > 0 && (net.onus == [] || Airs(net, depth - 1))
    ensures var o, n1 := Ingress(net, Olt, port, f, depth), CountRx(net, Olt, port, Size(f));
            o.status != TooDeep && n1.Valid() && SameFlows(net, n1) && Missed(n1, o.net, Some(g))
  {
    hide CountRx, CountTx, ChoiceOf, InPlace, ActAll, Size, Airs, Upstream, Downstream, Counted, OnuFails, Forward;
    RxEntry(net, Olt, port, Size(f));
    CountKeepsFlows(net, Olt, port, Size(f));
    var n1 := CountRx(net, Olt, port, Size(f));
    if net.onus != [] {
      TxEntry(n1, Olt, 1, Size(g));
      CountKeepsFlows(n1, Olt, 1, Size(g));
      var n2 := CountTx(n1, Olt, 1, Size(g));
      AirsByFlows(net, n2, depth - 1);
      var links := Links(|net.onus|, Olt, 1);
      assert links[0..] == links;
      FanOutCounts(n2, g, 0, depth - 1);
      forall i | 0 <= i < |net.onus|
        ensures Reached(n1, g, 0, i) <==> Reached(n2, g, 0, i)
      {
        ReachedByFlows(n1, n2, g, 0, i);
      }
    }
  }

  lemma MissedByFlows(a: Net, b: Net, n: Net, g: Option<Frame>)
    requires SameFlows(a, b) && SameDebts(a, b) && Missed(b, n, g)
    ensures Missed(a, n, g)
  {
    hide Reached, Upstream, Downstream, Counted, Size;
    if g.Some? {
      forall i | 0 <= i < |a.onus|
        ensures Reached(a, g.value, 0, i) <==> Reached(b, g.value, 0, i)
      {
        ReachedByFlows(a, b, g.value, 0, i);
      }
    }
  }

  lemma NniCounts(net: Net, f: Frame, depth: nat)
    requires net.Valid() && Bounded(net, depth)
    ensures var o := Ingress(net, Olt, 2, f, depth);
            o.status != TooDeep && Missed(net, o.net, Cast(net, Olt, f))
  {
    hide Ingress, SentThrough, CountRx, Upstream, Downstream, Counted, Reached, Quiet, OnusQuiet, SameFlows;
    var g := SentThrough(net.olt.flows, 2, f, 1);
    if g.None? {
      OffThePon(net, Olt, f, depth);
    } else {
      CastCounts(net, 2, f, g.value, depth);
      RxEntry(net, Olt, 2, Size(f));
      MissedByFlows(net, CountRx(net, Olt, 2, Size(f)), Ingress(net, Olt, 2, f, depth).net, g);
    }
  }

  /** A frame that an ONU sends up is always received by the OLT, whatever raises later. */
  lemma UniCounts(net: Net, k: nat, f: Frame, depth: nat)
    requires net.Valid() && Bounded(net, depth) && k < |net.onus|
    ensures var o := Ingress(net, Onu(k), 2, f, depth);
            o.status != TooDeep && Missed(net, o.net, Cast(net, Onu(k), f))
  {
    hide CountRx, CountTx, ChoiceOf, InPlace, ActAll, Size, Upstream, Downstream, Counted, Forward, Reached, Quiet,
         OnusQuiet;
    var w := Onu(k);
    var g := SentThrough(net.Get(w).flows, 2, f, 1);
    if g.None? {
      OffThePon(net, w, f, depth);
    } else {
      RxEntry(net, w, 2, Size(f));
      CountKeepsFlows(net, w, 2, Size(f));
      var n1 := CountRx(net, w, 2, Size(f));
      TxEntry(n1, w, 1, Size(g.value));
      CountKeepsFlows(n1, w, 1, Size(g.value));
      var n2 := CountTx(n1, w, 1, Size(g.value));
      OnlyOlt(n2, g.value, depth - 1);
      SentUp(net, n2, g.value, depth - 1);
    }
  }

  /** The OLT takes over a frame that an ONU has sent and counted. */
  lemma SentUp(net: Net, n: Net, g: Frame, depth: nat)
    requires net.Valid() && n.Valid() && Bounded(net, depth + 1) && SameFlows(net, n) && net.onus != []
    requires Upstream(n) == Upstream(net) + Counted(Size(g))
    requires forall i :: 0 <= i < |net.onus| ==> Downstream(n, i) == Downstream(net, i)
    ensures var o := Ingress(n, Olt, 1, g, depth);
            o.status != TooDeep && Missed(net, o.net, SentThrough(net.olt.flows, 1, g, 1))
  {
    hide Ingress, SentThrough, CountRx, Upstream, Downstream, Counted, Reached, Size, OnusQuiet;
    var h := SentThrough(net.olt.flows, 1, g, 1);
    if h.None? {
      Arrival(n, Olt, g, depth);
    } else {
      SilentIfQuiet(net, Olt, g);
      AirsByFlows(net, n, depth - 1);
      CastCounts(n, 1, g, h.value, depth);
      RxEntry(n, Olt, 1, Size(g));
      var n1 := CountRx(n, Olt, 1, Size(g));
      MissedByFlows(net, n1, Ingress(n, Olt, 1, g, depth).net, h);
    }
  }

  /** After a frame from outside, the ONUs behind the first that fails on what the OLT cast for it
      are short of exactly that frame, and nothing else is. */
  lemma InjectCounts(net: Net, w: Who, f: Frame, depth: nat)
    requires net.Valid() && net.Has(w) && Bounded(net, depth)
    ensures var o := Ingress(net, w, 2, f, depth);
            o.status != TooDeep && Missed(net, o.net, Cast(net, w, f))
  {
    hide Ingress, Missed, Cast, Bounded;
    if w == Olt {
      NniCounts(net, f, depth);
    } else {
      UniCounts(net, w.i, f, depth);
    }
  }

  /** An OLT that does not echo casts nothing for a frame from a UNI. */
  lemma UniConserves(net: Net, k: nat, f: Frame, depth: nat)
    requires net.Valid() && k < |net.onus| && Quiet(net, Olt) && Bounded(net, depth)
    ensures SameDebts(net, Ingress(net, Onu(k), 2, f, depth).net)
  {
    hide Ingress, SentThrough, Upstream, Downstream, OnusQuiet;
    InjectCounts(net, Onu(k), f, depth);
    var g := SentThrough(net.onus[k].flows, 2, f, 1);
    if g.Some? {
      SilentIfQuiet(net, Olt, g.value);
    }
  }

  lemma ReachedAll(net: Net, g: Frame)
    ensures net.onus == [] || Reached(net, g, 0, |net.onus| - 1) <==>
            forall i :: 0 <= i < |net.onus| ==> Reached(net, g, 0, i)
  {
    hide OnuFails, Found;
  }

  /** It leaves a conserving network conserving exactly when what is cast gets to all ONUs. */
  lemma InjectConservesIff(net: Net, w: Who, f: Frame, depth: nat)
    requires net.Valid() && net.Has(w) && Bounded(net, depth) && Conserved(net)
    ensures Conserved(Ingress(net, w, 2, f, depth).net) <==> Complete(net, w, f)
  {
    hide Ingress, Bounded, Upstream, Downstream, Counted, Reached, Size, Cast;
    InjectCounts(net, w, f, depth);
    var g := Cast(net, w, f);
    if g.Some? {
      ReachedAll(net, g.value);
    }
  }

  // ------------------------------------------------------------------ whole runs

  lemma {:induction false} IngressKeepsFlows(net: Net, w: Who, port: nat, f: Frame, depth: nat)
    requires net.Valid() && net.Has(w) && (port == 1 || port == 2)
    ensures SameFlows(net, Ingress(net, w, port, f, depth).net)
    decreases depth, 0
  {
    hide CountRx, CountTx, ChoiceOf, InPlace, ActAll, Size, Rebuilds, EgressPort, SameFlows, Forward, Links;
    SameFlowsJoin(net, net, net);
    if depth > 0 {
      CountKeepsValid(net, w, port, Size(f));
      CountKeepsFlows(net, w, port, Size(f));
      var n1 := CountRx(net, w, port, Size(f));
      SameFlowsJoin(net, n1, n1);
      var c := ChoiceOf(net.Get(w).flows, port, f);
      if c.Picked? {
        var sent, out := ActAll(c.flow.actions, f), EgressPort(c.flow.actions);
        if sent.Some? && out.Some? && Links(|net.onus|, w, out.value) != [] {
          PortsWithLinks(|net.onus|, w, out.value);
          CountKeepsValid(n1, w, out.value, Size(sent.value));
          CountKeepsFlows(n1, w, out.value, Size(sent.value));
          var n2 := CountTx(n1, w, out.value, Size(sent.value));
          SameFlowsJoin(net, n1, n2);
          ForwardKeepsFlows(n2, Links(|net.onus|, w, out.value), sent.value, depth - 1);
          SameFlowsJoin(net, n2, Forward(n2, Links(|net.onus|, w, out.value), sent.value, depth - 1).net);
        }
      }
    }
  }

  lemma SameFlowsJoin(a: Net, b: Net, c: Net)
    ensures SameFlows(a, a) && (SameFlows(a, b) ==> |a.onus| == |b.onus|)
    ensures SameFlows(a, b) && SameFlows(b, c) ==> SameFlows(a, c)
  {
  }

  lemma {:induction false} ForwardKeepsFlows(net: Net, links: seq<Target>, f: Frame, depth: nat)
    requires net.Valid() && forall k :: 0 <= k < |links| && links[k].Device? ==> net.Has(links[k].who)
    ensures SameFlows(net, Forward(net, links, f, depth).net)
    decreases depth, |links| + 1
  {
    hide Ingress;
    if links != [] {
      match links[0]
      case World(p) =>
        var n := net.(egress := net.egress + [(p, f)]);
        EgressIsFree(net, n);
        ForwardKeepsFlows(n, links[1..], f, depth);
      case Device(w) =>
        IngressKeepsFlows(net, w, 1, f, depth);
        var o := Ingress(net, w, 1, f, depth);
        if o.status == Done {
          ForwardKeepsFlows(o.net, links[1..], o.frame, depth);
        }
    }
  }

  /** What an operation does to the flow tables: only an install changes them. */
  function Tables(net: Net, op: Op): Net {
    if op.Install? && net.Has(op.who) then net.Put(op.who, net.Get(op.who).(flows := SortDesc(op.flows))) else net
  }

  /** Whenever a frame is injected one side of the PON at most echoes, and the calls have room. */
  ghost predicate Calm(tables: Net, ops: seq<Op>)
    decreases |ops|
  {
    ops == [] ||
    ((ops[0].Inject? ==> Bounded(tables, ops[0].depth)) && Calm(Tables(tables, ops[0]), ops[1..]))
  }

  /** Every frame that the OLT casts for an injected one gets to all ONUs, by the tables of the time. */
  ghost predicate AllComplete(tables: Net, ops: seq<Op>)
    decreases |ops|
  {
    ops == [] ||
    ((ops[0].Inject? && tables.Has(ops[0].who) ==> Complete(tables, ops[0].who, ops[0].frame)) &&
     AllComplete(Tables(tables, ops[0]), ops[1..]))
  }

  lemma CompleteByFlows(a: Net, b: Net, w: Who, f: Frame)
    requires SameFlows(a, b) && a.Has(w)
    ensures Complete(a, w, f) <==> Complete(b, w, f)
  {
    hide SentThrough, Counted, Size, Reached;
    var g := Cast(a, w, f);
    if g.Some? && a.onus != [] {
      ReachedByFlows(a, b, g.value, 0, |a.onus| - 1);
    }
  }

  lemma BoundedByFlows(a: Net, b: Net, depth: nat)
    requires SameFlows(a, b)
    ensures Bounded(a, depth) <==> Bounded(b, depth)
  {
    hide Quiet, OnusQuiet;
    QuietByFlows(a, b, Olt);
    OnusQuietByFlows(a, b);
  }

  /** Operations only add to what is owed. */
  lemma DebtsGrow(net: Net, op: Op)
    requires net.Valid()
    ensures var n := Perform(net, op).1;
            && Upstream(n) >= Upstream(net)
            && forall i :: 0 <= i < |net.onus| ==> Downstream(n, i) >= Downstream(net, i)
  {
    hide Upstream, Downstream, Ingress, Counted;
    if net.Has(op.who) {
      match op
      case Install(w, flows) => InstallKeeps(net, w, flows);
      case Inject(w, f, depth) => IngressLedger(net, w, 2, f, depth);
    }
  }

  lemma {:induction false} LossStays(net: Net, ops: seq<Op>)
    requires net.Valid() && NothingInvented(net) && !Conserved(net)
    ensures !Conserved(PerformAll(net, ops))
    decreases |ops|
  {
    hide Upstream, Downstream, Perform;
    if ops != [] {
      DebtsGrow(net, ops[0]);
      LossStays(Perform(net, ops[0]).1, ops[1..]);
    }
  }

  lemma StepConservesIff(net: Net, tables: Net, op: Op)
    requires net.Valid() && SameFlows(net, tables) && Conserved(net)
    requires op.Inject? ==> Bounded(tables, op.depth)
    ensures var n := Perform(net, op).1;
            && SameFlows(n, Tables(tables, op)) && NothingInvented(n)
            && (Conserved(n) <==> (op.Inject? && tables.Has(op.who) ==> Complete(tables, op.who, op.frame)))
  {
    hide Upstream, Downstream, Ingress, Complete, Bounded, SortDesc;
    DebtsGrow(net, op);
    match op
    case Install(w, flows) =>
      if net.Has(w) {
        InstallKeeps(net, w, flows);
      }
    case Inject(w, f, depth) =>
      if net.Has(w) {
        BoundedByFlows(net, tables, depth);
        IngressKeepsFlows(net, w, 2, f, depth);
        InjectConservesIff(net, w, f, depth);
        CompleteByFlows(net, tables, w, f);
      }
  }

  /** After any installs and injections everything sent on the PON was received, and counted the
      same on both sides, exactly when every frame that the OLT sends on it gets to all ONUs. */
  lemma {:induction false} ConservedOverRunsIff(net: Net, tables: Net, ops: seq<Op>)
    requires net.Valid() && SameFlows(net, tables) && Conserved(net) && Calm(tables, ops)
    ensures Conserved(PerformAll(net, ops)) <==> AllComplete(tables, ops)
    decreases |ops|
  {
    hide Conserved, NothingInvented, Perform, SameFlows, Complete, Tables, Bounded;
    if ops != [] {
      var n, t := Perform(net, ops[0]).1, Tables(tables, ops[0]);
      StepConservesIff(net, tables, ops[0]);
      if Conserved(n) {
        ConservedOverRunsIff(n, t, ops[1..]);
      } else {
        LossStays(n, ops[1..]);
      }
    }
  }

  /** Tables that never name the ingress port as output keep every run calm. */
  ghost predicate Pinned(net: Net) {
    forall w, flow :: net.Has(w) && flow in net.Get(w).flows ==> PinsOtherPort(flow)
  }

  lemma {:induction false} PinnedIsCalm(tables: Net, ops: seq<Op>)
    requires Pinned(tables)
    requires forall op :: op in ops ==>
               if op.Install? then forall flow :: flow in op.flows ==> PinsOtherPort(flow) else op.depth >= 2
    ensures Calm(tables, ops)
    decreases |ops|
  {
    hide PinsOtherPort, SortDesc, Quiet, OnusQuiet;
    if ops != [] {
      var op := ops[0];
      assert op in ops;
      PinnedPortsSuffice(tables);
      NoHairpinIsQuiet(tables);
      PinnedTables(tables, op);
      PinnedIsCalm(Tables(tables, op), ops[1..]);
    }
  }

  lemma PinnedTables(tables: Net, op: Op)
    requires Pinned(tables) && (op.Install? ==> forall flow :: flow in op.flows ==> PinsOtherPort(flow))
    ensures Pinned(Tables(tables, op))
  {
    hide PinsOtherPort, SortDesc;
    if op.Install? {
      SortIsDescending(op.flows);
      SameMembers(SortDesc(op.flows), op.flows);
      var t := Tables(tables, op);
      forall w, flow | t.Has(w) && flow in t.Get(w).flows
        ensures PinsOtherPort(flow)
      {
        if w != op.who {
          assert tables.Has(w) && t.Get(w) == tables.Get(w);
        }
      }
    }
  }

  // ---------------------------------------------------------------- a lost frame

  const DOWN := Flow(1, [InPort(2)], [Output(1)])
  const CHOKES := Flow(1, [Unsupported], [])
  const ZERO := Counter([0, 1, 2, 3, 4, 5, 6], [0, 0, 0, 0, 0, 0, 0], [0, 0, 0, 0, 0, 0, 0])
  const LOSSY := Net(Dev([DOWN], ZERO, ZERO), [Dev([CHOKES], ZERO, ZERO), Dev([], ZERO, ZERO)], [])
  const PLAIN := Frame("", "", 0, [], Payload(100, None, None))

  lemma LossyIsPinned()
    ensures LOSSY.Valid() && Pinned(LOSSY)
  {
    hide PinsOtherPort, Counter.Valid;
    ZeroIsValid();
    PinnedFlows();
    forall w | LOSSY.Has(w)
      ensures w == Olt || w == Onu(0) || w == Onu(1)
    {
    }
    forall flow | flow in [DOWN] || flow in [CHOKES]
      ensures PinsOtherPort(flow)
    {
    }
  }

  lemma ZeroIsValid()
    ensures ZERO.Valid()
  {
    assert forall b :: 0 <= b < |BINS| ==> ZERO.order[b] == b;
  }

  lemma PinnedFlows()
    ensures PinsOtherPort(DOWN) && PinsOtherPort(CHOKES)
  {
    assert DOWN.fields[0] == InPort(2) && EgressPort(DOWN.actions) == Some(1);
    assert EgressPort(CHOKES.actions) == None;
  }

  lemma {:induction false} NoCounts(s: seq<nat>)
    requires forall i :: 0 <= i < |s| ==> s[i] == 0
    ensures Sum(s) == 0
  {
    if s != [] {
      NoCounts(s[..|s| - 1]);
    }
  }

  lemma LossyConserves()
    ensures Conserved(LOSSY)
  {
    NoCounts(ZERO.pon);
    var onus := LOSSY.onus;
    assert onus[..1] == [onus[0]] && onus[..1][..0] == [];
    assert SumTx(onus) == SumTx(onus[..1]) + Total(onus[1].tx, 1);
  }

  lemma DownIsPicked()
    ensures Cast(LOSSY, Olt, PLAIN) == Some(PLAIN)
  {
    var flows := [DOWN];
    assert DOWN.fields[..0] == [] && DOWN.actions[1..] == [];
    assert OrBits(DOWN.fields) == 128;
    assert MatchOf(DOWN, 2, PLAIN) == Mask(128);
    assert IsBest(flows, 0, 2, PLAIN);
    assert IsChoice(flows, 2, PLAIN, Picked(DOWN));
    ChoiceUnique(flows, 2, PLAIN, Picked(DOWN), ChoiceOf(flows, 2, PLAIN));
    assert EgressPort(DOWN.actions) == Some(1);
  }

  lemma ChokesFails()
    ensures Fails([CHOKES], 1, PLAIN)
  {
    assert CHOKES.fields[0].Unsupported? && AllMatch(CHOKES.fields[..0], 1, PLAIN);
    assert Chokes(CHOKES.fields, 1, PLAIN);
    assert MatchOf(CHOKES, 1, PLAIN).Raises? && CHOKES in [CHOKES];
  }

  /** A conserving network that one frame puts out of balance: the first ONU fails on it, so the
      second never receives what the OLT has counted as sent. */
  lemma FrameLost(depth: nat)
    requires depth >= 2
    ensures LOSSY.Valid() && Conserved(LOSSY)
    ensures var n := Perform(LOSSY, Inject(Olt, PLAIN, depth)).1;
            !Conserved(n) && |n.onus| == 2 && Downstream(n, 1) == 1
  {
    hide Ingress, Upstream, Downstream, Fails, SentThrough, Quiet, OnusQuiet;
    LossyIsPinned();
    LossyConserves();
    PinnedPortsSuffice(LOSSY);
    NoHairpinIsQuiet(LOSSY);
    InjectCounts(LOSSY, Olt, PLAIN, depth);
    DownIsPicked();
    ChokesFails();
    assert Found(LOSSY, PLAIN, 0) == PLAIN && OnuFails(LOSSY, 0, PLAIN);
    assert !Reached(LOSSY, PLAIN, 0, 1);
  }
}
