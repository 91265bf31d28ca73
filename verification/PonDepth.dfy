/** How deep delivery recurses on the PON, and when no depth suffices (ponsim/ponsim.py). */
module PonDepth {
  import opened Collections
  import opened PonFlows
  import opened PonActions
  import opened PonNet
  import opened PonConservation

  /** If only one side of the PON sends frames back, every injection ends within three calls. */
  lemma ThreeCallsSuffice(net: Net, w: Who, f: Frame, depth: nat)
    requires net.Valid() && net.Has(w) && (Quiet(net, Olt) || OnusQuiet(net)) && depth >= 3
    ensures Ingress(net, w, 2, f, depth).status != TooDeep
  {
    hide Ingress, Quiet, OnusQuiet;
    InjectCounts(net, w, f, depth);
  }

  // ------------------------------------------------------- frames handed on as they are

  ghost predicate Echoes(net: Net, w: Who, f: Frame)
    requires net.Has(w)
  {
    SentThrough(net.Get(w).flows, 1, f, 1).Some?
  }

  /** A device that gets the frame from the PON leaves it as it was, and sends it back so if at all. */
  ghost predicate HandsOn(net: Net, w: Who, f: Frame)
    requires net.Has(w)
  {
    && Left(net.Get(w).flows, 1, f) == f
    && (Echoes(net, w, f) ==> SentThrough(net.Get(w).flows, 1, f, 1) == Some(f))
  }

  ghost predicate Unaltered(net: Net, f: Frame) {
    HandsOn(net, Olt, f) && forall i :: 0 <= i < |net.onus| ==> HandsOn(net, Onu(i), f)
  }

  predicate OnlyOutputs(flows: seq<Flow>) {
    forall flow, a :: flow in flows && a in flow.actions ==> a.Output?
  }

  lemma {:induction false} OutputsChangeNothing(actions: seq<Action>, f: Frame)
    requires forall a :: a in actions ==> a.Output?
    ensures ActAll(actions, f) == Some(f) && InPlace(actions, f) == f
    decreases |actions|
  {
    if actions != [] {
      assert actions[0] in actions;
      OutputsChangeNothing(actions[1..], f);
    }
  }

  /** In particular when all flows do nothing but output. */
  lemma OutputsAreUnaltered(net: Net, f: Frame)
    requires forall w :: net.Has(w) ==> OnlyOutputs(net.Get(w).flows)
    ensures Unaltered(net, f)
  {
    hide ActAll, InPlace, EgressPort, AllMatch;
    forall w | net.Has(w)
      ensures HandsOn(net, w, f)
    {
      var c := ChoiceOf(net.Get(w).flows, 1, f);
      if c.Picked? {
        PickedMatches(net.Get(w).flows, 1, f, c);
        OutputsChangeNothing(c.flow.actions, f);
      }
    }
  }

  /** No ONU before `k` fails on the frame or echoes it. */
  ghost predicate Passed(net: Net, f: Frame, k: nat)
    requires k <= |net.onus|
  {
    forall j :: 0 <= j < k ==> !Fails(net.onus[j].flows, 1, f) && !Echoes(net, Onu(j), f)
  }

  /** The OLT echoes the frame, and the first ONU that fails on it or echoes it is `k`, which echoes it. */
  ghost predicate CirclesAt(net: Net, f: Frame, k: nat) {
    Echoes(net, Olt, f) && k < |net.onus| && Passed(net, f, k) && Echoes(net, Onu(k), f)
  }

  ghost predicate Circles(net: Net, f: Frame) { exists k: nat :: CirclesAt(net, f, k) }

  lemma ByFlows(a: Net, b: Net, f: Frame)
    requires SameFlows(a, b)
    ensures Unaltered(a, f) <==> Unaltered(b, f)
    ensures forall w :: a.Has(w) ==> b.Has(w) && (Echoes(a, w, f) <==> Echoes(b, w, f))
    ensures forall k: nat :: k <= |a.onus| ==> (Passed(a, f, k) <==> Passed(b, f, k))
    ensures forall k: nat :: CirclesAt(a, f, k) <==> CirclesAt(b, f, k)
  {
    hide SentThrough, Left, Fails;
    assert forall w :: a.Has(w) ==> b.Has(w) && a.Get(w).flows == b.Get(w).flows;
    assert forall i :: 0 <= i < |a.onus| ==> (HandsOn(a, Onu(i), f) <==> HandsOn(b, Onu(i), f));
    assert forall i :: 0 <= i < |a.onus| ==> (Echoes(a, Onu(i), f) <==> Echoes(b, Onu(i), f));
  }

  /** A device that sends a frame on the PON ends as delivery along its links does. */
  lemma OntoThePon(net: Net, w: Who, port: nat, f: Frame, g: Frame, depth: nat) returns (n: Net)
    requires net.Valid() && net.Has(w) && (port == 1 || port == 2) && depth > 0 && net.onus != []
    requires SentThrough(net.Get(w).flows, port, f, 1) == Some(g)
    ensures n.Valid() && SameFlows(net, n) && |n.onus| == |net.onus|
    ensures forall t :: t in Links(|net.onus|, w, 1) && t.Device? ==> n.Has(t.who)
    ensures Ingress(net, w, port, f, depth).status == Forward(n, Links(|net.onus|, w, 1), g, depth - 1).status
  {
    hide CountRx, CountTx, ChoiceOf, InPlace, ActAll, Size, Forward;
    CountKeepsValid(net, w, port, Size(f));
    CountKeepsFlows(net, w, port, Size(f));
    var n1 := CountRx(net, w, port, Size(f));
    CountKeepsValid(n1, w, 1, Size(g));
    CountKeepsFlows(n1, w, 1, Size(g));
    n := CountTx(n1, w, 1, Size(g));
    assert Links(|net.onus|, w, 1)[0].Device?;
  }

  /** What an ONU does with a frame that it does not echo, or that the OLT does not echo then. */
  lemma OnuPasses(net: Net, k: nat, f: Frame, depth: nat)
    requires net.Valid() && k < |net.onus| && Unaltered(net, f) && depth > 0
    requires Echoes(net, Onu(k), f) ==> depth >= 2 && !Echoes(net, Olt, f)
    ensures var o := Ingress(net, Onu(k), 1, f, depth);
            && o.status == (if OnuFails(net, k, f) then Raise else Done)
            && SameFlows(net, o.net) && o.frame == f
  {
    hide Ingress, SentThrough, Left, Fails, SameFlows, Received, ChoiceOf, Rebuilds, Size;
    assert HandsOn(net, Onu(k), f);
    OnuArrival(net, k, f, depth);
  }

  lemma NoRoom(net: Net, w: Who, port: nat, f: Frame)
    requires net.Valid() && net.Has(w) && (port == 1 || port == 2)
    ensures Ingress(net, w, port, f, 0).status == TooDeep
  {
  }

  // ------------------------------------------------------------------- never ending

  lemma {:induction false} CirclesForever(net: Net, f: Frame, e: nat, depth: nat)
    requires net.Valid() && Unaltered(net, f) && CirclesAt(net, f, e)
    ensures Ingress(net, Olt, 1, f, depth).status == TooDeep
    decreases depth, 0
  {
    hide Ingress, Forward, SameFlows, SentThrough, Passed, Left;
    if depth == 0 {
      NoRoom(net, Olt, 1, f);
    } else {
      var n := OntoThePon(net, Olt, 1, f, f, depth);
      ByFlows(net, n, f);
      var links := Links(|net.onus|, Olt, 1);
      assert links[0..] == links;
      FansForever(n, f, e, 0, depth - 1);
    }
  }

  lemma {:induction false} FansForever(net: Net, f: Frame, e: nat, k: nat, depth: nat)
    requires net.Valid() && Unaltered(net, f) && CirclesAt(net, f, e) && k <= e
    ensures Forward(net, Links(|net.onus|, Olt, 1)[k..], f, depth).status == TooDeep
    decreases depth, 1 + e - k
  {
    hide Ingress, Forward, SameFlows, SentThrough, Left, Fails;
    ForwardStep(net, k, f, depth);
    if depth == 0 {
      NoRoom(net, Onu(k), 1, f);
    } else if k < e {
      OnuPasses(net, k, f, depth);
      var o := Ingress(net, Onu(k), 1, f, depth);
      ByFlows(net, o.net, f);
      FansForever(o.net, f, e, k + 1, depth);
    } else {
      assert HandsOn(net, Onu(k), f);
      var n := OntoThePon(net, Onu(k), 1, f, f, depth);
      ByFlows(net, n, f);
      OnlyOlt(n, f, depth - 1);
      CirclesForever(n, f, e, depth - 1);
    }
  }

  // ------------------------------------------------------------------------- ending

  lemma {:induction false} FanEnds(net: Net, f: Frame, k: nat, depth: nat)
    requires net.Valid() && Unaltered(net, f) && k <= |net.onus| && depth > 0
    requires if Echoes(net, Olt, f) then Passed(net, f, k) && !Circles(net, f) else depth >= 2
    ensures Forward(net, Links(|net.onus|, Olt, 1)[k..], f, depth).status != TooDeep
    decreases |net.onus| - k
  {
    hide Ingress, Forward, SameFlows, SentThrough, Left, Fails, Links, Unaltered;
    ForwardStep(net, k, f, depth);
    if k < |net.onus| {
      assert Echoes(net, Olt, f) && Echoes(net, Onu(k), f) ==> CirclesAt(net, f, k);
      OnuPasses(net, k, f, depth);
      var o := Ingress(net, Onu(k), 1, f, depth);
      if o.status == Done {
        ByFlows(net, o.net, f);
        FanEnds(o.net, f, k + 1, depth);
      }
    }
  }

  lemma OltEnds(net: Net, f: Frame, depth: nat)
    requires net.Valid() && Unaltered(net, f) && !Circles(net, f) && net.onus != [] && depth >= 2
    ensures Ingress(net, Olt, 1, f, depth).status != TooDeep
  {
    hide Ingress, Forward, SameFlows, SentThrough, Left, Fails, Received;
    if Echoes(net, Olt, f) {
      var n := OntoThePon(net, Olt, 1, f, f, depth);
      ByFlows(net, n, f);
      var links := Links(|net.onus|, Olt, 1);
      assert links[0..] == links;
      FanEnds(n, f, 0, depth - 1);
    } else {
      Arrival(net, Olt, f, depth);
    }
  }

  // -------------------------------------------------------------------- the injection

  lemma NniEndsIff(net: Net, f: Frame, g: Frame, depth: nat)
    requires net.Valid() && net.onus != [] && depth > 0
    requires SentThrough(net.olt.flows, 2, f, 1) == Some(g) && Unaltered(net, g)
    ensures Circles(net, g) ==> Ingress(net, Olt, 2, f, depth).status == TooDeep
    ensures depth >= 3 && !Circles(net, g) ==> Ingress(net, Olt, 2, f, depth).status != TooDeep
  {
    hide Ingress, Forward, SameFlows, SentThrough, Unaltered, CirclesAt;
    var n := OntoThePon(net, Olt, 2, f, g, depth);
    ByFlows(net, n, g);
    var links := Links(|net.onus|, Olt, 1);
    assert links[0..] == links;
    if Circles(net, g) {
      var e: nat :| CirclesAt(net, g, e);
      FansForever(n, g, e, 0, depth - 1);
    } else if depth >= 3 {
      FanEnds(n, g, 0, depth - 1);
    }
  }

  lemma UniEndsIff(net: Net, k: nat, f: Frame, g: Frame, depth: nat)
    requires net.Valid() && k < |net.onus| && depth > 0
    requires SentThrough(net.onus[k].flows, 2, f, 1) == Some(g) && Unaltered(net, g)
    ensures Circles(net, g) ==> Ingress(net, Onu(k), 2, f, depth).status == TooDeep
    ensures depth >= 3 && !Circles(net, g) ==> Ingress(net, Onu(k), 2, f, depth).status != TooDeep
  {
    hide Ingress, Forward, SameFlows, SentThrough, Unaltered, CirclesAt;
    var n := OntoThePon(net, Onu(k), 2, f, g, depth);
    ByFlows(net, n, g);
    OnlyOlt(n, g, depth - 1);
    if Circles(net, g) {
      var e: nat :| CirclesAt(net, g, e);
      CirclesForever(n, g, e, depth - 1);
    } else if depth >= 3 {
      OltEnds(n, g, depth - 1);
    }
  }

  /** What an injected frame puts on the PON, if devices hand it on as it is: no call depth suffices
      when it circles between the OLT and an ONU, and three calls do otherwise. */
  lemma EndsIff(net: Net, w: Who, f: Frame, depth: nat)
    requires net.Valid() && net.Has(w)
    requires var g := SentThrough(net.Get(w).flows, 2, f, 1); g.Some? ==> Unaltered(net, g.value)
    ensures var g := SentThrough(net.Get(w).flows, 2, f, 1);
            var o := Ingress(net, w, 2, f, depth);
            && (g.Some? && Circles(net, g.value) ==> o.status == TooDeep)
            && (depth >= 3 && !(g.Some? && Circles(net, g.value)) ==> o.status != TooDeep)
  {
    hide Ingress, SentThrough, Unaltered;
    var g := SentThrough(net.Get(w).flows, 2, f, 1);
    if depth == 0 {
      NoRoom(net, w, 2, f);
    } else if g.None? {
      OffThePon(net, w, f, depth);
    } else if w != Olt {
      UniEndsIff(net, w.i, f, g.value, depth);
    } else if net.onus != [] {
      NniEndsIff(net, f, g.value, depth);
    } else if depth >= 3 {
      ThreeCallsSuffice(net, w, f, depth);
    }
  }
}
