/** The simulator's objects: devices that count and select in place, one frame object
    handed on by reference (ponsim/ponsim.py). They do what `PonNet` says on values. */
module PonSimulator {
  import opened Collections
  import opened PonFlows
  import opened PonActions
  import opened PonNet

  /** `count_rx_frame` and `count_tx_frame`: the first fitting bin in dictionary order. */
  method CountFrame(c: Counter, port: nat, size: nat) returns (d: Counter)
    requires c.Valid() && (port == 1 || port == 2)
    ensures d == Count(c, port, size)
  {
    for i := 0 to |c.order|
      invariant FirstFit(c.order, size) == FirstFit(c.order[i..], size)
    {
      var b := c.order[i];
      assert c.order[i..][1..] == c.order[i + 1..];
      if BINS[b].0 <= size <= BINS[b].1 {
        return if port == 1 then c.(pon := c.pon[b := c.pon[b] + 1]) else c.(nni := c.nni[b := c.nni[b] + 1]);
      }
    }
    d := c;
  }

  class SimDevice {
    var flows: seq<Flow>
    var rx: Counter
    var tx: Counter

    function Value(): Dev
      reads this
    {
      Dev(flows, rx, tx)
    }

    ghost predicate Sound()
      reads this
    {
      Descending(flows) && rx.Valid() && tx.Valid()
    }

    constructor (rxOrder: seq<nat>, txOrder: seq<nat>)
      requires Counter(rxOrder, ZEROS, ZEROS).Valid() && Counter(txOrder, ZEROS, ZEROS).Valid()
      ensures Value() == Dev([], Counter(rxOrder, ZEROS, ZEROS), Counter(txOrder, ZEROS, ZEROS))
    {
      flows, rx, tx := [], Counter(rxOrder, ZEROS, ZEROS), Counter(txOrder, ZEROS, ZEROS);
    }

    method CountRx(port: nat, size: nat)
      requires Sound() && (port == 1 || port == 2)
      modifies this`rx
      ensures Sound() && rx == Count(old(rx), port, size)
    {
      CountedOnce(rx, port, size);
      var c := CountFrame(rx, port, size);
      rx := c;
    }

    method CountTx(port: nat, size: nat)
      requires Sound() && (port == 1 || port == 2)
      modifies this`tx
      ensures Sound() && tx == Count(old(tx), port, size)
    {
      CountedOnce(tx, port, size);
      var c := CountFrame(tx, port, size);
      tx := c;
    }

    method InstallFlows(installed: seq<Flow>)
      modifies this
      ensures Value() == old(Value()).(flows := SortDesc(installed)) && Descending(flows)
    {
      SortIsDescending(installed);
      flows := SortDesc(installed);
    }
  }

  const ZEROS: seq<nat> := [0, 0, 0, 0, 0, 0, 0]

  class PonSim {
    const olt: SimDevice
    const onus: seq<SimDevice>
    var egress: seq<(nat, Frame)>

    ghost predicate Valid()
      reads this, olt, onus
    {
      && olt !in onus && Distinct(onus)
      && olt.Sound() && forall i :: 0 <= i < |onus| ==> onus[i].Sound()
    }

    /** The network as a value. */
    ghost function View(): Net
      reads this, olt, onus
    {
      Net(olt.Value(), seq(|onus|, i requires 0 <= i < |onus| reads onus => onus[i].Value()), egress)
    }

    function At(w: Who): (d: SimDevice)
      requires w.Onu? ==> w.i < |onus|
      ensures d == olt || d in onus
    {
      if w.Olt? then olt else onus[w.i]
    }

    constructor (count: nat, rxOrder: seq<nat>, txOrder: seq<nat>)
      requires Counter(rxOrder, ZEROS, ZEROS).Valid() && Counter(txOrder, ZEROS, ZEROS).Valid()
      ensures Valid() && |onus| == count && egress == []
      ensures fresh(olt) && forall i :: 0 <= i < count ==> fresh(onus[i])
      ensures forall w :: View().Has(w) ==>
                View().Get(w) == Dev([], Counter(rxOrder, ZEROS, ZEROS), Counter(txOrder, ZEROS, ZEROS))
    {
      ghost var blank := Dev([], Counter(rxOrder, ZEROS, ZEROS), Counter(txOrder, ZEROS, ZEROS));
      var o := new SimDevice(rxOrder, txOrder);
      var all: seq<SimDevice> := [];
      for i := 0 to count
        invariant |all| == i && o !in all && Distinct(all)
        invariant o.Value() == blank && forall k :: 0 <= k < i ==> fresh(all[k]) && all[k].Value() == blank
      {
        var d := new SimDevice(rxOrder, txOrder);
        all := all + [d];
      }
      olt, onus, egress := o, all, [];
    }

    lemma ViewIsValid()
      requires Valid()
      ensures View().Valid() && |View().onus| == |onus|
      ensures forall w :: View().Has(w) ==> View().Get(w) == At(w).Value() && Descending(At(w).flows)
    {
    }

    lemma DeviceAt(w: Who)
      requires Valid() && (w.Onu? ==> w.i < |onus|)
      ensures View().Valid() && |View().onus| == |onus| && View().Get(w) == At(w).Value() && Descending(At(w).flows)
    {
      ViewIsValid();
    }

    /** Counts a frame received by one device. */
    method Receive(w: Who, port: nat, size: nat)
      requires Valid() && (w.Onu? ==> w.i < |onus|) && (port == 1 || port == 2)
      modifies At(w)
      ensures Valid() && old(View()).Valid() && View() == CountRx(old(View()), w, port, size)
      ensures At(w).flows == old(At(w).flows)
    {
      hide Count;
      DeviceAt(w);
      At(w).CountRx(port, size);
    }

    method Send(w: Who, port: nat, size: nat)
      requires Valid() && (w.Onu? ==> w.i < |onus|) && (port == 1 || port == 2)
      modifies At(w)
      ensures Valid() && old(View()).Valid() && View() == CountTx(old(View()), w, port, size)
      ensures At(w).flows == old(At(w).flows)
    {
      hide Count;
      DeviceAt(w);
      At(w).CountTx(port, size);
    }

    /** `ingress`: what happens to the devices and to the frame object is what `PonNet.Ingress` says. */
    method Ingress(w: Who, port: nat, box: FrameBox, depth: nat) returns (status: Status)
      requires Valid() && (w.Onu? ==> w.i < |onus|) && (port == 1 || port == 2)
      modifies this, olt, onus, box
      ensures Valid() && old(View()).Valid()
      ensures var o := PonNet.Ingress(old(View()), w, port, old(box.frame), depth);
              View() == o.net && box.frame == o.frame && status == o.status
      decreases depth, 0
    {
      hide CountRx, CountTx, Size, IsChoice, InPlace, ActAll, EgressPort, Rebuilds, Links, Descending, PonNet.Forward,
           Valid, View;
      DeviceAt(w);
      if depth == 0 {
        return TooDeep;
      }
      Receive(w, port, Size(box.frame));
      DeviceAt(w);
      var c := Select(At(w).flows, port, box.frame);
      ChoiceUnique(At(w).flows, port, box.frame, c, ChoiceOf(At(w).flows, port, box.frame));
      match c
      case Raised => return Raise;
      case Dropped => return Done;
      case Picked(flow) =>
        var ok, out, sent := ProcessActions(flow.actions, box);
        if !ok {
          return Raise;
        }
        if out.None? || Links(|onus|, w, out.value) == [] {
          return Done;
        }
        PortsWithLinks(|onus|, w, out.value);
        Send(w, out.value, Size(sent.frame));
        DeviceAt(w);
        status := Forward(Links(|onus|, w, out.value), sent, depth - 1);
    }

    method Forward(links: seq<Target>, box: FrameBox, depth: nat) returns (status: Status)
      requires Valid() && forall k :: 0 <= k < |links| && links[k].Device? ==> View().Has(links[k].who)
      modifies this, olt, onus, box
      ensures Valid() && old(View()).Valid()
      ensures var o := PonNet.Forward(old(View()), links, old(box.frame), depth);
              View() == o.net && box.frame == o.frame && status == o.status
      decreases depth, 1
    {
      hide PonNet.Ingress;
      ViewIsValid();
      for i := 0 to |links|
        invariant Valid() && View().Valid()
        invariant PonNet.Forward(old(View()), links, old(box.frame), depth) ==
                  PonNet.Forward(View(), links[i..], box.frame, depth)
      {
        assert links[i..][1..] == links[i + 1..];
        match links[i]
        case World(p) =>
          ghost var before := View();
          egress := egress + [(p, box.frame)];
          assert View() == before.(egress := egress);
          ViewIsValid();
        case Device(v) =>
          var s := Ingress(v, 1, box, depth);
          ViewIsValid();
          if s != Done {
            return s;
          }
      }
      status := Done;
    }

    /** The device behind a port number: 0 is the OLT, 128 and up are the ONUs. */
    function Lookup(portNo: nat): Option<Who> {
      if portNo == 0 then Some(Olt)
      else if 128 <= portNo < 128 + |onus| then Some(Onu(portNo - 128))
      else None
    }

    /** A frame from outside enters through port 2 of the device; an unknown port raises. */
    method IngressAt(portNo: nat, frame: Frame, depth: nat) returns (status: Status)
      requires Valid()
      modifies this, olt, onus
      ensures Valid() && old(View()).Valid()
      ensures match Lookup(portNo)
              case None => status == Raise && View() == old(View())
              case Some(w) => (status, View()) == Perform(old(View()), Inject(w, frame, depth))
    {
      hide PonNet.Ingress;
      ViewIsValid();
      match Lookup(portNo)
      case None => status := Raise;
      case Some(w) =>
        var box := new FrameBox(frame);
        status := Ingress(w, 2, box, depth);
    }

    method InstallFlows(portNo: nat, flows: seq<Flow>) returns (status: Status)
      requires Valid()
      modifies olt, onus
      ensures Valid() && old(View()).Valid()
      ensures match Lookup(portNo)
              case None => status == Raise && View() == old(View())
              case Some(w) => (status, View()) == Perform(old(View()), Install(w, flows))
    {
      ViewIsValid();
      match Lookup(portNo)
      case None => status := Raise;
      case Some(w) =>
        ghost var before := View();
        At(w).InstallFlows(flows);
        assert View() == before.Put(w, At(w).Value());
        status := Done;
    }
  }
}
