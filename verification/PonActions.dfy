/** The VLAN actions of the PON simulator, on values and on shared frame objects
    (ponsim/ponsim.py). */
module PonActions {
  import opened Collections
  import opened PonFlows

  // -------------------------------------------------------------------- on values

  /** A pushed tag starts with scapy's defaults: VLAN 1, priority 0. */
  function Push(f: Frame, etype: nat): Frame {
    f.(etype := etype, tags := [Tag(1, 0, f.etype)] + f.tags)
  }

  /** Popping an untagged frame does nothing. */
  function Pop(f: Frame): Frame {
    if f.tags == [] then f else f.(etype := f.tags[0].etype, tags := f.tags[1..])
  }

  function SetTop(f: Frame, a: Action): Frame
    requires f.tags != [] && (a.SetVid? || a.SetPcp?)
  {
    f.(tags := f.tags[0 := if a.SetVid? then f.tags[0].(vid := a.vid % 4096) else f.tags[0].(pcp := a.pcp)])
  }

  predicate IsSet(a: Action) { a.SetVid? || a.SetPcp? }

  /** One action; setting a tag field of an untagged frame raises, as do unknown actions. */
  function Act(a: Action, f: Frame): Option<Frame> {
    match a
    case Output(_) => Some(f)
    case PopVlan => Some(Pop(f))
    case PushVlan(t) => Some(Push(f, t))
    case UnsupportedAction => None
    case _ => if f.tags == [] then None else Some(SetTop(f, a))
  }

  function ActAll(actions: seq<Action>, f: Frame): Option<Frame> {
    if actions == [] then Some(f)
    else
      var g := Act(actions[0], f);
      if g.None? then None else ActAll(actions[1..], g.value)
  }

  /** The last output action decides. */
  function EgressPort(actions: seq<Action>): Option<nat> {
    if actions == [] then None
    else
      var last := actions[|actions| - 1];
      if last.Output? then Some(last.port) else EgressPort(actions[..|actions| - 1])
  }

  // ----------------------------------------------------------------- tag algebra

  /** How many tags the list leaves above those it started with. `ok` is false if it holds an unknown
      action, or pops or sets a field of a tag that it has not pushed itself. */
  datatype Nesting = Nesting(level: nat, ok: bool)

  function Nest(actions: seq<Action>, level: nat): Nesting
    decreases |actions|
  {
    if actions == [] then Nesting(level, true)
    else match actions[0]
      case PushVlan(_) => Nest(actions[1..], level + 1)
      case PopVlan => if level == 0 then Nesting(0, false) else Nest(actions[1..], level - 1)
      case Output(_) => Nest(actions[1..], level)
      case UnsupportedAction => Nesting(level, false)
      case _ => if level == 0 then Nesting(0, false) else Nest(actions[1..], level)
  }

  /** `f` is `inner` under `level` more tags, the deepest of which remembers its type. */
  predicate Wraps(f: Frame, inner: Frame, level: nat) {
    && level <= |f.tags|
    && f.src == inner.src && f.dst == inner.dst && f.payload == inner.payload
    && f.tags[level..] == inner.tags
    && (if level == 0 then f.etype else f.tags[level - 1].etype) == inner.etype
  }

  lemma ActWraps(a: Action, f: Frame, inner: Frame, level: nat)
    requires Wraps(f, inner, level)
    ensures a.PushVlan? ==> Wraps(Push(f, a.etype), inner, level + 1)
    ensures a.PopVlan? && level > 0 ==> Wraps(Pop(f), inner, level - 1)
    ensures IsSet(a) && level > 0 ==> f.tags != [] && Wraps(SetTop(f, a), inner, level)
  {
    if a.PushVlan? {
      assert Push(f, a.etype).tags[level + 1..] == f.tags[level..];
    }
    if a.PopVlan? && level > 0 {
      assert Pop(f).tags[level - 1..] == f.tags[level..];
    }
    if IsSet(a) && level > 0 {
      assert SetTop(f, a).tags[level..] == f.tags[level..];
    }
  }

  /** Whatever is done to the tags pushed by the list itself, the frame below stays as it was. */
  lemma {:induction false} NestedActions(actions: seq<Action>, f: Frame, inner: Frame, level: nat)
    requires Wraps(f, inner, level) && Nest(actions, level).ok
    ensures var r := ActAll(actions, f); r.Some? && Wraps(r.value, inner, Nest(actions, level).level)
    decreases |actions|
  {
    hide Wraps;
    if actions != [] {
      ActWraps(actions[0], f, inner, level);
      var g := Act(actions[0], f).value;
      match actions[0]
      case PushVlan(_) => NestedActions(actions[1..], g, inner, level + 1);
      case PopVlan =>
        PopAtLevel(f, inner, level);
        NestedActions(actions[1..], g, inner, level - 1);
      case _ => NestedActions(actions[1..], g, inner, level);
    }
  }

  lemma PopAtLevel(f: Frame, inner: Frame, level: nat)
    requires Wraps(f, inner, level) && level > 0
    ensures f.tags != []
  {
  }

  /** A balanced list (push ... pop, properly nested, set-fields only inside) leaves the
      frame unchanged, whatever tags it already carries. */
  lemma BalancedListIsIdentity(actions: seq<Action>, f: Frame)
    requires Nest(actions, 0) == Nesting(0, true)
    ensures ActAll(actions, f) == Some(f)
  {
    assert f.tags[0..] == f.tags;
    NestedActions(actions, f, f, 0);
    var g := ActAll(actions, f).value;
    assert g.tags[0..] == g.tags;
  }

  /** Pushes minus pops that found a tag. */
  function Depth(actions: seq<Action>, depth: nat): nat
    decreases |actions|
  {
    if actions == [] then depth
    else match actions[0]
      case PushVlan(_) => Depth(actions[1..], depth + 1)
      case PopVlan => Depth(actions[1..], if depth == 0 then 0 else depth - 1)
      case _ => Depth(actions[1..], depth)
  }

  lemma {:induction false} FinalDepth(actions: seq<Action>, f: Frame)
    requires ActAll(actions, f).Some?
    ensures |ActAll(actions, f).value.tags| == Depth(actions, |f.tags|)
    decreases |actions|
  {
    if actions != [] {
      FinalDepth(actions[1..], Act(actions[0], f).value);
    }
  }

  /** The action at `k` raises: it is unknown, or sets a field while the frame is untagged. */
  predicate BadAt(actions: seq<Action>, k: int, depth: nat)
    requires 0 <= k < |actions|
  {
    actions[k].UnsupportedAction? || (IsSet(actions[k]) && Depth(actions[..k], depth) == 0)
  }

  lemma {:induction false} RaisesExactly(actions: seq<Action>, f: Frame)
    ensures ActAll(actions, f).None? <==> exists k :: 0 <= k < |actions| && BadAt(actions, k, |f.tags|)
    decreases |actions|
  {
    if actions != [] {
      var g := Act(actions[0], f);
      assert actions[..0] == [];
      assert BadAt(actions, 0, |f.tags|) <==> g.None?;
      if g.Some? {
        var rest := actions[1..];
        RaisesExactly(rest, g.value);
        forall k | 0 <= k < |rest|
          ensures BadAt(actions, k + 1, |f.tags|) <==> BadAt(rest, k, |g.value.tags|)
        {
          assert actions[..k + 1][1..] == rest[..k];
        }
        if k :| 0 <= k < |actions| && BadAt(actions, k, |f.tags|) {
          assert BadAt(rest, k - 1, |g.value.tags|);
        }
      }
    }
  }

  // ------------------------------------------------------------ on shared objects

  /** What the list leaves in the object it was given: set-fields act in place until a
      push or a pop of a tag builds a new frame. */
  function InPlace(actions: seq<Action>, f: Frame): Frame
    decreases |actions|
  {
    if actions == [] then f
    else match actions[0]
      case Output(_) => InPlace(actions[1..], f)
      case PopVlan => if f.tags == [] then InPlace(actions[1..], f) else f
      case PushVlan(_) => f
      case UnsupportedAction => f
      case _ => if f.tags == [] then f else InPlace(actions[1..], SetTop(f, actions[0]))
  }

  /** Whether the list builds a new frame object. */
  predicate Rebuilds(actions: seq<Action>, f: Frame)
    decreases |actions|
  {
    actions != [] &&
    match actions[0]
    case PushVlan(_) => true
    case PopVlan => f.tags != [] || Rebuilds(actions[1..], f)
    case _ => Rebuilds(actions[1..], f)
  }

  lemma {:induction false} SameObjectSameFrame(actions: seq<Action>, f: Frame)
    requires ActAll(actions, f).Some? && !Rebuilds(actions, f)
    ensures ActAll(actions, f).value == InPlace(actions, f)
    decreases |actions|
  {
    if actions != [] {
      var g := Act(actions[0], f).value;
      TagsDecide(actions[1..], f, g);
      SameObjectSameFrame(actions[1..], g);
    }
  }

  lemma {:induction false} TagsDecide(actions: seq<Action>, f: Frame, g: Frame)
    requires f.tags == [] <==> g.tags == []
    ensures Rebuilds(actions, f) <==> Rebuilds(actions, g)
    decreases |actions|
  {
    if actions != [] {
      TagsDecide(actions[1..], f, g);
    }
  }

  /** The last VLAN id and priority set before the first push, pop or unknown action. */
  datatype Override = Override(vid: Option<nat>, pcp: Option<nat>)

  function LeadingSets(actions: seq<Action>, o: Override): Override
    decreases |actions|
  {
    if actions == [] then o
    else match actions[0]
      case Output(_) => LeadingSets(actions[1..], o)
      case SetVid(v) => LeadingSets(actions[1..], o.(vid := Some(v % 4096)))
      case SetPcp(p) => LeadingSets(actions[1..], o.(pcp := Some(p)))
      case _ => o
  }

  function Overridden(f: Frame, o: Override): Frame
    requires f.tags != []
  {
    var t := f.tags[0];
    f.(tags := f.tags[0 := Tag(if o.vid.Some? then o.vid.value else t.vid,
                               if o.pcp.Some? then o.pcp.value else t.pcp, t.etype)])
  }

  /** In closed form: an untagged frame is never altered in place; of a tagged one only
      the outermost VLAN id and priority, to the last values set. */
  lemma {:induction false} InPlaceIsOverride(actions: seq<Action>, f: Frame, o: Override)
    requires f.tags != []
    ensures InPlace(actions, Overridden(f, o)) == Overridden(f, LeadingSets(actions, o))
    decreases |actions|
  {
    if actions != [] {
      if IsSet(actions[0]) {
        var a := actions[0];
        var o' := if a.SetVid? then o.(vid := Some(a.vid % 4096)) else o.(pcp := Some(a.pcp));
        assert SetTop(Overridden(f, o), actions[0]) == Overridden(f, o');
        InPlaceIsOverride(actions[1..], f, o');
      } else {
        InPlaceIsOverride(actions[1..], f, o);
      }
    }
  }

  lemma {:induction false} UntaggedIsSafe(actions: seq<Action>, f: Frame)
    requires f.tags == []
    ensures InPlace(actions, f) == f
    decreases |actions|
  {
    if actions != [] {
      UntaggedIsSafe(actions[1..], f);
    }
  }

  predicate Agrees(o: Override, t: Tag) {
    (o.vid.Some? ==> o.vid.value == t.vid) && (o.pcp.Some? ==> o.pcp.value == t.pcp)
  }

  /** A frame object is left as it was exactly when it is untagged or the last values set
      in place are the ones it already has. */
  lemma UnalteredIff(actions: seq<Action>, f: Frame)
    ensures var o := LeadingSets(actions, Override(None, None));
            InPlace(actions, f) == f <==> (f.tags == [] || Agrees(o, f.tags[0]))
  {
    if f.tags == [] {
      UntaggedIsSafe(actions, f);
    } else {
      var o := LeadingSets(actions, Override(None, None));
      assert Overridden(f, Override(None, None)) == f;
      InPlaceIsOverride(actions, f, Override(None, None));
      assert Overridden(f, o).tags[0] == f.tags[0] <==> Overridden(f, o) == f;
    }
  }

  function Size(f: Frame): nat { 4 * |f.tags| + f.payload.size }

  lemma SameSizeInPlace(actions: seq<Action>, f: Frame)
    ensures Size(InPlace(actions, f)) == Size(f)
  {
    if f.tags == [] {
      UntaggedIsSafe(actions, f);
    } else {
      assert Overridden(f, Override(None, None)) == f;
      InPlaceIsOverride(actions, f, Override(None, None));
    }
  }

  class FrameBox {
    var frame: Frame

    constructor (f: Frame)
      ensures frame == f
    {
      frame := f;
    }
  }

  /** `process_actions`: the result may be the object passed in or a new one. */
  method ProcessActions(actions: seq<Action>, box: FrameBox) returns (ok: bool, port: Option<nat>, out: FrameBox)
    modifies box
    ensures box.frame == InPlace(actions, old(box.frame))
    ensures ok == ActAll(actions, old(box.frame)).Some?
    ensures ok ==> out.frame == ActAll(actions, old(box.frame)).value && port == EgressPort(actions)
    ensures ok ==> (out == box <==> !Rebuilds(actions, old(box.frame)))
    ensures out == box || fresh(out)
  {
    hide Act, SetTop, Push, Pop;
    out, port := box, None;
    ghost var f0 := box.frame;
    for i := 0 to |actions|
      invariant out == box || fresh(out)
      invariant ActAll(actions, f0) == ActAll(actions[i..], out.frame)
      invariant InPlace(actions, f0) == if out == box then InPlace(actions[i..], box.frame) else box.frame
      invariant out == box ==> (Rebuilds(actions, f0) <==> Rebuilds(actions[i..], box.frame))
      invariant out != box ==> Rebuilds(actions, f0)
      invariant port == EgressPort(actions[..i])
    {
      var a := actions[i];
      OneAction(actions, i, out.frame);
      if a.UnsupportedAction? || (IsSet(a) && out.frame.tags == []) {
        return false, port, out;
      }
      if a.Output? {
        port := Some(a.port);
      } else if a.PopVlan? {
        if out.frame.tags != [] {
          out := new FrameBox(Pop(out.frame));
        }
      } else if a.PushVlan? {
        out := new FrameBox(Push(out.frame, a.etype));
      } else {
        out.frame := SetTop(out.frame, a);
      }
    }
    assert actions[..|actions|] == actions;
    ok := true;
  }

  /** `here` on `f` and `rest` on `g` have the same outcome. */
  predicate SameOutcome(here: seq<Action>, f: Frame, rest: seq<Action>, g: Frame) {
    && ActAll(here, f) == ActAll(rest, g)
    && InPlace(here, f) == InPlace(rest, g)
    && (Rebuilds(here, f) <==> Rebuilds(rest, g))
  }

  /** One iteration, as equations between the specification functions. */
  lemma OneAction(actions: seq<Action>, i: nat, f: Frame)
    requires i < |actions|
    ensures var a, here, rest := actions[i], actions[i..], actions[i + 1..];
            var bad := a.UnsupportedAction? || (IsSet(a) && f.tags == []);
            && (bad ==> ActAll(here, f) == None && InPlace(here, f) == f)
            && (a.Output? || (a.PopVlan? && f.tags == []) ==> SameOutcome(here, f, rest, f))
            && (IsSet(a) && f.tags != [] ==> SameOutcome(here, f, rest, SetTop(f, a)))
            && ((a.PopVlan? && f.tags != []) || a.PushVlan? ==> InPlace(here, f) == f && Rebuilds(here, f))
            && (a.PopVlan? && f.tags != [] ==> ActAll(here, f) == ActAll(rest, Pop(f)))
            && (a.PushVlan? ==> ActAll(here, f) == ActAll(rest, Push(f, a.etype)))
            && EgressPort(actions[..i + 1]) == (if a.Output? then Some(a.port) else EgressPort(actions[..i]))
  {
    var here, rest := actions[i..], actions[i + 1..];
    assert here[1..] == rest && here[0] == actions[i];
    assert actions[..i + 1][..i] == actions[..i];
    if IsSet(actions[i]) && f.tags != [] {
      TagsDecide(rest, f, SetTop(f, actions[i]));
    }
  }
}
