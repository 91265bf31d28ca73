/** Flattening of list and inline levels in YANG replies (netconf/nc_rpc/rpc_response.py). */
module YangFlatten {
  import opened Collections

  datatype Kind = List | Dict | Leaf

  /** An element to be flattened. Its own text matters only on a leaf. */
  datatype Elem = Elem(tag: string, kind: Kind, text: Option<string>, children: seq<Elem>)

  /** An element of the result. */
  datatype Node = Node(tag: string, text: Option<string>, children: seq<Node>)

  const IGNORE := "ignore"
  const OPTION := "yang_field_option"

  // -------------------------------------------------------------- as the code does

  /** `add_node`: what is appended in place of a processed node. */
  function AddNode(n: Node): seq<Node> { if n.tag == IGNORE then n.children else [n] }

  predicate HasOption(cs: seq<Elem>) { exists i :: 0 <= i < |cs| && cs[i].tag == OPTION }

  /** The text of the last child tagged `name`. */
  function InlineName(cs: seq<Elem>): Option<string> {
    if cs == [] then None
    else if cs[|cs| - 1].tag == "name" then cs[|cs| - 1].text
    else InlineName(cs[..|cs| - 1])
  }

  /** The first child with that tag. */
  function FirstNamed(cs: seq<Elem>, name: Option<string>): (r: Option<Elem>)
    ensures r.Some? ==> exists i :: 0 <= i < |cs| && cs[i] == r.value
  {
    if cs == [] then None
    else if name == Some(cs[0].tag) then Some(cs[0])
    else
      var r := FirstNamed(cs[1..], name);
      assert r.Some? ==> exists i :: 0 <= i < |cs[1..]| && cs[1..][i] == r.value && cs[i + 1] == r.value;
      r
  }

  /** The children a dict is processed with; none when the named child is missing. */
  function Body(e: Elem): (r: Option<seq<Elem>>)
    ensures r.Some? ==> r.value == e.children || exists i :: 0 <= i < |e.children| && r.value == e.children[i].children
  {
    if !HasOption(e.children) then Some(e.children)
    else
      var c := FirstNamed(e.children, InlineName(e.children));
      if c.None? then None else Some(c.value.children)
  }

  /** `process_element` on `e` retagged `tag`; `None` when it raises. */
  function Process(e: Elem, tag: string): Option<Node>
    decreases e, 1
  {
    match e.kind
    case Leaf => Some(Node(tag, e.text, []))
    case List =>
      var ns := ProcessAll(e.children, Some(tag));
      if ns.None? then None else Some(Node(IGNORE, None, ns.value))
    case Dict =>
      var b := Body(e);
      if b.None? then None
      else
        var ns := ProcessAll(b.value, None);
        if ns.None? then None else Some(Node(if HasOption(e.children) then IGNORE else tag, None, ns.value))
  }

  function TagFor(c: Elem, retag: Option<string>): string { if retag.Some? then retag.value else c.tag }

  /** What one child puts into the node being built. */
  function ProcessChild(c: Elem, tag: string): Option<seq<Node>>
    decreases c, 2
  {
    if c.kind == Leaf then Some([Node(tag, c.text, [])])
    else
      var n := Process(c, tag);
      if n.None? then None else Some(AddNode(n.value))
  }

  function ProcessAll(cs: seq<Elem>, retag: Option<string>): Option<seq<Node>>
    decreases cs, 0
  {
    if cs == [] then Some([])
    else
      var before := ProcessAll(cs[..|cs| - 1], retag);
      var last := ProcessChild(cs[|cs| - 1], TagFor(cs[|cs| - 1], retag));
      if before.None? || last.None? then None else Some(before.value + last.value)
  }

  /** `process_inline_option`: whether the level is dropped, and the children to go on with. */
  method InlineOption(e: Elem) returns (inline: bool, body: Option<seq<Elem>>)
    ensures inline == HasOption(e.children) && body == Body(e)
  {
    var cs := e.children;
    var name: Option<string> := None;
    inline := false;
    for i := 0 to |cs|
      invariant inline == HasOption(cs[..i]) && name == InlineName(cs[..i])
    {
      assert cs[..i + 1][..i] == cs[..i];
      assert HasOption(cs[..i + 1]) <==> HasOption(cs[..i]) || cs[i].tag == OPTION by {
        if HasOption(cs[..i]) {
          var j :| 0 <= j < i && cs[..i][j].tag == OPTION;
          assert cs[..i + 1][j].tag == OPTION;
        }
        assert cs[..i + 1][i] == cs[i];
      }
      if cs[i].tag == OPTION {
        inline := true;
      }
      if cs[i].tag == "name" {
        name := cs[i].text;
      }
    }
    assert cs[..|cs|] == cs;
    if !inline {
      return false, Some(cs);
    }
    for i := 0 to |cs|
      invariant FirstNamed(cs, name) == FirstNamed(cs[i..], name)
    {
      assert cs[i..][1..] == cs[i + 1..];
      if name == Some(cs[i].tag) {
        return true, Some(cs[i].children);
      }
    }
    body := None;
  }

  method ProcessElement(e: Elem, tag: string) returns (r: Option<Node>)
    ensures r == Process(e, tag)
    decreases e, 1
  {
    match e.kind
    case Leaf => r := Some(Node(tag, e.text, []));
    case List =>
      var ns := ProcessChildren(e.children, Some(tag));
      r := if ns.None? then None else Some(Node(IGNORE, None, ns.value));
    case Dict =>
      var inline, body := InlineOption(e);
      if body.None? {
        return None;
      }
      var ns := ProcessChildren(body.value, None);
      r := if ns.None? then None else Some(Node(if inline then IGNORE else tag, None, ns.value));
  }

  /** The loops of `process_element` that fill a new element. */
  method ProcessChildren(cs: seq<Elem>, retag: Option<string>) returns (r: Option<seq<Node>>)
    ensures r == ProcessAll(cs, retag)
    decreases cs, 0
  {
    var ns: seq<Node> := [];
    for i := 0 to |cs|
      invariant ProcessAll(cs[..i], retag) == Some(ns)
    {
      assert cs[..i + 1][..i] == cs[..i];
      var tag := TagFor(cs[i], retag);
      if cs[i].kind == Leaf {
        ns := ns + [Node(tag, cs[i].text, [])];
      } else {
        var n := ProcessElement(cs[i], tag);
        if n.None? {
          RaisesOn(cs, i, retag);
          return None;
        }
        ns := ns + AddNode(n.value);
      }
    }
    assert cs[..|cs|] == cs;
    r := Some(ns);
  }

  lemma {:induction false} RaisesOn(cs: seq<Elem>, i: nat, retag: Option<string>)
    requires i < |cs| && ProcessChild(cs[i], TagFor(cs[i], retag)).None?
    ensures ProcessAll(cs, retag).None?
  {
    if i < |cs| - 1 {
      RaisesOn(cs[..|cs| - 1], i, retag);
    }
  }

  // ------------------------------------------------------------ what it stands for

  /** No processed dict asks for an inline child that is not there. */
  predicate Sound(e: Elem)
    decreases e, 1
  {
    match e.kind
    case Leaf => true
    case List => AllSound(e.children)
    case Dict => Body(e).Some? && AllSound(Body(e).value)
  }

  predicate AllSound(cs: seq<Elem>)
    decreases cs, 0
  {
    forall i :: 0 <= i < |cs| ==> Sound(cs[i])
  }

  lemma {:induction false} RaisesIff(e: Elem, tag: string)
    ensures Process(e, tag).Some? <==> Sound(e)
    decreases e, 1
  {
    match e.kind
    case Leaf =>
    case List => RaisesAllIff(e.children, Some(tag));
    case Dict =>
      if Body(e).Some? {
        RaisesAllIff(Body(e).value, None);
      }
  }

  lemma {:induction false} RaisesAllIff(cs: seq<Elem>, retag: Option<string>)
    ensures ProcessAll(cs, retag).Some? <==> AllSound(cs)
    decreases cs, 0
  {
    if cs != [] {
      var n := |cs| - 1;
      RaisesAllIff(cs[..n], retag);
      RaisesIff(cs[n], TagFor(cs[n], retag));
      assert forall i :: 0 <= i < n ==> cs[..n][i] == cs[i];
    }
  }

  /** A text in the result and the tags on the way to it. */
  type Entry = (seq<string>, string)

  function Own(text: Option<string>, path: seq<string>): seq<Entry> {
    if text.Some? then [(path, text.value)] else []
  }

  /** All texts of a result, left to right, below `at`. */
  function Found(n: Node, at: seq<string>): seq<Entry>
    decreases n, 1
  {
    Own(n.text, at + [n.tag]) + FoundAll(n.children, at + [n.tag])
  }

  function FoundAll(ns: seq<Node>, at: seq<string>): seq<Entry>
    decreases ns, 0
  {
    if ns == [] then [] else FoundAll(ns[..|ns| - 1], at) + Found(ns[|ns| - 1], at)
  }

  /** The texts of the leaves under `e`, left to right, each with its path: a list adds no
      level and lends its tag to its items; a dict adds its tag, unless that is the reserved
      one; an inline dict adds no level and stands for the children of the child it names. */
  function Meant(e: Elem, tag: string, at: seq<string>): seq<Entry>
    decreases e, 1
  {
    match e.kind
    case Leaf => Own(e.text, at + [tag])
    case List => MeantAll(e.children, Some(tag), at)
    case Dict =>
      if Body(e).None? then []
      else if HasOption(e.children) || tag == IGNORE then MeantAll(Body(e).value, None, at)
      else MeantAll(Body(e).value, None, at + [tag])
  }

  function MeantAll(cs: seq<Elem>, retag: Option<string>, at: seq<string>): seq<Entry>
    decreases cs, 0
  {
    if cs == [] then []
    else MeantAll(cs[..|cs| - 1], retag, at) + Meant(cs[|cs| - 1], TagFor(cs[|cs| - 1], retag), at)
  }

  lemma {:induction false} FoundConcat(a: seq<Node>, b: seq<Node>, at: seq<string>)
    ensures FoundAll(a + b, at) == FoundAll(a, at) + FoundAll(b, at)
  {
    hide Found, FoundAll;
    if b == [] {
      assert a + b == a;
      FoundNone(at);
    } else {
      var n := |b| - 1;
      FoundConcat(a, b[..n], at);
      FoundSnoc(a + b, at);
      FoundSnoc(b, at);
      assert (a + b)[..|a + b| - 1] == a + b[..n];
      Associate(FoundAll(a, at), FoundAll(b[..n], at), Found(b[n], at));
    }
  }

  lemma FoundNone(at: seq<string>)
    ensures FoundAll([], at) == []
  {
  }

  lemma FoundSnoc(ns: seq<Node>, at: seq<string>)
    requires ns != []
    ensures FoundAll(ns, at) == FoundAll(ns[..|ns| - 1], at) + Found(ns[|ns| - 1], at)
  {
    hide Found;
  }

  lemma FoundOne(n: Node, at: seq<string>)
    ensures FoundAll([n], at) == Found(n, at)
  {
    assert [n][..0] == [];
  }

  /** Flattening keeps every leaf text in order, at the path it is meant to have. */
  lemma {:induction false} KeepsTexts(e: Elem, tag: string, at: seq<string>)
    requires Sound(e) && e.kind != Leaf
    ensures Process(e, tag).Some? && FoundAll(AddNode(Process(e, tag).value), at) == Meant(e, tag, at)
    decreases e, 1
  {
    RaisesIff(e, tag);
    match e.kind
    case List => KeepsAllTexts(e.children, Some(tag), at);
    case Dict =>
      var n := Process(e, tag).value;
      if n.tag == IGNORE {
        KeepsAllTexts(Body(e).value, None, at);
      } else {
        KeepsAllTexts(Body(e).value, None, at + [tag]);
        FoundOne(n, at);
      }
  }

  lemma {:induction false} KeepsAllTexts(cs: seq<Elem>, retag: Option<string>, at: seq<string>)
    requires AllSound(cs)
    ensures ProcessAll(cs, retag).Some? && FoundAll(ProcessAll(cs, retag).value, at) == MeantAll(cs, retag, at)
    decreases cs, 0
  {
    if cs != [] {
      var n := |cs| - 1;
      var c := cs[n];
      assert forall i :: 0 <= i < n ==> cs[..n][i] == cs[i];
      KeepsAllTexts(cs[..n], retag, at);
      KeepsChildTexts(c, TagFor(c, retag), at);
      FoundConcat(ProcessAll(cs[..n], retag).value, ProcessChild(c, TagFor(c, retag)).value, at);
    }
  }

  lemma {:induction false} KeepsChildTexts(c: Elem, tag: string, at: seq<string>)
    requires Sound(c)
    ensures ProcessChild(c, tag).Some? && FoundAll(ProcessChild(c, tag).value, at) == Meant(c, tag, at)
    decreases c, 2
  {
    if c.kind == Leaf {
      FoundOne(Node(tag, c.text, []), at);
      assert FoundAll([], at + [tag]) == [];
    } else {
      KeepsTexts(c, tag, at);
    }
  }

  // ---------------------------------------------------------------- the whole reply

  datatype Request = Request(custom: bool, itemsName: string, xmlTag: Option<string>, subclass: Option<string>)

  /** The tag that a reply consisting of one list is given first; `None` when it raises. */
  function TopTag(tag: string, q: Request): Option<string> {
    if q.custom then
      if q.itemsName == "items" then Some(tag)
      else if q.xmlTag.Some? && q.xmlTag.value != "" then q.xmlTag
      else Some(IGNORE)
    else if q.subclass.Some? then q.subclass
    else if q.itemsName == "items" then (if q.xmlTag == Some("") then None else q.xmlTag)
    else Some(IGNORE)
  }

  function SpliceAll(es: seq<Elem>): Option<seq<Node>> {
    if es == [] then Some([])
    else
      var n := |es| - 1;
      var before, last := SpliceAll(es[..n]), Process(es[n], es[n].tag);
      if before.None? || last.None? then None else Some(before.value + AddNode(last.value))
  }

  /** `to_yang_xml`: the children of the new top element. */
  function ToYang(es: seq<Elem>, q: Request): Option<seq<Node>> {
    if |es| == 1 && es[0].kind == List then
      var tag := TopTag(es[0].tag, q);
      if tag.None? then None
      else
        var n := Process(es[0], tag.value);
        if n.None? then None else Some(AddNode(n.value))
    else SpliceAll(es)
  }

  method ToYangXml(es: seq<Elem>, q: Request) returns (r: Option<seq<Node>>)
    ensures r == ToYang(es, q)
  {
    if |es| == 1 && es[0].kind == List {
      var tag := TopTag(es[0].tag, q);
      if tag.None? {
        return None;
      }
      var n := ProcessElement(es[0], tag.value);
      return if n.None? then None else Some(AddNode(n.value));
    }
    var top: seq<Node> := [];
    for i := 0 to |es|
      invariant SpliceAll(es[..i]) == Some(top)
    {
      assert es[..i + 1][..i] == es[..i];
      var n := ProcessElement(es[i], es[i].tag);
      if n.None? {
        SpliceRaises(es, i);
        return None;
      }
      top := top + AddNode(n.value);
    }
    assert es[..|es|] == es;
    r := Some(top);
  }

  lemma {:induction false} SpliceRaises(es: seq<Elem>, i: nat)
    requires i < |es| && Process(es[i], es[i].tag).None?
    ensures SpliceAll(es).None?
  {
    if i < |es| - 1 {
      SpliceRaises(es[..|es| - 1], i);
    }
  }

  /** A top-level leaf with the reserved tag and a text. */
  predicate IsLost(e: Elem) { e.kind == Leaf && e.tag == IGNORE && e.text.Some? }

  function LostCount(es: seq<Elem>): nat {
    if es == [] then 0 else LostCount(es[..|es| - 1]) + if IsLost(es[|es| - 1]) then 1 else 0
  }

  lemma {:induction false} SpliceKeeps(es: seq<Elem>)
    requires AllSound(es)
    ensures SpliceAll(es).Some?
    ensures |FoundAll(SpliceAll(es).value, [])| + LostCount(es) == |MeantAll(es, None, [])|
    ensures LostCount(es) == 0 ==> FoundAll(SpliceAll(es).value, []) == MeantAll(es, None, [])
  {
    hide Found, Meant, Process;
    if es != [] {
      var n := |es| - 1;
      var e := es[n];
      assert forall i :: 0 <= i < n ==> es[..n][i] == es[i];
      SpliceKeeps(es[..n]);
      SpliceOne(e);
      FoundConcat(SpliceAll(es[..n]).value, AddNode(Process(e, e.tag).value), []);
    }
  }

  lemma SpliceOne(e: Elem)
    requires Sound(e)
    ensures Process(e, e.tag).Some?
    ensures FoundAll(AddNode(Process(e, e.tag).value), []) == if IsLost(e) then [] else Meant(e, e.tag, [])
    ensures IsLost(e) ==> |Meant(e, e.tag, [])| == 1
  {
    if e.kind != Leaf {
      KeepsTexts(e, e.tag, []);
    } else if e.tag != IGNORE {
      FoundOne(Process(e, e.tag).value, []);
      assert FoundAll([], [e.tag]) == [];
    }
  }

  lemma {:induction false} LostIff(es: seq<Elem>)
    ensures LostCount(es) == 0 <==> forall i :: 0 <= i < |es| ==> !IsLost(es[i])
  {
    if es != [] {
      var n := |es| - 1;
      LostIff(es[..n]);
      assert forall i :: 0 <= i < n ==> es[..n][i] == es[i];
    }
  }

  /** A reply keeps the texts of all its leaves, in order and at their paths, exactly when no
      top-level leaf carries the reserved tag. */
  lemma ReplyKeepsTexts(es: seq<Elem>, q: Request)
    requires AllSound(es) && !(|es| == 1 && es[0].kind == List)
    ensures ToYang(es, q).Some?
    ensures FoundAll(ToYang(es, q).value, []) == MeantAll(es, None, []) <==>
              forall i :: 0 <= i < |es| ==> !IsLost(es[i])
  {
    SpliceKeeps(es);
    LostIff(es);
  }

  /** A reply of one list keeps the texts of all leaves, with the request's tag on the items. */
  lemma {:induction false} ListReplyKeepsTexts(e: Elem, q: Request)
    requires Sound(e) && e.kind == List && TopTag(e.tag, q).Some?
    ensures ToYang([e], q).Some? && FoundAll(ToYang([e], q).value, []) == Meant(e, TopTag(e.tag, q).value, [])
  {
    KeepsTexts(e, TopTag(e.tag, q).value, []);
  }

  /** One top-level leaf with the reserved tag: the reply is empty although it has a text. */
  lemma ReservedLeafIsLost(q: Request, text: string)
    ensures var es := [Elem(IGNORE, Leaf, Some(text), [])];
            ToYang(es, q) == Some([]) && MeantAll(es, None, []) == [([IGNORE], text)]
  {
    var e := Elem(IGNORE, Leaf, Some(text), []);
    var es := [e];
    assert es[..0] == [] && SpliceAll(es[..0]) == Some([]) && MeantAll(es[..0], None, []) == [];
    assert Process(e, IGNORE) == Some(Node(IGNORE, Some(text), []));
    var none: seq<Node> := [];
    assert AddNode(Node(IGNORE, Some(text), none)) == none && none + none == none;
    assert es[0].kind == Leaf && ToYang(es, q) == SpliceAll(es) == Some(none + none);
    assert MeantAll(es, None, []) == [] + Meant(e, IGNORE, []);
    assert Meant(e, IGNORE, []) == [([] + [IGNORE], text)] && [] + [IGNORE] == [IGNORE];
  }
}
