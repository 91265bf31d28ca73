/** The records a leader keeps in the key-value store, the writes of one
    reassignment in order, and what they leave behind
    (voltha/leader.py, steps 3 to 5 of `_reassign_core_stores`). */
module LeaderStore {
  import opened Collections
  import opened CoreIds
  import opened Reassignment

  const ASSIGNMENT_PREFIX := "service/voltha/assignments/"
  const CORE_STORAGE_SUFFIX := "core_store"
  const MEMBERSHIP_PREFIX := "service/voltha/members/"

  function AssignmentKey(member: string): string {
    ASSIGNMENT_PREFIX + member + "/" + CORE_STORAGE_SUFFIX
  }

  function MembershipKey(member: string): string { MEMBERSHIP_PREFIX + member }

  /** The mapping record, the records below the assignment prefix (a value may be
      empty) and the membership records (key to host). */
  datatype Store = Store(mapping: Option<Mapping>,
                         records: map<string, Option<CoreId>>,
                         registered: map<string, string>)

  datatype Write =
    | PutMapping(mapping: Mapping)
    | PutAssignment(member: string, id: Option<CoreId>)
    | DropAssignments(member: string)
    | DropMembership(member: string)

  /** A recursive delete removes every key that starts with the given one. */
  function DeletePrefix<V>(m: map<string, V>, prefix: string): map<string, V> {
    m - (set k | k in m && prefix <= k)
  }

  function Apply(s: Store, w: Write): Store {
    match w
    case PutMapping(m) => s.(mapping := Some(m))
    case PutAssignment(x, id) => s.(records := s.records[AssignmentKey(x) := id])
    case DropAssignments(x) => s.(records := DeletePrefix(s.records, ASSIGNMENT_PREFIX + x))
    case DropMembership(x) => s.(registered := DeletePrefix(s.registered, MEMBERSHIP_PREFIX + x))
  }

  function ApplyAll(s: Store, ws: seq<Write>): Store
    decreases |ws|
  {
    if ws == [] then s else ApplyAll(Apply(s, ws[0]), ws[1..])
  }

  // --------------------------------------------------------- order of the writes

  ghost predicate Holds(m: Mapping, id: CoreId, member: string) {
    id in m && m[id].Some? && m[id].value.id == member
  }

  /** Some slot of the member, or nothing when it has none. */
  ghost predicate IsLookup(m: Mapping, member: string, r: Option<CoreId>) {
    match r
    case Some(id) => Holds(m, id, member)
    case None => forall id :: !Holds(m, id, member)
  }

  function NewIds(prev: Mapping, members: seq<Member>): set<string> {
    (set m | m in members :: m.id) - ActiveIds(prev, members)
  }

  ghost predicate PutsFor(ws: seq<Write>, order: seq<string>, after: Mapping) {
    && |ws| == |order|
    && forall i :: 0 <= i < |ws| ==>
         ws[i].PutAssignment? && ws[i].member == order[i] && IsLookup(after, order[i], ws[i].id)
  }

  function Drops(order: seq<string>): seq<Write> {
    if order == [] then []
    else
      var last := order[|order| - 1];
      Drops(order[..|order| - 1]) + [DropAssignments(last), DropMembership(last)]
  }

  /** The mapping first, then one record per new member, then the deletions; both
      sets are iterated in any order. */
  datatype Schedule = Schedule(after: Mapping, puts: seq<Write>, newOrder: seq<string>, goneOrder: seq<string>)
  {
    ghost predicate Valid(prev: Mapping, members: seq<Member>) {
      && IsOrder(newOrder, NewIds(prev, members))
      && PutsFor(puts, newOrder, after)
      && IsOrder(goneOrder, InactiveIds(prev, members))
    }

    function Writes(): seq<Write> { [PutMapping(after)] + puts + Drops(goneOrder) }
  }

  // ---------------------------------------------------------- effect of the writes

  lemma {:induction false} ApplyAppend(s: Store, a: seq<Write>, b: seq<Write>)
    ensures ApplyAll(s, a + b) == ApplyAll(ApplyAll(s, a), b)
    decreases |a|
  {
    if a == [] {
      assert a + b == b;
    } else {
      ApplyAppend(Apply(s, a[0]), a[1..], b);
      assert (a + b)[1..] == a[1..] + b;
    }
  }

  lemma ApplySnoc(s: Store, a: seq<Write>, w: Write)
    ensures ApplyAll(s, a + [w]) == Apply(ApplyAll(s, a), w)
  {
    ApplyAppend(s, a, [w]);
    assert [w][1..] == [];
  }

  lemma NoWrites(s: Store)
    ensures ApplyAll(s, []) == s
  {
  }

  lemma KeyInjective(x: string, y: string)
    requires AssignmentKey(x) == AssignmentKey(y)
    ensures x == y
  {
    var p := |ASSIGNMENT_PREFIX|;
    assert |x| == |y|;
    assert AssignmentKey(x)[p..p + |x|] == x;
    assert AssignmentKey(y)[p..p + |y|] == y;
  }

  predicate NoSlash(x: string) { '/' !in x }

  /** Deleting below one member's key hits another member's record exactly when
      the first id is a string prefix of the second. */
  lemma PrefixOfKey(x: string, y: string)
    requires NoSlash(x)
    ensures ASSIGNMENT_PREFIX + x <= AssignmentKey(y) <==> x <= y
  {
    var tail := y + "/" + CORE_STORAGE_SUFFIX;
    assert AssignmentKey(y) == ASSIGNMENT_PREFIX + tail;
    PrefixAfter(ASSIGNMENT_PREFIX, x, tail);
    PrefixBeforeSlash(x, y, tail);
  }

  lemma PrefixAfter(p: string, x: string, tail: string)
    ensures p + x <= p + tail <==> x <= tail
  {
    if p + x <= p + tail {
      assert x == (p + tail)[|p|..|p| + |x|] == tail[..|x|];
    }
    if x <= tail {
      assert p + x == (p + tail)[..|p| + |x|];
    }
  }

  lemma PrefixBeforeSlash(x: string, y: string, tail: string)
    requires NoSlash(x) && y < tail && tail[|y|] == '/'
    ensures x <= tail <==> x <= y
  {
  }

  lemma {:induction false} AfterPuts(s: Store, ws: seq<Write>, order: seq<string>, after: Mapping)
    requires PutsFor(ws, order, after) && Distinct(order)
    ensures var r := ApplyAll(s, ws);
            && r.mapping == s.mapping && r.registered == s.registered
            && (forall i :: 0 <= i < |order| ==>
                  AssignmentKey(order[i]) in r.records && IsLookup(after, order[i], r.records[AssignmentKey(order[i])]))
            && (forall k :: k in s.records ==> k in r.records)
            && (forall k :: (k in r.records && forall i :: 0 <= i < |order| ==> k != AssignmentKey(order[i])) ==>
                  k in s.records && r.records[k] == s.records[k])
    decreases |ws|
  {
    hide AssignmentKey, IsLookup, ApplyAll;
    if ws == [] {
      NoWrites(s);
    } else {
      var n := |ws| - 1;
      AfterPuts(s, ws[..n], order[..n], after);
      ApplySnoc(s, ws[..n], ws[n]);
      assert ws == ws[..n] + [ws[n]];
      forall i | 0 <= i < n
        ensures AssignmentKey(order[i]) != AssignmentKey(order[n])
      {
        assert order[i] != order[n];
        if AssignmentKey(order[i]) == AssignmentKey(order[n]) {
          KeyInjective(order[i], order[n]);
        }
      }
    }
  }

  /** After the deletions, a record is left exactly when no deleted key is a prefix of it. */
  lemma {:induction false} AfterDrops(s: Store, order: seq<string>)
    ensures var r := ApplyAll(s, Drops(order));
            && r.mapping == s.mapping
            && (forall k :: k in r.records <==>
                 k in s.records && forall x :: x in order ==> !(ASSIGNMENT_PREFIX + x <= k))
            && (forall k :: k in r.records ==> r.records[k] == s.records[k])
            && (forall k :: k in r.registered <==>
                 k in s.registered && forall x :: x in order ==> !(MEMBERSHIP_PREFIX + x <= k))
            && (forall k :: k in r.registered ==> r.registered[k] == s.registered[k])
    decreases |order|
  {
    if order != [] {
      var n := |order| - 1;
      AfterDrops(s, order[..n]);
      var w1, w2 := DropAssignments(order[n]), DropMembership(order[n]);
      ApplySnoc(s, Drops(order[..n]), w1);
      ApplySnoc(s, Drops(order[..n]) + [w1], w2);
      assert Drops(order) == Drops(order[..n]) + [w1] + [w2];
      assert order == order[..n] + [order[n]];
    }
  }

  ghost predicate Survives(gone: set<string>, key: string) {
    forall x :: x in gone ==> !(ASSIGNMENT_PREFIX + x <= key)
  }

  /** The store after all writes of one schedule. */
  lemma AfterSchedule(s: Store, prev: Mapping, members: seq<Member>, sched: Schedule)
    requires sched.Valid(prev, members)
    ensures var r := ApplyAll(s, sched.Writes());
            var gone := InactiveIds(prev, members);
            && r.mapping == Some(sched.after)
            && (forall x :: x in NewIds(prev, members) ==>
                 (AssignmentKey(x) in r.records <==> Survives(gone, AssignmentKey(x))))
            && (forall x :: x in NewIds(prev, members) && AssignmentKey(x) in r.records ==>
                  IsLookup(sched.after, x, r.records[AssignmentKey(x)]))
            && (forall k :: (k in r.records && forall x :: x in NewIds(prev, members) ==> k != AssignmentKey(x)) ==>
                  k in s.records && r.records[k] == s.records[k] && Survives(gone, k))
            && (forall k :: k in s.records && Survives(gone, k) ==> k in r.records)
  {
    hide PutsFor, Drops, IsLookup, AssignmentKey, NewIds, InactiveIds, DeletePrefix;
    var first := Apply(s, PutMapping(sched.after));
    assert ApplyAll(s, [PutMapping(sched.after)]) == first by {
      assert [PutMapping(sched.after)][1..] == [];
    }
    ApplyAppend(s, [PutMapping(sched.after)] + sched.puts, Drops(sched.goneOrder));
    ApplyAppend(s, [PutMapping(sched.after)], sched.puts);
    AfterPuts(first, sched.puts, sched.newOrder, sched.after);
    AfterDrops(ApplyAll(first, sched.puts), sched.goneOrder);
    assert forall x :: x in sched.newOrder <==> x in Elements(sched.newOrder);
    assert forall x :: x in sched.goneOrder <==> x in Elements(sched.goneOrder);
  }
}
