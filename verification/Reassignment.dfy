/** The mapping of core-store ids to cluster members, and one reassignment of it
    (voltha/leader.py, steps 1 and 2 of `_reassign_core_stores`). */
module Reassignment {
  import opened Collections
  import opened Strings
  import opened CoreIds

  datatype Member = Member(id: string, host: string)

  /** `None` marks a slot whose member has gone and that nobody has taken over. */
  type Mapping = map<CoreId, Option<Member>>

  predicate Active(slot: Option<Member>, members: seq<Member>) {
    slot.Some? && slot.value in members
  }

  function Cleared(prev: Mapping, members: seq<Member>): set<CoreId> {
    set k | k in prev && !Active(prev[k], members)
  }

  function Kept(prev: Mapping, members: seq<Member>): set<CoreId> {
    set k | k in prev && Active(prev[k], members)
  }

  /** Ids of the members that keep their slot. */
  function ActiveIds(prev: Mapping, members: seq<Member>): set<string> {
    set k | k in prev && Active(prev[k], members) :: prev[k].value.id
  }

  /** Ids of the members whose slot is cleared: their records are deleted later. */
  function InactiveIds(prev: Mapping, members: seq<Member>): set<string> {
    set k | k in prev && !Active(prev[k], members) && prev[k].Some? :: prev[k].value.id
  }

  ghost function EmptySlots(m: Mapping, ids: set<CoreId>): (r: Mapping)
    ensures r.Keys == m.Keys + ids
    ensures forall k :: k in r ==> r[k] == if k in ids then None else m[k]
    decreases |ids|
  {
    if ids == {} then m
    else
      var k :| k in ids;
      EmptySlots(m[k := None], ids - {k})
  }

  ghost function Retained(prev: Mapping, members: seq<Member>): Mapping {
    EmptySlots(prev, Cleared(prev, members))
  }

  function Newcomers(members: seq<Member>, known: set<string>): seq<Member> {
    if members == [] then []
    else (if members[0].id in known then [] else [members[0]]) + Newcomers(members[1..], known)
  }

  /** Step 2: fill empty slots in the order `pops`, then create ids after `current`, which raises
      when that is no hexadecimal numeral. */
  function Place(mapping: Mapping, incoming: seq<Member>, pops: seq<CoreId>, current: CoreId): Mapping
    requires IsHex(current) || |incoming| <= |pops|
    decreases |incoming|
  {
    if incoming == [] then mapping
    else if pops != [] then
      Place(mapping[pops[0] := Some(incoming[0])], incoming[1..], pops[1..], current)
    else
      var next := NextCoreId(current);
      Place(mapping[next := Some(incoming[0])], incoming[1..], [], next)
  }

  ghost function MaxId(ids: set<CoreId>): (m: CoreId)
    requires ids != {}
    ensures IsMax(m, ids)
  {
    MaxExists(ids);
    var m :| IsMax(m, ids);
    m
  }

  predicate HexKeys(m: Mapping) { forall k :: k in m ==> IsHex(k) }

  ghost function StartId(prev: Mapping): (id: CoreId)
    ensures HexKeys(prev) ==> IsHex(id)
  {
    if prev == map[] then "0000" else MaxId(prev.Keys)
  }

  /** New ids can be made, or none is needed. */
  ghost predicate Startable(prev: Mapping, members: seq<Member>, pops: seq<CoreId>) {
    IsHex(StartId(prev)) || |Newcomers(members, ActiveIds(prev, members))| <= |pops|
  }

  ghost function Reassign(prev: Mapping, members: seq<Member>, pops: seq<CoreId>): Mapping
    requires Startable(prev, members, pops)
  {
    Place(Retained(prev, members), Newcomers(members, ActiveIds(prev, members)), pops, StartId(prev))
  }

  // ------------------------------------------------------------ well-formedness

  predicate DistinctIds(members: seq<Member>) {
    forall i, j :: 0 <= i < j < |members| ==> members[i].id != members[j].id
  }

  /** No two slots hold the same member id. */
  predicate Injective(m: Mapping) {
    forall a, b :: a in m && b in m && m[a].Some? && m[b].Some? && m[a].value.id == m[b].value.id ==> a == b
  }

  predicate AllFourDigit(m: Mapping) { forall k :: k in m ==> FourDigit(k) }

  predicate Full(m: Mapping) { forall k :: k in m ==> m[k].Some? }

  /** The number after which new ids are made. */
  ghost function Top(prev: Mapping): nat { if IsHex(StartId(prev)) then Number(StartId(prev)) else 0 }

  /** None of the ids that will be made is in use. */
  ghost predicate NoCollision(prev: Mapping, members: seq<Member>, pops: seq<CoreId>) {
    forall i :: |pops| <= i < |Newcomers(members, ActiveIds(prev, members))| ==> NewId(pops, Top(prev), i) !in prev
  }

  /** The id made for newcomer `i`, when the `pops` are used up. */
  function NewId(pops: seq<CoreId>, top: nat, i: nat): CoreId
    requires |pops| <= i
  {
    Format(top + 1 + i - |pops|)
  }

  ghost predicate Given(prev: Mapping, members: seq<Member>, pops: seq<CoreId>) {
    && Injective(prev) && DistinctIds(members)
    && IsOrder(pops, Cleared(prev, members)) && Startable(prev, members, pops)
  }

  ghost predicate ValidInput(prev: Mapping, members: seq<Member>, pops: seq<CoreId>) {
    Given(prev, members, pops) && NoCollision(prev, members, pops)
  }

  // ----------------------------------------------------------------- the slots

  /** The slots the newcomers receive: the cleared ones first, then consecutive new ids. */
  function Slots(pops: seq<CoreId>, top: nat, n: nat): (s: seq<CoreId>)
    ensures |s| == n
  {
    seq(n, i requires 0 <= i < n => if i < |pops| then pops[i] else NewId(pops, top, i))
  }

  lemma SlotsUnroll(pops: seq<CoreId>, top: nat, n: nat)
    requires 0 < n
    ensures var s := Slots(pops, top, n);
            && s[0] == (if pops != [] then pops[0] else Format(top + 1))
            && s[1..] == (if pops != [] then Slots(pops[1..], top, n - 1) else Slots([], top + 1, n - 1))
  {
    hide Slots;
    SlotAt(pops, top, n, 0);
    if pops != [] {
      SlotsTail(pops, top, n);
    } else {
      SlotsNext(top, n);
    }
  }

  lemma SlotAt(pops: seq<CoreId>, top: nat, n: nat, i: nat)
    requires i < n
    ensures Slots(pops, top, n)[i] == if i < |pops| then pops[i] else NewId(pops, top, i)
  {
  }

  lemma SlotsTail(pops: seq<CoreId>, top: nat, n: nat)
    requires 0 < n && pops != []
    ensures Slots(pops, top, n)[1..] == Slots(pops[1..], top, n - 1)
  {
    hide Slots, Format;
    forall i | 0 <= i < n - 1
      ensures Slots(pops, top, n)[1..][i] == Slots(pops[1..], top, n - 1)[i]
    {
      SlotAt(pops, top, n, i + 1);
      SlotAt(pops[1..], top, n - 1, i);
    }
  }

  lemma SlotsNext(top: nat, n: nat)
    requires 0 < n
    ensures Slots([], top, n)[1..] == Slots([], top + 1, n - 1)
  {
    hide Slots, Format;
    forall i | 0 <= i < n - 1
      ensures Slots([], top, n)[1..][i] == Slots([], top + 1, n - 1)[i]
    {
      SlotAt([], top, n, i + 1);
      SlotAt([], top + 1, n - 1, i);
    }
  }

  /** `i` is the last place of `k` in `s`. */
  predicate LastAt(s: seq<CoreId>, i: int, k: CoreId) {
    0 <= i < |s| && s[i] == k && k !in s[i + 1..]
  }

  /** Each slot holds the last member put there. */
  ghost predicate Filled(r: Mapping, m: Mapping, s: seq<CoreId>, incoming: seq<Member>)
    requires |s| == |incoming|
  {
    && r.Keys == m.Keys + Elements(s)
    && (forall i, k :: LastAt(s, i, k) ==> k in r && r[k] == Some(incoming[i]))
    && (forall k :: k in m && k !in s ==> r[k] == m[k])
  }

  lemma FilledNil(m: Mapping)
    ensures Filled(m, m, [], [])
  {
    assert m.Keys == m.Keys + Elements<CoreId>([]);
  }

  lemma FilledCons(r: Mapping, m: Mapping, s: seq<CoreId>, incoming: seq<Member>)
    requires |s| == |incoming| > 0
    requires Filled(r, m[s[0] := Some(incoming[0])], s[1..], incoming[1..])
    ensures Filled(r, m, s, incoming)
  {
    assert s == [s[0]] + s[1..];
    assert Elements(s) == {s[0]} + Elements(s[1..]);
    forall i, k | LastAt(s, i, k)
      ensures k in r && r[k] == Some(incoming[i])
    {
      if i > 0 {
        assert s[1..][i - 1 + 1..] == s[i + 1..];
        assert LastAt(s[1..], i - 1, k) && incoming[i] == incoming[1..][i - 1];
      }
    }
  }

  lemma {:induction false} PlaceFillsSlots(m: Mapping, incoming: seq<Member>, pops: seq<CoreId>, current: CoreId,
                                           top: nat)
    requires if IsHex(current) then top == Number(current) else |incoming| <= |pops|
    ensures Filled(Place(m, incoming, pops, current), m, Slots(pops, top, |incoming|), incoming)
    decreases |incoming|
  {
    hide Value, Format, IsNumeral, Slots, Filled, Distinct;
    var s := Slots(pops, top, |incoming|);
    if incoming == [] {
      assert s == [];
      FilledNil(m);
    } else {
      SlotsUnroll(pops, top, |incoming|);
      var m' := m[s[0] := Some(incoming[0])];
      if pops != [] {
        PlaceFillsSlots(m', incoming[1..], pops[1..], current, top);
      } else {
        FormatRoundTrip(top + 1);
        PlaceFillsSlots(m', incoming[1..], [], NextCoreId(current), top + 1);
      }
      FilledCons(Place(m, incoming, pops, current), m, s, incoming);
    }
  }

  /** Without a collision no slot is handed out twice. */
  lemma SlotsDistinct(prev: Mapping, members: seq<Member>, pops: seq<CoreId>)
    requires ValidInput(prev, members, pops)
    ensures Distinct(Slots(pops, Top(prev), |Newcomers(members, ActiveIds(prev, members))|))
  {
    hide Format, Newcomers, Top, Value;
    var n := |Newcomers(members, ActiveIds(prev, members))|;
    var s := Slots(pops, Top(prev), n);
    forall i, j | 0 <= i < j < n
      ensures s[i] != s[j]
    {
      if |pops| <= j {
        if |pops| <= i {
          FormatRoundTrip(Top(prev) + 1 + i - |pops|);
          FormatRoundTrip(Top(prev) + 1 + j - |pops|);
        } else {
          assert pops[i] in Elements(pops);
        }
      }
    }
  }

  // -------------------------------------------------------------- the newcomers

  lemma {:induction false} NewcomersExactly(members: seq<Member>, known: set<string>)
    ensures var n := Newcomers(members, known);
            && (forall x :: x in n <==> x in members && x.id !in known)
            && (DistinctIds(members) ==> DistinctIds(n))
  {
    if members != [] {
      NewcomersExactly(members[1..], known);
      assert members == [members[0]] + members[1..];
    }
  }

  lemma DistinctMembers(members: seq<Member>)
    requires DistinctIds(members)
    ensures Distinct(members) && |Elements(members)| == |members|
  {
    DistinctSize(members);
  }

  /** The members keeping a slot are as many as the kept slots. */
  lemma KeptSize(prev: Mapping, members: seq<Member>)
    requires Injective(prev) && DistinctIds(members)
    ensures |Newcomers(members, ActiveIds(prev, members))| == |members| - |Kept(prev, members)|
  {
    var known := ActiveIds(prev, members);
    var incoming := Newcomers(members, known);
    NewcomersExactly(members, known);
    DistinctMembers(members);
    DistinctMembers(incoming);
    assert Elements(incoming) <= Elements(members);
    StayingSize(prev, members, Elements(members) - Elements(incoming));
  }

  lemma StayingSize(prev: Mapping, members: seq<Member>, staying: set<Member>)
    requires Injective(prev) && DistinctIds(members)
    requires forall x :: x in staying <==> x in members && x.id in ActiveIds(prev, members)
    ensures |staying| == |Kept(prev, members)|
  {
    hide Value, Hex, Pad, IsNumeral;
    var kept := Kept(prev, members);
    var holder := k => if k in prev && prev[k].Some? then prev[k].value else Member("", "");
    forall x | x in staying
      ensures exists k :: k in kept && holder(k) == x
    {
      var k :| k in prev && Active(prev[k], members) && prev[k].value.id == x.id;
      assert k in kept && holder(k) == x;
    }
    ImageSize(kept, holder, staying);
  }

  // ------------------------------------------------------------- main theorems

  /** Among four-digit ids the string maximum is the largest number. */
  lemma TopIsLargest(prev: Mapping)
    requires AllFourDigit(prev)
    ensures IsHex(StartId(prev)) && forall k :: k in prev ==> IsHex(k) && Number(k) <= Top(prev)
  {
    if prev != map[] {
      MaxIsNumericMax(MaxId(prev.Keys), prev.Keys);
    }
  }

  /** Mappings with four-digit ids never collide. */
  lemma FourDigitsAreValid(prev: Mapping, members: seq<Member>, pops: seq<CoreId>)
    requires Injective(prev) && AllFourDigit(prev) && DistinctIds(members) && IsOrder(pops, Cleared(prev, members))
    ensures ValidInput(prev, members, pops)
  {
    hide Format, Newcomers, Top, Value, Injective;
    TopIsLargest(prev);
    forall i | |pops| <= i < |Newcomers(members, ActiveIds(prev, members))|
      ensures NewId(pops, Top(prev), i) !in prev
    {
      FormatRoundTrip(Top(prev) + 1 + i - |pops|);
    }
  }

  /** A slot handed out is a cleared one, or new with a number above the string maximum's. */
  lemma SlotOrigin(prev: Mapping, members: seq<Member>, pops: seq<CoreId>, i: nat)
    requires ValidInput(prev, members, pops) && i < |Newcomers(members, ActiveIds(prev, members))|
    ensures var id := Slots(pops, Top(prev), |Newcomers(members, ActiveIds(prev, members))|)[i];
            if i < |pops| then id in Cleared(prev, members) else IsHex(id) && Number(id) > Top(prev) && id !in prev
  {
    hide Newcomers, Top, Injective, Hex, Value;
    if i < |pops| {
      assert pops[i] in Elements(pops);
    } else {
      FormatRoundTrip(Top(prev) + 1 + i - |pops|);
    }
  }

  /** The contents of every slot after a reassignment, for every pop order. */
  lemma ReassignContents(prev: Mapping, members: seq<Member>, pops: seq<CoreId>)
    requires ValidInput(prev, members, pops)
    ensures var after := Reassign(prev, members, pops);
            var incoming := Newcomers(members, ActiveIds(prev, members));
            var s := Slots(pops, Top(prev), |incoming|);
            && Distinct(s)
            && after.Keys == prev.Keys + Elements(s)
            && (forall i :: 0 <= i < |s| ==> s[i] in after && after[s[i]] == Some(incoming[i]))
            && (forall k :: k in Kept(prev, members) ==> k !in s && after[k] == prev[k])
            && (forall k :: k in Cleared(prev, members) && k !in s ==> after[k] == None)
  {
    hide Value, Hex, Pad, IsNumeral, Place, Newcomers, StartId, Slots;
    var incoming := Newcomers(members, ActiveIds(prev, members));
    var s := Slots(pops, Top(prev), |incoming|);
    PlaceFillsSlots(Retained(prev, members), incoming, pops, StartId(prev), Top(prev));
    SlotsDistinct(prev, members, pops);
    forall i | 0 <= i < |s|
      ensures LastAt(s, i, s[i])
    {
    }
    forall k | k in Kept(prev, members)
      ensures k !in s
    {
      forall i | 0 <= i < |s|
        ensures s[i] != k
      {
        SlotOrigin(prev, members, pops, i);
      }
    }
  }

  lemma KeysAfter(prev: Mapping, members: seq<Member>, pops: seq<CoreId>)
    requires ValidInput(prev, members, pops)
    ensures Reassign(prev, members, pops).Keys == prev.Keys +
              Elements(Slots(pops, Top(prev), |Newcomers(members, ActiveIds(prev, members))|))
  {
    hide Reassign, Newcomers, StartId, Slots, Injective, Value;
    ReassignContents(prev, members, pops);
  }

  lemma EveryMemberPlaced(prev: Mapping, members: seq<Member>, pops: seq<CoreId>, m: Member)
    requires ValidInput(prev, members, pops)
    requires m in members
    ensures var after := Reassign(prev, members, pops); exists k :: k in after && after[k] == Some(m)
  {
    hide Value, Hex, Pad, IsNumeral, Reassign, Newcomers, StartId, Slots, Injective;
    ReassignContents(prev, members, pops);
    var after := Reassign(prev, members, pops);
    var known := ActiveIds(prev, members);
    var incoming := Newcomers(members, known);
    NewcomersExactly(members, known);
    if m.id in known {
      var k :| k in prev && Active(prev[k], members) && prev[k].value.id == m.id;
      assert k in Kept(prev, members) && after[k] == Some(m);
    } else {
      var i :| 0 <= i < |incoming| && incoming[i] == m;
      assert after[Slots(pops, Top(prev), |incoming|)[i]] == Some(m);
    }
  }

  lemma SlotsSurvive(prev: Mapping, members: seq<Member>, pops: seq<CoreId>)
    requires ValidInput(prev, members, pops)
    ensures var after := Reassign(prev, members, pops);
            && prev.Keys <= after.Keys
            && (forall k :: k in prev && Active(prev[k], members) ==> after[k] == prev[k])
  {
    hide Value, IsNumeral, Reassign, Newcomers, StartId, Slots, Injective;
    ReassignContents(prev, members, pops);
    assert forall k :: k in prev && Active(prev[k], members) ==> k in Kept(prev, members);
  }

  lemma OnlyMembersPlaced(prev: Mapping, members: seq<Member>, pops: seq<CoreId>)
    requires ValidInput(prev, members, pops)
    ensures var after := Reassign(prev, members, pops);
            forall k :: k in after && after[k].Some? ==> after[k].value in members
  {
    hide Value, Hex, Pad, IsNumeral, Reassign, Newcomers, StartId, Slots, Injective;
    ReassignContents(prev, members, pops);
    NewcomersExactly(members, ActiveIds(prev, members));
  }

  lemma NewIdsAreAbove(prev: Mapping, members: seq<Member>, pops: seq<CoreId>, k: CoreId)
    requires ValidInput(prev, members, pops)
    requires k in Reassign(prev, members, pops) && k !in prev
    ensures IsHex(k) && Number(k) > Top(prev)
  {
    hide Value, IsNumeral, Reassign, Newcomers, StartId, Injective, Slots;
    var s := Slots(pops, Top(prev), |Newcomers(members, ActiveIds(prev, members))|);
    assert k in Elements(s) by {
      ReassignContents(prev, members, pops);
    }
    var i :| 0 <= i < |s| && s[i] == k;
    assert Cleared(prev, members) <= prev.Keys;
    SlotOrigin(prev, members, pops, i);
  }

  /** One reassignment, for every injective mapping in which no id to be made is in use, every list
      of distinct members and every order in which the cleared ids are popped. */
  lemma ReassignIsExact(prev: Mapping, members: seq<Member>, pops: seq<CoreId>)
    requires ValidInput(prev, members, pops)
    ensures var after := Reassign(prev, members, pops);
            // nobody loses a slot, no id disappears, ids created are above the maximum, hence with
            // four-digit ids above all earlier ones
            && (forall k :: k in prev && Active(prev[k], members) ==> k in after && after[k] == prev[k])
            && prev.Keys <= after.Keys
            && (forall k :: k in after && k !in prev ==> IsHex(k) && Number(k) > Top(prev))
            && (AllFourDigit(prev) ==> forall j :: j in prev ==> IsHex(j) && Number(j) <= Top(prev))
            // members and occupied slots are in bijection
            && (forall k :: k in after && after[k].Some? ==> after[k].value in members)
            && (forall m :: m in members ==> exists k :: k in after && after[k] == Some(m))
            && Injective(after)
  {
    hide Value, IsNumeral, Reassign, Injective, Top;
    SlotsSurvive(prev, members, pops);
    ReassignInjective(prev, members, pops);
    OnlyMembersPlaced(prev, members, pops);
    if AllFourDigit(prev) {
      TopIsLargest(prev);
    }
    forall m | m in members
      ensures exists k :: k in Reassign(prev, members, pops) && Reassign(prev, members, pops)[k] == Some(m)
    {
      EveryMemberPlaced(prev, members, pops, m);
    }
    forall k | k in Reassign(prev, members, pops) && k !in prev
      ensures IsHex(k) && Number(k) > Top(prev)
    {
      NewIdsAreAbove(prev, members, pops, k);
    }
  }

  lemma {:induction false} LastIndex(s: seq<CoreId>, k: CoreId) returns (i: nat)
    requires k in s
    ensures LastAt(s, i, k)
  {
    var n := |s| - 1;
    if s[n] == k {
      i := n;
    } else {
      i := LastIndex(s[..n], k);
      assert s[i + 1..] == s[..n][i + 1..] + [s[n]];
    }
  }

  /** What a slot holds in the end, collisions or not. */
  lemma SlotHolds(prev: Mapping, members: seq<Member>, pops: seq<CoreId>, k: CoreId, m: Member)
    requires Given(prev, members, pops)
    requires k in Reassign(prev, members, pops) && Reassign(prev, members, pops)[k] == Some(m)
    ensures var incoming := Newcomers(members, ActiveIds(prev, members));
            var s := Slots(pops, Top(prev), |incoming|);
            || (exists i :: LastAt(s, i, k) && incoming[i] == m)
            || (k in Kept(prev, members) && prev[k] == Some(m) && k !in s)
  {
    hide Value, Hex, Pad, IsNumeral, Place, Newcomers, StartId, Slots, Injective, Retained, Kept, Filled, LastAt;
    var incoming := Newcomers(members, ActiveIds(prev, members));
    var s := Slots(pops, Top(prev), |incoming|);
    PlaceFillsSlots(Retained(prev, members), incoming, pops, StartId(prev), Top(prev));
    FilledHolds(Reassign(prev, members, pops), Retained(prev, members), s, incoming, k, m);
    RetainedHolds(prev, members, k, m);
  }

  lemma FilledHolds(r: Mapping, before: Mapping, s: seq<CoreId>, incoming: seq<Member>, k: CoreId, m: Member)
    requires |s| == |incoming| && Filled(r, before, s, incoming) && k in r && r[k] == Some(m)
    ensures || (exists i :: LastAt(s, i, k) && incoming[i] == m)
            || (k in before && before[k] == Some(m) && k !in s)
  {
    hide LastAt;
    if k in s {
      var i := LastIndex(s, k);
      assert incoming[i] == m;
    } else {
      assert k !in Elements(s);
    }
  }

  lemma RetainedHolds(prev: Mapping, members: seq<Member>, k: CoreId, m: Member)
    ensures var r := Retained(prev, members);
            k in r && r[k] == Some(m) ==> k in Kept(prev, members) && prev[k] == Some(m)
  {
  }

  /** If an id to be made is in use, some current member is left without a slot. */
  lemma CollisionLoses(prev: Mapping, members: seq<Member>, pops: seq<CoreId>, i: nat) returns (m: Member)
    requires Given(prev, members, pops)
    requires |pops| <= i < |Newcomers(members, ActiveIds(prev, members))| && NewId(pops, Top(prev), i) in prev
    ensures m in members
    ensures forall k :: k in Reassign(prev, members, pops) ==> Reassign(prev, members, pops)[k] != Some(m)
  {
    hide Value, Format, IsNumeral, Reassign, Newcomers, Top;
    var known := ActiveIds(prev, members);
    var incoming := Newcomers(members, known);
    var s := Slots(pops, Top(prev), |incoming|);
    NewcomersExactly(members, known);
    var id := s[i];
    var p := -1;
    if id in Kept(prev, members) {
      m := prev[id].value;
      assert m.id in known;
    } else {
      assert id in Elements(pops);
      p :| 0 <= p < |pops| && pops[p] == id;
      m := incoming[p];
      assert m in incoming && s[p] == id;
    }
    forall k | k in Reassign(prev, members, pops)
      ensures Reassign(prev, members, pops)[k] != Some(m)
    {
      if Reassign(prev, members, pops)[k] == Some(m) {
        Displaced(prev, members, incoming, s, i, p, k, m);
        SlotHolds(prev, members, pops, k, m);
      }
    }
  }

  /** A member whose slot is overwritten is nowhere else. */
  lemma Displaced(prev: Mapping, members: seq<Member>, incoming: seq<Member>, s: seq<CoreId>, i: nat, p: int,
                  k: CoreId, m: Member)
    requires |s| == |incoming| && i < |s| && DistinctIds(incoming) && Injective(prev)
    requires forall x :: x in incoming ==> x.id !in ActiveIds(prev, members)
    requires if p < 0 then s[i] in Kept(prev, members) && prev[s[i]] == Some(m)
               else p < i && s[p] == s[i] && incoming[p] == m
    ensures forall j :: LastAt(s, j, k) ==> incoming[j] != m
    ensures k in Kept(prev, members) && prev[k] == Some(m) ==> k in s
  {
    if p < 0 {
      assert prev[s[i]].value.id in ActiveIds(prev, members);
    } else {
      assert s[p + 1..][i - p - 1] == s[i];
      assert incoming[p] in incoming;
    }
    forall j | LastAt(s, j, k)
      ensures incoming[j] != m
    {
      assert incoming[j] in incoming;
    }
  }

  /** Every current member gets a slot exactly when no id to be made is in use. */
  lemma AllPlacedIff(prev: Mapping, members: seq<Member>, pops: seq<CoreId>)
    requires Given(prev, members, pops)
    ensures (forall m :: m in members ==>
               exists k :: k in Reassign(prev, members, pops) && Reassign(prev, members, pops)[k] == Some(m))
            <==> NoCollision(prev, members, pops)
  {
    hide Reassign, Newcomers, Top, NewId, Injective, StartId;
    if NoCollision(prev, members, pops) {
      forall m | m in members
        ensures exists k :: k in Reassign(prev, members, pops) && Reassign(prev, members, pops)[k] == Some(m)
      {
        EveryMemberPlaced(prev, members, pops, m);
      }
    } else {
      var i :| |pops| <= i < |Newcomers(members, ActiveIds(prev, members))| && NewId(pops, Top(prev), i) in prev;
      var m := CollisionLoses(prev, members, pops, i);
    }
  }

  lemma ReassignInjective(prev: Mapping, members: seq<Member>, pops: seq<CoreId>)
    requires ValidInput(prev, members, pops)
    ensures Injective(Reassign(prev, members, pops))
  {
    hide Value, Hex, Pad, IsNumeral, Reassign, Newcomers, StartId, Slots;
    ReassignContents(prev, members, pops);
    var after := Reassign(prev, members, pops);
    var known := ActiveIds(prev, members);
    var incoming := Newcomers(members, known);
    var s := Slots(pops, Top(prev), |incoming|);
    NewcomersExactly(members, known);
    forall a, b | a in after && b in after && after[a].Some? && after[b].Some? && after[a].value.id == after[b].value.id
      ensures a == b
    {
      assert a !in s ==> a in Kept(prev, members) && after[a].value.id in known;
      assert b !in s ==> b in Kept(prev, members) && after[b].value.id in known;
    }
  }

  lemma SlotCounts(prev: Mapping, members: seq<Member>, pops: seq<CoreId>)
    requires ValidInput(prev, members, pops)
    ensures |prev| == |Kept(prev, members)| + |pops|
    ensures |members| == |Kept(prev, members)| + |Newcomers(members, ActiveIds(prev, members))|
  {
    hide Value, Hex, Pad, IsNumeral, Newcomers;
    KeptSize(prev, members);
    DistinctSize(pops);
    assert prev.Keys == Kept(prev, members) + Cleared(prev, members);
  }

  lemma FewNewcomers(prev: Mapping, members: seq<Member>, pops: seq<CoreId>)
    requires ValidInput(prev, members, pops)
    requires |Newcomers(members, ActiveIds(prev, members))| <= |pops|
    ensures Reassign(prev, members, pops).Keys == prev.Keys
    ensures Full(Reassign(prev, members, pops)) <==> |Newcomers(members, ActiveIds(prev, members))| == |pops|
  {
    hide Value, Hex, Pad, IsNumeral, Reassign, Newcomers, StartId, Injective;
    ReassignContents(prev, members, pops);
    var n := |Newcomers(members, ActiveIds(prev, members))|;
    var s := Slots(pops, Top(prev), n);
    assert s == pops[..n];
    assert forall i :: 0 <= i < |pops| ==> pops[i] in Elements(pops);
    if n < |pops| {
      assert pops[n] in Cleared(prev, members) && pops[n] !in s;
      assert Reassign(prev, members, pops)[pops[n]] == None;
    } else {
      assert s == pops;
      forall k | k in Reassign(prev, members, pops)
        ensures Reassign(prev, members, pops)[k].Some?
      {
        if k in Cleared(prev, members) {
          assert k in Elements(pops);
        } else {
          assert k in Kept(prev, members);
        }
      }
    }
  }

  lemma SlotsCoverPops(pops: seq<CoreId>, top: nat, n: nat)
    requires |pops| <= n
    ensures Elements(pops) <= Elements(Slots(pops, top, n))
  {
    assert pops == Slots(pops, top, n)[..|pops|];
  }

  lemma ManyNewcomers(prev: Mapping, members: seq<Member>, pops: seq<CoreId>)
    requires ValidInput(prev, members, pops)
    requires |pops| <= |Newcomers(members, ActiveIds(prev, members))|
    ensures Full(Reassign(prev, members, pops))
    ensures |Reassign(prev, members, pops)| == |members|
  {
    hide Value, IsNumeral, Reassign, Newcomers, StartId, Injective, Slots;
    ReassignContents(prev, members, pops);
    SlotCounts(prev, members, pops);
    var incoming := Newcomers(members, ActiveIds(prev, members));
    var s := Slots(pops, Top(prev), |incoming|);
    SlotsCoverPops(pops, Top(prev), |incoming|);
    AllFilled(Reassign(prev, members, pops), prev, members, incoming, s);
  }

  lemma AllFilled(after: Mapping, prev: Mapping, members: seq<Member>, incoming: seq<Member>, s: seq<CoreId>)
    requires |s| == |incoming| && Distinct(s)
    requires after.Keys == prev.Keys + Elements(s) && Cleared(prev, members) <= Elements(s)
    requires forall i :: 0 <= i < |s| ==> s[i] in after && after[s[i]] == Some(incoming[i])
    requires forall k :: k in Kept(prev, members) ==> k !in s && after[k] == prev[k]
    ensures Full(after)
    ensures |after| == |Kept(prev, members)| + |s|
  {
    forall k | k in after
      ensures after[k].Some?
    {
      if k !in Elements(s) {
        assert k in Kept(prev, members);
      }
    }
    SizeOfUnion(after.Keys, prev, members, s);
  }

  lemma SizeOfUnion(all: set<CoreId>, prev: Mapping, members: seq<Member>, s: seq<CoreId>)
    requires Distinct(s) && all == prev.Keys + Elements(s)
    requires Cleared(prev, members) <= Elements(s) && Kept(prev, members) !! Elements(s)
    ensures |all| == |Kept(prev, members)| + |s|
  {
    DistinctSize(s);
    UnionSize(all, Kept(prev, members), Cleared(prev, members), Elements(s));
  }

  lemma UnionSize(all: set<CoreId>, kept: set<CoreId>, cleared: set<CoreId>, slots: set<CoreId>)
    requires all == kept + cleared + slots && cleared <= slots && kept !! slots
    ensures |all| == |kept| + |slots|
  {
    assert all == kept + slots;
  }

  /** The mapping never shrinks and grows only to the number of members; it has an
      empty slot exactly when there are fewer members than slots. */
  lemma ReassignSize(prev: Mapping, members: seq<Member>, pops: seq<CoreId>)
    requires ValidInput(prev, members, pops)
    ensures var after := Reassign(prev, members, pops);
            && |after| == (if |prev| < |members| then |members| else |prev|)
            && (Full(after) <==> |prev| <= |members|)
  {
    hide Value, Hex, Pad, IsNumeral, Reassign, Newcomers, StartId, Injective;
    SlotCounts(prev, members, pops);
    if |prev| <= |members| {
      ManyNewcomers(prev, members, pops);
    } else {
      FewNewcomers(prev, members, pops);
    }
  }
}
