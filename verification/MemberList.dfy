/** Removing superseded replicas from the member list
    (`_sanitize_member_list`, voltha/leader.py). */
module MemberList {
  import opened Collections
  import opened Strings
  import opened Reassignment

  /** The replica number and the start time that the member id's pattern yields. */
  type Extractor = string -> Option<string>

  predicate AllMatch(members: seq<Member>, number: Extractor, stamp: Extractor) {
    forall m :: m in members ==> number(m.id).Some? && stamp(m.id).Some?
  }

  predicate DistinctNumbers(members: seq<Member>, number: Extractor) {
    forall i, j :: 0 <= i < j < |members| ==> number(members[i].id) != number(members[j].id)
  }

  /** `r` has for every replica number of `members` one member with the latest stamp. */
  ghost predicate Latest(r: seq<Member>, members: seq<Member>, number: Extractor, stamp: Extractor)
    requires AllMatch(members, number, stamp)
  {
    && DistinctNumbers(r, number)
    && (forall m :: m in r ==> m in members)
    && (forall m :: m in members ==> exists w :: w in r && Supersedes(w, m, number, stamp))
  }

  predicate Supersedes(w: Member, m: Member, number: Extractor, stamp: Extractor) {
    && number(w.id) == number(m.id) && stamp(w.id).Some? && stamp(m.id).Some?
    && !Less(stamp(w.id).value, stamp(m.id).value)
  }

  /** With stamps of one width, the member kept for a replica number is numerically the latest. */
  lemma LatestNumerically(r: seq<Member>, members: seq<Member>, number: Extractor, stamp: Extractor, m: Member,
                          w: Member)
    requires AllMatch(members, number, stamp) && Latest(r, members, number, stamp)
    requires m in members && w in r && number(w.id) == number(m.id)
    requires IsNumeral(10, stamp(m.id).value) && IsNumeral(10, stamp(w.id).value)
    requires |stamp(m.id).value| == |stamp(w.id).value|
    ensures Value(10, stamp(m.id).value) <= Value(10, stamp(w.id).value)
  {
    hide *;
    WinnerSupersedes(r, members, number, stamp, m, w);
    OrderOfNumerals(10, stamp(w.id).value, stamp(m.id).value);
  }

  lemma WinnerSupersedes(r: seq<Member>, members: seq<Member>, number: Extractor, stamp: Extractor, m: Member,
                         w: Member)
    requires AllMatch(members, number, stamp) && Latest(r, members, number, stamp)
    requires m in members && w in r && number(w.id) == number(m.id)
    ensures stamp(w.id).Some? && stamp(m.id).Some? && !Less(stamp(w.id).value, stamp(m.id).value)
  {
    hide Less, DistinctNumbers, AllMatch;
    var w' :| w' in r && Supersedes(w', m, number, stamp);
    SameNumber(r, number, w, w');
  }

  lemma SameNumber(r: seq<Member>, number: Extractor, a: Member, b: Member)
    requires DistinctNumbers(r, number) && a in r && b in r && number(a.id) == number(b.id)
    ensures a == b
  {
    var i :| 0 <= i < |r| && r[i] == a;
    var j :| 0 <= j < |r| && r[j] == b;
  }

  lemma LatestGrows(members: seq<Member>, i: nat, unique: map<string, Member>, number: Extractor, stamp: Extractor,
                    unique': map<string, Member>)
    requires i < |members| && AllMatch(members, number, stamp)
    requires UniqueSoFar(unique, members[..i], number, stamp)
    requires var m := members[i]; var n := number(m.id).value;
             var keep := n in unique && !Less(stamp(unique[n].id).value, stamp(m.id).value);
             unique' == if keep then unique else unique[n := m]
    ensures UniqueSoFar(unique', members[..i + 1], number, stamp)
  {
    var m := members[i];
    var n := number(m.id).value;
    assert members[..i + 1] == members[..i] + [m];
    LessTotal(stamp(m.id).value, stamp(m.id).value);
    forall x | x in members[..i + 1]
      ensures number(x.id).value in unique' && Supersedes(unique'[number(x.id).value], x, number, stamp)
    {
      if x in members[..i] && number(x.id).value == n && unique' != unique {
        var top := stamp(m.id).value;
        if Less(top, stamp(x.id).value) {
          LessTransitive(stamp(unique[n].id).value, top, stamp(x.id).value);
        }
      }
    }
  }

  ghost predicate UniqueSoFar(unique: map<string, Member>, done: seq<Member>, number: Extractor, stamp: Extractor) {
    && (forall n :: n in unique ==> unique[n] in done && number(unique[n].id) == Some(n) && stamp(unique[n].id).Some?)
    && (forall x :: x in done ==> number(x.id).Some? && number(x.id).value in unique &&
                                  Supersedes(unique[number(x.id).value], x, number, stamp))
  }

  /** `_sanitize_member_list`: an id that does not match leaves the list as it is. */
  method Sanitize(members: seq<Member>, number: Extractor, stamp: Extractor) returns (r: seq<Member>)
    ensures !AllMatch(members, number, stamp) ==> r == members
    ensures AllMatch(members, number, stamp) ==> Latest(r, members, number, stamp)
    ensures AllMatch(members, number, stamp) && DistinctNumbers(members, number) ==> r == members
  {
    hide UniqueSoFar, Latest, DistinctNumbers, Less;
    var unique: map<string, Member> := map[];
    NothingSeen(number, stamp);
    assert members[..0] == [];
    var updateOccurred := false;
    for i := 0 to |members|
      invariant forall j :: 0 <= j < i ==> number(members[j].id).Some? && stamp(members[j].id).Some?
      invariant UniqueSoFar(unique, members[..i], number, stamp)
      invariant !updateOccurred <==> DistinctNumbers(members[..i], number)
    {
      var m := members[i];
      if number(m.id).None? || stamp(m.id).None? {
        return members;
      }
      var n := number(m.id).value;
      ghost var before := unique;
      SeenNumber(members, i, unique, number, stamp);
      if n !in unique {
        unique := unique[n := m];
      } else {
        if Less(stamp(unique[n].id).value, stamp(m.id).value) {
          unique := unique[n := m];
        }
        updateOccurred := true;
      }
      assert members[..i + 1][..i] == members[..i] && members[..i + 1][i] == m;
      LatestGrows(members[..i + 1], i, before, number, stamp, unique);
      assert members[..i + 1][..i + 1] == members[..i + 1];
    }
    assert members[..|members|] == members;
    if updateOccurred {
      r := Flatten(unique, members, number, stamp);
    } else {
      r := members;
      AllKept(members, number, stamp);
    }
  }

  lemma DistinctSnoc(done: seq<Member>, m: Member, number: Extractor)
    ensures DistinctNumbers(done + [m], number) <==>
            DistinctNumbers(done, number) && forall j :: 0 <= j < |done| ==> number(done[j].id) != number(m.id)
  {
    var all := done + [m];
    assert forall j :: 0 <= j < |done| ==> all[j] == done[j];
    assert all[|done|] == m;
  }

  lemma SeenNumber(members: seq<Member>, i: nat, unique: map<string, Member>, number: Extractor, stamp: Extractor)
    requires i < |members| && UniqueSoFar(unique, members[..i], number, stamp) && number(members[i].id).Some?
    ensures DistinctNumbers(members[..i + 1], number) <==>
            DistinctNumbers(members[..i], number) && number(members[i].id).value !in unique
    ensures forall n :: n in unique ==> stamp(unique[n].id).Some?
  {
    hide Supersedes;
    var done, m := members[..i], members[i];
    assert members[..i + 1] == done + [m];
    var n := number(m.id).value;
    if n in unique {
      var j :| 0 <= j < i && done[j] == unique[n];
      assert (done + [m])[j] == done[j] && (done + [m])[i] == m;
    } else {
      assert forall j :: 0 <= j < i ==> done[j] in done && number(done[j].id) != number(m.id);
    }
    DistinctSnoc(done, m, number);
  }

  lemma NothingSeen(number: Extractor, stamp: Extractor)
    ensures UniqueSoFar(map[], [], number, stamp) && DistinctNumbers([], number)
  {
  }

  lemma AllKept(members: seq<Member>, number: Extractor, stamp: Extractor)
    requires AllMatch(members, number, stamp) && DistinctNumbers(members, number)
    ensures Latest(members, members, number, stamp)
  {
    forall m | m in members
      ensures Supersedes(m, m, number, stamp)
    {
      LessTotal(stamp(m.id).value, stamp(m.id).value);
    }
  }

  method Flatten(unique: map<string, Member>, members: seq<Member>, number: Extractor, stamp: Extractor)
    returns (r: seq<Member>)
    requires AllMatch(members, number, stamp) && UniqueSoFar(unique, members, number, stamp)
    ensures Latest(r, members, number, stamp)
  {
    r := [];
    var rest := unique.Keys;
    while rest != {}
      invariant rest <= unique.Keys
      invariant forall m :: m in r <==> exists n :: n in unique && n !in rest && unique[n] == m
      invariant DistinctNumbers(r, number)
      decreases rest
    {
      var n :| n in rest;
      rest := rest - {n};
      forall j | 0 <= j < |r|
        ensures number(r[j].id) != Some(n)
      {
        assert r[j] in r;
      }
      r := r + [unique[n]];
    }
    forall m | m in members
      ensures exists w :: w in r && Supersedes(w, m, number, stamp)
    {
      assert unique[number(m.id).value] in r;
    }
  }
}
