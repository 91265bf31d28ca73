/** Optional values, and counting facts about sequences, sets and maps. */
module Collections {

  datatype Option<+T> = None | Some(value: T)

  predicate Distinct<T(==)>(s: seq<T>) {
    forall i, j :: 0 <= i < j < |s| ==> s[i] != s[j]
  }

  function Elements<T>(s: seq<T>): set<T> { set x | x in s }

  /** `order` is one of the orders in which the set `s` can be iterated. */
  ghost predicate IsOrder<T>(order: seq<T>, s: set<T>) {
    Distinct(order) && Elements(order) == s
  }

  lemma Associate<T>(a: seq<T>, b: seq<T>, c: seq<T>)
    ensures (a + b) + c == a + (b + c)
  {
  }

  lemma {:induction false} DistinctSize<T>(s: seq<T>)
    requires Distinct(s)
    ensures |Elements(s)| == |s|
  {
    if s != [] {
      var n := |s| - 1;
      DistinctSize(s[..n]);
      assert s == s[..n] + [s[n]];
      assert Elements(s) == Elements(s[..n]) + {s[n]};
    }
  }

  /** A bijection between two finite sets. */
  lemma {:induction false} ImageSize<A, B>(keys: set<A>, f: A -> B, image: set<B>)
    requires forall a, b :: a in keys && b in keys && f(a) == f(b) ==> a == b
    requires forall a :: a in keys ==> f(a) in image
    requires forall y :: y in image ==> exists a :: a in keys && f(a) == y
    ensures |image| == |keys|
  {
    if keys == {} {
      assert image == {};
    } else {
      var a :| a in keys;
      ImageSize(keys - {a}, f, image - {f(a)});
    }
  }

  lemma {:induction false} OrderExists<T>(s: set<T>)
    ensures exists order :: IsOrder(order, s)
  {
    if s == {} {
      assert IsOrder<T>([], s);
    } else {
      var x :| x in s;
      OrderExists(s - {x});
      var rest :| IsOrder(rest, s - {x});
      assert forall i :: 0 <= i < |rest| ==> rest[i] in Elements(rest);
      assert Elements([x] + rest) == {x} + Elements(rest);
      assert IsOrder([x] + rest, s);
    }
  }
}
