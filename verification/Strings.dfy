/** The byte-wise string order used by `max`, `sorted` and `<` on strings, and
    positional numerals: for numerals of one width the two orders agree. */
module Strings {

  predicate Less(a: string, b: string) {
    if b == [] then false
    else if a == [] then true
    else a[0] < b[0] || (a[0] == b[0] && Less(a[1..], b[1..]))
  }

  lemma {:induction false} LessTotal(a: string, b: string)
    ensures Less(a, b) || a == b || Less(b, a)
    ensures !(Less(a, b) && Less(b, a)) && !Less(a, a)
  {
    if a != [] && b != [] {
      LessTotal(a[1..], b[1..]);
      assert a == [a[0]] + a[1..] && b == [b[0]] + b[1..];
    }
    if a != [] {
      LessTotal(a[1..], a[1..]);
    }
  }

  lemma {:induction false} LessTransitive(a: string, b: string, c: string)
    requires Less(a, b) && Less(b, c)
    ensures Less(a, c)
  {
    if a != [] && a[0] == b[0] == c[0] {
      LessTransitive(a[1..], b[1..], c[1..]);
    }
  }

  lemma {:induction false} ProperPrefixIsLess(a: string, b: string)
    requires a < b
    ensures Less(a, b)
  {
    if a != [] {
      ProperPrefixIsLess(a[1..], b[1..]);
    }
  }

  lemma {:induction false} LessExtend(a: string, b: string, tail: string)
    requires |a| == |b| && Less(a, b)
    ensures Less(a + tail, b)
  {
    if a[0] == b[0] {
      LessExtend(a[1..], b[1..], tail);
      assert (a + tail)[1..] == a[1..] + tail;
    }
  }

  /** What `max` of a non-empty collection of strings returns. */
  ghost predicate IsMax(m: string, s: set<string>) {
    m in s && forall k :: k in s ==> !Less(m, k)
  }

  lemma {:induction false} MaxExists(s: set<string>)
    requires s != {}
    ensures exists m :: IsMax(m, s)
  {
    var x :| x in s;
    if s == {x} {
      LessTotal(x, x);
      assert IsMax(x, s);
    } else {
      MaxExists(s - {x});
      var m :| IsMax(m, s - {x});
      var top := if Less(m, x) then x else m;
      forall k | k in s
        ensures !Less(top, k)
      {
        if k == x {
          LessTotal(x, x);
        } else if Less(top, k) && top == x {
          LessTransitive(m, x, k);
          assert false;
        }
      }
      assert IsMax(top, s);
    }
  }

  // ---------------------------------------------------------------- numerals

  predicate IsNumeral(base: nat, s: string) {
    2 <= base <= 16 && forall i :: 0 <= i < |s| ==> IsDigit(base, s[i])
  }

  predicate IsDigit(base: nat, c: char) {
    2 <= base <= 16 && ('0' <= c <= '9' || 'a' <= c <= 'f') && Digit(c) < base
  }

  function Digit(c: char): nat
    requires '0' <= c <= '9' || 'a' <= c <= 'f'
  {
    if c <= '9' then (c as int) - ('0' as int) else (c as int) - ('a' as int) + 10
  }

  function DigitChar(d: nat): (c: char)
    requires d < 16
    ensures IsDigit(16, c) && Digit(c) == d
  {
    if d < 10 then (('0' as int) + d) as char else (('a' as int) + d - 10) as char
  }

  function Value(base: nat, s: string): nat
    requires IsNumeral(base, s)
  {
    if s == [] then 0
    else Value(base, s[..|s| - 1]) * base + Digit(s[|s| - 1])
  }

  lemma {:induction false} LessByLast(a: string, b: string, x: char, y: char)
    requires |a| == |b|
    ensures Less(a + [x], b + [y]) <==> (Less(a, b) || (a == b && x < y))
  {
    if a == [] {
      assert ([x] + [])[1..] == [] && a + [x] == [x] && b + [y] == [y];
    } else {
      LessByLast(a[1..], b[1..], x, y);
      assert (a + [x])[1..] == a[1..] + [x] && (b + [y])[1..] == b[1..] + [y];
      assert a == [a[0]] + a[1..] && b == [b[0]] + b[1..];
    }
  }

  lemma PlaceValue(base: nat, p: nat, q: nat, x: nat, y: nat)
    requires x < base && y < base
    ensures p * base + x == q * base + y ==> p == q && x == y
    ensures p * base + x < q * base + y <==> (p < q || (p == q && x < y))
  {
    if p < q {
      assert (p + 1) * base <= q * base;
    } else if q < p {
      assert (q + 1) * base <= p * base;
    }
  }

  /** String order is numeric order on numerals of equal width. */
  lemma {:induction false} OrderOfNumerals(base: nat, a: string, b: string)
    requires IsNumeral(base, a) && IsNumeral(base, b)
    requires |a| == |b|
    ensures Less(a, b) <==> Value(base, a) < Value(base, b)
    ensures Value(base, a) == Value(base, b) ==> a == b
    decreases |a|
  {
    if a != [] {
      var n := |a| - 1;
      OrderOfNumerals(base, a[..n], b[..n]);
      LessByLast(a[..n], b[..n], a[n], b[n]);
      assert a == a[..n] + [a[n]] && b == b[..n] + [b[n]];
      PlaceValue(base, Value(base, a[..n]), Value(base, b[..n]), Digit(a[n]), Digit(b[n]));
    }
  }
}
