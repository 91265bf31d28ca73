/** The floating-point code for response times (docker/config/igmpv3.py), section 4.1.1 of RFC 3376:
    one byte 1eeemmmm stands for (mmmm + 16) * 2^(eee + 3), a byte below 128 for itself. */
module IgmpFloat {

  function Pow2(n: nat): (r: nat)
    ensures r > 0
  {
    if n == 0 then 1 else 2 * Pow2(n - 1)
  }

  function Decode(code: nat): nat {
    if code < 128 then code else (code % 16 + 16) * Pow2(code / 16 % 8 + 3)
  }

  /** The greatest code whose value does not exceed `v`. */
  ghost predicate IsCode(v: nat, code: nat) {
    code <= 255 && Decode(code) <= v && forall d :: code < d <= 255 ==> Decode(d) > v
  }

  lemma Powers()
    ensures Pow2(3) == 8 && Pow2(4) == 16 && Pow2(5) == 32 && Pow2(6) == 64 && Pow2(7) == 128
    ensures Pow2(8) == 256 && Pow2(9) == 512 && Pow2(10) == 1024 && Pow2(11) == 2048
  {
    assert Pow2(3) == 8;
    assert Pow2(5) == 32;
    assert Pow2(7) == 128;
    assert Pow2(9) == 512;
  }

  /** How far the next code's value is. */
  function Gap(code: nat): nat { if code < 128 then 1 else Pow2(code / 16 % 8 + 3) }

  lemma FieldsOf(exp: nat, mant: nat)
    requires exp < 8 && mant < 16
    ensures Decode(128 + 16 * exp + mant) == (mant + 16) * Pow2(exp + 3)
    ensures Gap(128 + 16 * exp + mant) == Pow2(exp + 3)
  {
    var code := 128 + 16 * exp + mant;
    assert code % 16 == mant && code / 16 == 8 + exp;
  }

  lemma SplitCode(code: nat) returns (exp: nat, mant: nat)
    requires 128 <= code < 256
    ensures exp < 8 && mant < 16 && code == 128 + 16 * exp + mant
  {
    exp, mant := code / 16 - 8, code % 16;
  }

  lemma Doubles(n: nat)
    ensures Pow2(n + 1) == 2 * Pow2(n)
  {
  }

  lemma {:induction false} NextCode(code: nat)
    requires code < 255
    ensures Decode(code + 1) == Decode(code) + Gap(code) && Gap(code) > 0
  {
    if code < 127 {
    } else if code == 127 {
      Powers();
      FieldsOf(0, 0);
    } else {
      NextLongCode(code);
    }
  }

  lemma NextLongCode(code: nat)
    requires 128 <= code < 255
    ensures Decode(code + 1) == Decode(code) + Gap(code) && Gap(code) > 0
  {
    hide Decode, Gap, Pow2;
    var exp, mant := SplitCode(code);
    FieldsOf(exp, mant);
    Doubles(exp + 3);
    var p := Pow2(exp + 3);
    if mant < 15 {
      FieldsOf(exp, mant + 1);
      assert (mant + 1 + 16) * p == (mant + 16) * p + p;
    } else {
      FieldsOf(exp + 1, 0);
      assert 16 * (2 * p) == 31 * p + p;
    }
  }

  lemma {:induction false} Ascends(c: nat, d: nat)
    requires c <= d <= 255
    ensures Decode(c) <= Decode(d) && (c < d ==> Decode(c) < Decode(d))
    decreases d - c
  {
    hide Decode;
    if c < d {
      Ascends(c, d - 1);
      NextCode(d - 1);
    }
  }

  lemma CodeBetween(v: nat, code: nat)
    requires code <= 255 && Decode(code) <= v && (code < 255 ==> v < Decode(code + 1))
    ensures IsCode(v, code)
  {
    hide Decode;
    forall d | code < d <= 255
      ensures Decode(d) > v
    {
      Ascends(code + 1, d);
    }
  }

  lemma Halve(v: nat, n: nat, value: nat)
    requires v * Pow2(n) <= value < (v + 1) * Pow2(n)
    ensures v / 2 * Pow2(n + 1) <= value < (v / 2 + 1) * Pow2(n + 1)
  {
    var h, p := v / 2, Pow2(n);
    assert h * (2 * p) == 2 * h * p && (h + 1) * (2 * p) == (2 * h + 2) * p;
    assert v == 2 * h || v == 2 * h + 1;
  }

  lemma Itself(v: nat)
    requires v < 128
    ensures Decode(v) == v && Gap(v) == 1
  {
  }

  method EncodeFloat(value: nat) returns (code: nat)
    ensures IsCode(value, code)
  {
    hide Decode, Gap;
    Powers();
    if value < 128 {
      Itself(value);
      NextCode(value);
      CodeBetween(value, value);
      return value;
    }
    if value > 31743 {
      FieldsOf(7, 15);
      return 255;
    }
    var exp, v := 0, value / 8;
    while v > 31
      invariant 16 <= v && exp <= 7
      invariant v * Pow2(exp + 3) <= value < (v + 1) * Pow2(exp + 3)
    {
      Halve(v, exp + 3, value);
      Small(v, exp, value);
      exp := exp + 1;
      v := v / 2;
    }
    code := 128 + 16 * exp + v % 16;
    FieldsOf(exp, v % 16);
    assert v % 16 + 16 == v;
    if code < 255 {
      NextCode(code);
    }
    CodeBetween(value, code);
  }

  lemma Small(v: nat, exp: nat, value: nat)
    requires v > 31 && exp <= 7 && v * Pow2(exp + 3) <= value <= 31743
    ensures exp < 7
  {
    Powers();
    assert v * Pow2(exp + 3) >= 32 * Pow2(exp + 3);
  }

  lemma Monotone(v: nat, c: nat, w: nat, d: nat)
    requires v <= w && IsCode(v, c) && IsCode(w, d)
    ensures c <= d
  {
  }

  /** Encoding undoes decoding on every code. */
  lemma Inverts(code: nat)
    requires code <= 255
    ensures IsCode(Decode(code), code)
  {
    hide Decode;
    if code < 255 {
      NextCode(code);
    }
    CodeBetween(Decode(code), code);
  }

  lemma SaturatesIff(v: nat, code: nat)
    requires IsCode(v, code)
    ensures code == 255 <==> v >= 31744
  {
    Powers();
    assert Decode(255) == 31744;
  }

  lemma GapIsSmall(code: nat)
    requires code <= 255
    ensures if code < 128 then Gap(code) == 1 else 16 * Gap(code) <= Decode(code)
  {
    hide Decode, Gap, Pow2;
    if code < 128 {
      Itself(code);
    } else {
      var exp, mant := SplitCode(code);
      FieldsOf(exp, mant);
    }
  }

  /** The relative error is below one sixteenth exactly up to 33860. */
  lemma RelativeError(v: nat, code: nat)
    requires v > 0 && IsCode(v, code)
    ensures 16 * (v - Decode(code)) < v <==> v <= 33860
  {
    hide Decode, Gap, Pow2;
    SaturatesIff(v, code);
    if code == 255 {
      Powers();
      FieldsOf(7, 15);
    } else {
      NextCode(code);
      assert v < Decode(code + 1);
      GapIsSmall(code);
    }
  }
}
