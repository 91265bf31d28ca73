/** Core-store ids: hexadecimal strings, `format(n, '04x')` and `int(s, 16)`
    (common/utils/id_generation.py). */
module CoreIds {
  import opened Strings

  type CoreId = string

  const BROADCAST_CORE_ID: CoreId := "ffff"

  predicate IsHex(s: string) { s != [] && IsNumeral(16, s) }

  /** `int(id, 16)`, which raises on anything that is not a numeral. */
  function Number(id: CoreId): nat
    requires IsHex(id)
  {
    Value(16, id)
  }

  function Hex(n: nat): (s: string)
    ensures IsHex(s)
  {
    if n < 16 then [DigitChar(n)] else Hex(n / 16) + [DigitChar(n % 16)]
  }

  /** Zero padding on the left to four places. */
  function Pad(s: string): (r: string)
    requires IsNumeral(16, s)
    ensures IsNumeral(16, r) && |r| == if |s| < 4 then 4 else |s|
    decreases 4 - |s|
  {
    if |s| < 4 then Pad("0" + s) else s
  }

  function Format(n: nat): (id: CoreId)
    ensures IsHex(id)
  {
    Pad(Hex(n))
  }

  function NextCoreId(current: string): (id: CoreId)
    requires current == "" || IsHex(current)
    ensures IsHex(id)
  {
    if current == "" then "0001" else Format(Number(current) + 1)
  }

  predicate FourDigit(id: CoreId) { IsHex(id) && |id| == 4 }

  lemma {:induction false} HexValue(n: nat)
    ensures Value(16, Hex(n)) == n
  {
    if n >= 16 {
      HexValue(n / 16);
      var s := Hex(n);
      assert s[..|s| - 1] == Hex(n / 16);
    }
  }

  lemma {:induction false} LeadingZero(s: string)
    requires IsNumeral(16, s)
    ensures IsNumeral(16, "0" + s) && Value(16, "0" + s) == Value(16, s)
  {
    var z := "0" + s;
    if s == [] {
      assert z[..0] == [];
    } else {
      LeadingZero(s[..|s| - 1]);
      assert z[..|z| - 1] == "0" + s[..|s| - 1];
    }
  }

  lemma {:induction false} PadValue(s: string)
    requires IsNumeral(16, s)
    ensures Value(16, Pad(s)) == Value(16, s)
    decreases 4 - |s|
  {
    if |s| < 4 {
      LeadingZero(s);
      PadValue("0" + s);
    }
  }

  /** `int(format(n, '04x'), 16) == n`, and four places suffice exactly below 0x10000. */
  lemma FormatRoundTrip(n: nat)
    ensures Number(Format(n)) == n
    ensures FourDigit(Format(n)) <==> n <= 0xffff
  {
    HexValue(n);
    PadValue(Hex(n));
    HexWidth(n);
  }

  lemma HexWidth(n: nat)
    ensures |Hex(n)| <= 4 <==> n <= 0xffff
  {
    HexWidthIs(n, 4);
    FourDigits();
  }

  /** A four-digit id is the rendering of its own number. */
  lemma FourDigitIsFormat(id: CoreId)
    requires FourDigit(id)
    ensures Number(id) <= 0xffff && Format(Number(id)) == id
  {
    FourDigitBound(id);
    FormatRoundTrip(Number(id));
    OrderOfNumerals(16, id, Format(Number(id)));
  }

  lemma FourDigitBound(id: CoreId)
    requires FourDigit(id)
    ensures Number(id) <= 0xffff
  {
    var (a, b, c) := (id[..1], id[..2], id[..3]);
    assert id[..3][..2] == b && b[..1] == a && a[..0] == [];
    assert Value(16, a) <= 0xf;
    assert Value(16, b) <= 0xff;
    assert Value(16, c) <= 0xfff;
  }

  /** On four-digit ids, string `max` is numeric maximum. */
  lemma MaxIsNumericMax(m: CoreId, ids: set<CoreId>)
    requires forall k :: k in ids ==> FourDigit(k)
    requires IsMax(m, ids)
    ensures IsHex(m) && forall k :: k in ids ==> IsHex(k) && Number(k) <= Number(m)
  {
    forall k | k in ids
      ensures Number(k) <= Number(m)
    {
      OrderOfNumerals(16, m, k);
    }
  }

  // ---------------------------------------------------- beyond four digits

  function Pow16(d: nat): (r: nat)
    ensures r > 0
  {
    if d == 0 then 1 else 16 * Pow16(d - 1)
  }

  lemma {:induction false} HexWidthIs(n: nat, d: nat)
    requires d > 0
    ensures |Hex(n)| <= d <==> n < Pow16(d)
  {
    if d == 1 {
      assert Pow16(1) == 16 * Pow16(0);
    } else if n < 16 {
      HexWidthIs(n, d - 1);
    } else {
      HexWidthIs(n / 16, d - 1);
    }
  }

  /** The numeral of `d` digits f. */
  function AllF(d: nat): CoreId
    requires d > 0
  {
    Hex(Pow16(d) - 1)
  }

  lemma AllFIs(d: nat)
    requires d > 0
    ensures |AllF(d)| == d && IsHex(AllF(d)) && Number(AllF(d)) == Pow16(d) - 1
  {
    hide Hex, Value, Pow16;
    HexValue(Pow16(d) - 1);
    HexWidthIs(Pow16(d) - 1, d);
    if d > 1 {
      HexWidthIs(Pow16(d) - 1, d - 1);
      NextPower(d - 1);
    }
  }

  lemma NextPower(d: nat)
    ensures Pow16(d + 1) == 16 * Pow16(d)
  {
  }

  lemma AllFExtends(d: nat)
    requires d > 0
    ensures AllF(d + 1) == AllF(d) + [DigitChar(15)]
  {
    hide Pow16;
    NextPower(d);
    NextPower(d - 1);
    var n := Pow16(d + 1) - 1;
    assert n == 16 * (Pow16(d) - 1) + 15;
    assert n / 16 == Pow16(d) - 1 && n % 16 == 15;
  }

  lemma {:induction false} AllFPrefix(j: nat, d: nat)
    requires 0 < j < d
    ensures AllF(j) < AllF(d)
  {
    hide Hex, Pow16;
    AllFIs(d - 1);
    AllFExtends(d - 1);
    if j < d - 1 {
      AllFPrefix(j, d - 1);
    }
  }

  lemma FormatWidth(k: nat)
    ensures |Format(k)| >= 4 && k < Pow16(|Format(k)|)
    ensures k >= 0x1000 ==> Format(k) == Hex(k)
  {
    HexWidthIs(k, |Format(k)|);
    if k >= 0x1000 {
      HexWidthIs(k, 3);
      assert Pow16(3) == 16 * 16 * 16 * Pow16(0);
    }
  }

  /** A number of at most `d` digits does not sort after `d` digits f. */
  lemma NotAfterAllF(k: nat, d: nat)
    requires d >= 4 && k < Pow16(d)
    ensures !Less(AllF(d), Format(k))
  {
    hide Hex, Pow16, Less, Value, AllF;
    var w := |Format(k)|;
    FormatWidth(k);
    FormatRoundTrip(k);
    WidthAtMost(k, d);
    AllFIs(w);
    OrderOfNumerals(16, AllF(w), Format(k));
    if w < d && Less(AllF(d), Format(k)) {
      AllFPrefix(w, d);
      ProperPrefixIsLess(AllF(w), AllF(d));
      LessTransitive(AllF(w), AllF(d), Format(k));
    }
  }

  lemma WidthAtMost(k: nat, d: nat)
    requires d >= 4
    ensures |Format(k)| <= d <==> k < Pow16(d)
  {
    HexWidthIs(k, d);
  }

  /** All digits but the last are f, or there are at most four. */
  predicate Leads(n: nat) {
    n <= 0xffff || n / 16 + 1 == Pow16(|Hex(n)| - 1)
  }

  lemma FourDigits()
    ensures Pow16(4) == 0x10000
  {
    assert Pow16(4) == 16 * 16 * Pow16(2) && Pow16(2) == 16 * 16 * Pow16(0);
  }

  lemma LongHex(n: nat) returns (d: nat)
    requires n > 0xffff
    ensures d >= 4 && |Hex(n)| == d + 1 && Format(n) == Hex(n) && Pow16(d) <= n < Pow16(d + 1)
    ensures Hex(n) == Hex(n / 16) + [DigitChar(n % 16)] && Pow16(d + 1) == 16 * Pow16(d)
  {
    d := |Hex(n)| - 1;
    FourDigits();
    HexWidthIs(n, 4);
    HexWidthIs(n, d);
    HexWidthIs(n, d + 1);
    FormatWidth(n);
  }

  /** A number whose digits but the last are f sorts after all smaller ones. */
  lemma LeaderSortsLast(n: nat, k: nat)
    requires n > 0xffff && Leads(n) && k <= n
    ensures !Less(Format(n), Format(k))
  {
    hide Less, Value, Hex;
    var d := LongHex(n);
    assert Hex(n / 16) == AllF(d);
    ProperPrefixIsLess(AllF(d), Format(n));
    if k < Pow16(d) {
      NotAfterAllF(k, d);
      if Less(Format(n), Format(k)) {
        LessTransitive(AllF(d), Format(n), Format(k));
      }
    } else {
      WidthAtMost(k, d);
      WidthAtMost(k, d + 1);
      FormatRoundTrip(k);
      FormatRoundTrip(n);
      OrderOfNumerals(16, Format(n), Format(k));
    }
  }

  /** Otherwise the digits f one place shorter sort after all of them. */
  lemma ShorterSortsLast(n: nat, d: nat, k: nat)
    requires n > 0xffff && !Leads(n) && d == |Hex(n)| - 1 && d > 0 && k <= n
    ensures !Less(AllF(d), Format(k))
  {
    hide Less, Value, Hex;
    var e := LongHex(n);
    if k < Pow16(d) {
      NotAfterAllF(k, d);
    } else {
      FourDigitsOrMore(d);
      var f := LongHex(k);
      WidthAtMost(k, d);
      WidthAtMost(k, d + 1);
      var a := Hex(k / 16);
      HexValue(k / 16);
      AllFIs(d);
      assert n / 16 < Pow16(d) - 1;
      OrderOfNumerals(16, a, AllF(d));
      LessExtend(a, AllF(d), [DigitChar(k % 16)]);
      LessTotal(AllF(d), Format(k));
    }
  }

  lemma {:induction false} FourDigitsOrMore(d: nat)
    requires d >= 4
    ensures Pow16(d) >= 0x10000
  {
    FourDigits();
    if d > 4 {
      FourDigitsOrMore(d - 1);
    }
  }
}
