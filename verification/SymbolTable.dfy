/** Resolution of type names to top-level symbols (netconf/protoc_plugins/rpc_gw_gen.py). */
module SymbolTable {
  import opened Collections
  import opened Strings

  // -------------------------------------------------------------- the sorted table

  /** What `sorted(..., reverse=True)` makes of distinct strings. */
  ghost predicate Descends(table: seq<string>) {
    forall i, j :: 0 <= i < j < |table| ==> Less(table[j], table[i])
  }

  function InsertDown(x: string, s: seq<string>): seq<string> {
    if s == [] then [x] else if Less(s[0], x) then [x] + s else [s[0]] + InsertDown(x, s[1..])
  }

  function SortDown(s: seq<string>): seq<string> {
    if s == [] then [] else InsertDown(s[0], SortDown(s[1..]))
  }

  lemma {:induction false} InsertDescends(x: string, s: seq<string>)
    requires Descends(s) && x !in s
    ensures Descends(InsertDown(x, s)) && forall y :: y in InsertDown(x, s) <==> y == x || y in s
  {
    hide Less;
    if s != [] {
      LessTotal(s[0], x);
      if Less(s[0], x) {
        forall j | 0 <= j < |s|
          ensures Less(s[j], x)
        {
          if j > 0 {
            LessTransitive(s[j], s[0], x);
          }
        }
      } else {
        InsertDescends(x, s[1..]);
        var t := InsertDown(x, s[1..]);
        forall j | 0 <= j < |t|
          ensures Less(t[j], s[0])
        {
          assert t[j] in t;
        }
      }
    }
  }

  lemma {:induction false} SortDescends(s: seq<string>)
    requires Distinct(s)
    ensures Descends(SortDown(s)) && forall y :: y in SortDown(s) <==> y in s
  {
    hide Less;
    if s != [] {
      SortDescends(s[1..]);
      InsertDescends(s[0], SortDown(s[1..]));
    }
  }

  // ------------------------------------------------------------------- resolution

  /** `p` is the longest symbol that `name` starts with. */
  ghost predicate IsLongest(symbols: set<string>, name: string, p: string) {
    p in symbols && p <= name && forall q :: q in symbols && q <= name ==> |q| <= |p|
  }

  /** The scan of `_find_matching_prefix`. */
  method FindMatchingPrefix(table: seq<string>, name: string) returns (r: Option<string>)
    requires Descends(table)
    ensures match r
            case None => forall q :: q in table ==> !(q <= name)
            case Some(p) => IsLongest(Elements(table), name, p)
  {
    hide Less;
    for i := 0 to |table|
      invariant forall j :: 0 <= j < i ==> !(table[j] <= name)
    {
      if table[i] <= name {
        LongerComesFirst(table, name, i);
        return Some(table[i]);
      }
    }
    r := None;
  }

  lemma LongerComesFirst(table: seq<string>, name: string, i: nat)
    requires Descends(table) && i < |table| && table[i] <= name && forall j :: 0 <= j < i ==> !(table[j] <= name)
    ensures IsLongest(Elements(table), name, table[i])
  {
    hide Less;
    forall q | q in table && q <= name
      ensures |q| <= |table[i]|
    {
      var j :| 0 <= j < |table| && table[j] == q;
      if |q| > |table[i]| {
        assert table[i] == name[..|table[i]|] && q == name[..|q|];
        assert table[i] < q;
        ProperPrefixIsLess(table[i], q);
        LessTotal(table[i], q);
      }
    }
  }

  lemma LongestUnique(symbols: set<string>, name: string, p: string, q: string)
    requires IsLongest(symbols, name, p) && IsLongest(symbols, name, q)
    ensures p == q
  {
    assert p == name[..|p|] && q == name[..|q|];
  }

  /** What follows a symbol in the name of a type: nothing, or a dot and nested names. */
  predicate IsNesting(suffix: string) { suffix == "" || suffix[0] == '.' }

  /** Some symbol's full name is a package that another symbol lives in. */
  ghost predicate Clash(symbols: set<string>) {
    exists a, b :: a in symbols && b in symbols && a + "." <= b
  }

  lemma LongerClashes(s: string, suffix: string, q: string)
    requires IsNesting(suffix) && q <= s + suffix
    ensures |q| > |s| ==> s + "." <= q
  {
    if |q| > |s| {
      assert q == (s + suffix)[..|q|] && suffix[0] == '.';
      assert s + "." == q[..|s| + 1];
    }
  }

  /** Every top-level or nested type resolves to its own top-level symbol, exactly when no
      symbol's name is a package prefix of another symbol. */
  lemma ResolvesIff(symbols: set<string>)
    ensures (forall s, suffix :: s in symbols && IsNesting(suffix) ==> IsLongest(symbols, s + suffix, s)) <==>
            !Clash(symbols)
  {
    if Clash(symbols) {
      var a, b :| a in symbols && b in symbols && a + "." <= b;
      var suffix := b[|a|..];
      assert b[|a|] == (a + ".")[|a|] && b[..|a|] == (a + ".")[..|a|] == a;
      assert b == a + suffix && IsNesting(suffix) && b <= a + suffix;
      assert !IsLongest(symbols, a + suffix, a);
    } else {
      forall s, suffix | s in symbols && IsNesting(suffix)
        ensures IsLongest(symbols, s + suffix, s)
      {
        forall q | q in symbols && q <= s + suffix
          ensures |q| <= |s|
        {
          LongerClashes(s, suffix, q);
        }
      }
    }
  }

  /** A nested type of one symbol that is spelt like another symbol resolves to the other. */
  lemma NestedNameClashes()
    ensures var symbols := {"p.A", "p.A.B"};
            Clash(symbols) && IsLongest(symbols, "p.A" + ".B", "p.A.B") && !IsLongest(symbols, "p.A" + ".B", "p.A")
  {
    var symbols := {"p.A", "p.A.B"};
    assert "p.A" + ".B" == "p.A.B" && "p.A" == "p.A.B"[..3];
    assert "p.A" + "." == "p.A.B"[..4];
    assert "p.A" in symbols && "p.A.B" in symbols && "p.A" + "." <= "p.A.B";
  }

  // ------------------------------------------------------------------ the object

  /** What follows the last dot. */
  function LastComponent(s: string): string {
    if s == "" || s[|s| - 1] == '.' then "" else LastComponent(s[..|s| - 1]) + [s[|s| - 1]]
  }

  lemma {:induction false} LastOfQualified(package: string, name: string)
    requires '.' !in name
    ensures LastComponent(package + "." + name) == name
  {
    var s := package + "." + name;
    if name != "" {
      var n := |name| - 1;
      assert s[..|s| - 1] == package + "." + name[..n];
      LastOfQualified(package, name[..n]);
      assert name == name[..n] + [name[n]];
    }
  }

  datatype ProtoFile = ProtoFile(package: string, file: string, names: seq<string>)

  class IncludeManager {
    var fileOf: map<string, string>
    var prefixTable: seq<string>
    var typeMap: map<string, string>
    var includes: set<string>
    const moduleOf: string -> string

    ghost predicate Valid()
      reads this
    {
      Descends(prefixTable) && Elements(prefixTable) == fileOf.Keys
    }

    constructor (moduleOf: string -> string)
      ensures Valid() && this.moduleOf == moduleOf && fileOf == map[] && typeMap == map[] && includes == {}
    {
      this.moduleOf, fileOf, prefixTable, typeMap, includes := moduleOf, map[], [], map[], {};
    }

    /** Declares a file's top-level symbols and sorts the table anew; `order` is the
        iteration order of the symbols then known. */
    method ExtendSymbolTables(proto: ProtoFile, order: seq<string>)
      requires Valid() && IsOrder(order, Declare(fileOf, proto, |proto.names|).Keys)
      modifies this
      ensures Valid() && fileOf == Declare(old(fileOf), proto, |proto.names|)
      ensures typeMap == old(typeMap) && includes == old(includes)
    {
      for i := 0 to |proto.names|
        invariant fileOf == Declare(old(fileOf), proto, i) && typeMap == old(typeMap) && includes == old(includes)
      {
        fileOf := fileOf[proto.package + "." + proto.names[i] := proto.file];
      }
      SortDescends(order);
      prefixTable := SortDown(order);
      assert Elements(prefixTable) == Elements(order);
    }

    /** Remembers the Python name of a type: its symbol's module, the symbol's own name, the nested rest. */
    method AddNeededSymbol(name: string) returns (ok: bool)
      requires Valid()
      modifies this`typeMap, this`includes
      ensures Valid()
      ensures ok <==> name in old(typeMap) || exists q :: q in fileOf && q <= name
      ensures !ok || name in old(typeMap) ==> typeMap == old(typeMap) && includes == old(includes)
      ensures ok && name !in old(typeMap) ==>
                forall s :: IsLongest(fileOf.Keys, name, s) ==>
                  && includes == old(includes) + {fileOf[s]}
                  && typeMap == old(typeMap)[name := PythonName(moduleOf(fileOf[s]), s, name)]
    {
      if name in typeMap {
        return true;
      }
      var top := FindMatchingPrefix(prefixTable, name);
      if top.None? {
        assert forall q :: q in fileOf ==> q in Elements(prefixTable);
        return false;
      }
      var s := top.value;
      forall q | IsLongest(fileOf.Keys, name, q)
        ensures q == s
      {
        LongestUnique(fileOf.Keys, name, q, s);
      }
      includes := includes + {fileOf[s]};
      typeMap := typeMap[name := PythonName(moduleOf(fileOf[s]), s, name)];
      ok := true;
    }
  }

  function Declare(fileOf: map<string, string>, proto: ProtoFile, n: nat): map<string, string>
    requires n <= |proto.names|
  {
    if n == 0 then fileOf else Declare(fileOf, proto, n - 1)[proto.package + "." + proto.names[n - 1] := proto.file]
  }

  function PythonName(mod: string, symbol: string, name: string): string
    requires symbol <= name
  {
    mod + "." + LastComponent(symbol) + name[|symbol|..]
  }

  /** A nested type's Python name is module, declared name and nested names, dotted together. */
  lemma NameOfType(mod: string, package: string, local: string, suffix: string)
    requires '.' !in local
    ensures var s := package + "." + local; PythonName(mod, s, s + suffix) == mod + "." + local + suffix
  {
    LastOfQualified(package, local);
    var s := package + "." + local;
    assert (s + suffix)[|s|..] == suffix;
  }
}
