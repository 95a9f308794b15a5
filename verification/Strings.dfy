/** Text as the runtime compares and measures it: by UTF-16 code units. */
module Strings {
  import opened Sorting

  /** Rank of a character in code-unit order: supplementary characters start with a
      surrogate unit, which sorts below U+E000. */
  function UnitRank(c: char): int {
    var n := c as int;
    if 0xE000 <= n <= 0xFFFF then n + 0x110000 else n
  }

  /** `length` of a text: two units for a supplementary character. */
  function UnitLength(s: string): nat {
    if s == [] then 0 else (if s[0] as int >= 0x10000 then 2 else 1) + UnitLength(s[1..])
  }

  /** a <= b in code-unit order. */
  predicate StrLe(a: string, b: string) {
    a == [] || (b != [] && (UnitRank(a[0]) < UnitRank(b[0]) || (a[0] == b[0] && StrLe(a[1..], b[1..]))))
  }

  lemma {:induction false} StrLeTotal(a: string, b: string)
    ensures StrLe(a, b) || StrLe(b, a)
  {
    if a != [] && b != [] { StrLeTotal(a[1..], b[1..]); }
  }

  lemma {:induction false} StrLeAntisymmetric(a: string, b: string)
    requires StrLe(a, b) && StrLe(b, a)
    ensures a == b
  {
    if a != [] && b != [] {
      StrLeAntisymmetric(a[1..], b[1..]);
      assert a == [a[0]] + a[1..] && b == [b[0]] + b[1..];
    }
  }

  lemma {:induction false} StrLeTransitive(a: string, b: string, c: string)
    requires StrLe(a, b) && StrLe(b, c)
    ensures StrLe(a, c)
  {
    if a != [] && a[0] == b[0] && b[0] == c[0] { StrLeTransitive(a[1..], b[1..], c[1..]); }
  }

  lemma StrLeIsTotalOrder()
    ensures TotalOrder(StrLe)
  {
    forall a, b ensures StrLe(a, b) || StrLe(b, a) { StrLeTotal(a, b); }
    forall a, b | StrLe(a, b) && StrLe(b, a) ensures a == b { StrLeAntisymmetric(a, b); }
    forall a, b, c | StrLe(a, b) && StrLe(b, c) ensures StrLe(a, c) { StrLeTransitive(a, b, c); }
  }

  // ---------------------------------------------------------------- code units

  /** The UTF-16 code units of a character: itself, or a surrogate pair. */
  function UnitsOf(c: char): seq<int> {
    var n := c as int;
    if n < 0x10000 then [n] else [0xD800 + (n - 0x10000) / 0x400, 0xDC00 + (n - 0x10000) % 0x400]
  }

  function CodeUnits(s: string): seq<int> {
    if s == [] then [] else UnitsOf(s[0]) + CodeUnits(s[1..])
  }

  /** Alphabetical order of number sequences, the shorter first on a tie. */
  predicate UnitsLe(x: seq<int>, y: seq<int>) {
    x <= y || exists i :: 0 <= i < |x| && i < |y| && x[..i] == y[..i] && x[i] < y[i]
  }

  /** Texts are compared and measured by their code units. */
  lemma {:induction false} StrLeByUnits(a: string, b: string)
    ensures StrLe(a, b) <==> UnitsLe(CodeUnits(a), CodeUnits(b))
    ensures UnitLength(a) == |CodeUnits(a)|
    decreases |a| + |b|
  {
    hide UnitsLe;
    if a != [] { StrLeByUnits(a[1..], if b == [] then b else b[1..]); }
    if a == [] || b == [] {
      NoUnits(CodeUnits(a), CodeUnits(b));
    } else if a[0] == b[0] {
      SamePrefixUnits(UnitsOf(a[0]), CodeUnits(a[1..]), CodeUnits(b[1..]));
    } else {
      DifferentUnits(a[0], b[0], CodeUnits(a[1..]), CodeUnits(b[1..]));
    }
  }

  lemma NoUnits(x: seq<int>, y: seq<int>)
    ensures x == [] ==> UnitsLe(x, y)
    ensures x != [] && y == [] ==> !UnitsLe(x, y)
  {
  }

  lemma SamePrefixUnits(p: seq<int>, x: seq<int>, y: seq<int>)
    ensures UnitsLe(p + x, p + y) <==> UnitsLe(x, y)
  {
    var s, t := p + x, p + y;
    assert s[|p|..] == x && t[|p|..] == y;
    if x <= y { assert t[..|s|] == s; }
    if s <= t { assert t[..|s|] == s; assert forall k :: 0 <= k < |x| ==> x[k] == s[|p| + k] == t[|p| + k] == y[k]; }
    if i :| 0 <= i < |x| && i < |y| && x[..i] == y[..i] && x[i] < y[i] {
      assert s[..|p| + i] == p + x[..i] && t[..|p| + i] == p + y[..i];
      assert s[|p| + i] < t[|p| + i];
    }
    if i :| 0 <= i < |s| && i < |t| && s[..i] == t[..i] && s[i] < t[i] {
      assert i >= |p|;
      assert x[..i - |p|] == s[..i][|p|..] && y[..i - |p|] == t[..i][|p|..];
      assert x[i - |p|] < y[i - |p|];
    }
  }

  lemma DifferentUnits(c: char, d: char, x: seq<int>, y: seq<int>)
    requires c != d
    ensures UnitsLe(UnitsOf(c) + x, UnitsOf(d) + y) <==> UnitRank(c) < UnitRank(d)
  {
    var s, t := UnitsOf(c) + x, UnitsOf(d) + y;
    var k := if s[0] == t[0] then 1 else 0;
    assert UnitsOf(c)[0] == s[0] && UnitsOf(d)[0] == t[0];
    if k == 1 { assert s[1] == UnitsOf(c)[1] && t[1] == UnitsOf(d)[1]; }
    assert s[..k] == t[..k] && s[k] != t[k];
    if s[k] < t[k] { assert UnitsLe(s, t); }
    if UnitsLe(s, t) && !(s <= t) {
      var i :| 0 <= i < |s| && i < |t| && s[..i] == t[..i] && s[i] < t[i];
    }
  }

  /** The pieces with the separator between neighbours. */
  function Join(sep: string, parts: seq<string>): string {
    if parts == [] then ""
    else if |parts| == 1 then parts[0]
    else parts[0] + sep + Join(sep, parts[1..])
  }

  lemma JoinPair(sep: string, x: string, y: string)
    ensures Join(sep, [x, y]) == x + sep + y && Join(sep, [x]) == x
  {
    assert [x, y][1..] == [y];
  }

  function Repeat(c: char, n: nat): string {
    seq(n, _ => c)
  }

  /** Distinct texts with the same members are the same texts, counted. */
  lemma SameMembers(ks: seq<string>, ls: seq<string>)
    requires Distinct(ks) && Distinct(ls) && forall k :: k in ks <==> k in ls
    ensures multiset(ks) == multiset(ls)
  {
    forall k ensures multiset(ks)[k] == multiset(ls)[k] {
      OccursOnce(ks, k);
      OccursOnce(ls, k);
      assert (k in ks <==> k in multiset(ks)) && (k in ls <==> k in multiset(ls));
    }
  }
}
