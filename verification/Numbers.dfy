/** Finite numbers, identified by their shortest decimal, with their order and their text
    (Number::toString, section 6.1.6.1.20 of ECMA-262). */
module Numbers {
  import opened Sorting
  import opened Strings

  /** m * 10^e with no trailing zero in m, so that equal numbers are equal values. */
  datatype Decimal = Decimal(m: int, e: int) {
    predicate Normal() {
      if m == 0 then e == 0 else m % 10 != 0
    }
  }

  type Number = d: Decimal | d.Normal() witness Decimal(0, 0)

  function FromInt(n: int): Number {
    Normalize(n, 0)
  }

  function Normalize(m: int, e: int): (d: Number)
    decreases if m < 0 then -m else m
  {
    if m == 0 then Decimal(0, 0)
    else if m % 10 == 0 then Normalize(m / 10, e + 1)
    else Decimal(m, e)
  }

  // ---------------------------------------------------------------- order

  function Pow10(n: nat): (p: nat)
    ensures p >= 1
  {
    if n == 0 then 1 else 10 * Pow10(n - 1)
  }

  /** The number in units of 10^k. */
  function Scaled(n: Decimal, k: int): int
    requires k <= n.e
  {
    n.m * Pow10(n.e - k)
  }

  function Min(a: int, b: int): int { if a <= b then a else b }

  predicate NumLe(a: Number, b: Number) {
    var k := Min(a.e, b.e);
    Scaled(a, k) <= Scaled(b, k)
  }

  lemma {:induction false} ScaledLower(n: Decimal, k: int, j: int)
    requires j <= k <= n.e
    ensures Scaled(n, j) == Scaled(n, k) * Pow10(k - j)
    decreases k - j
  {
    if j < k {
      ScaledLower(n, k, j + 1);
      var p, q := Pow10(n.e - j - 1), Pow10(k - j - 1);
      assert Scaled(n, j) == n.m * (10 * p) == 10 * (n.m * p);
      assert 10 * (Scaled(n, k) * q) == Scaled(n, k) * (10 * q);
    }
  }

  /** Comparing in any common unit gives the same answer. */
  lemma NumLeAt(a: Number, b: Number, j: int)
    requires j <= a.e && j <= b.e
    ensures NumLe(a, b) <==> Scaled(a, j) <= Scaled(b, j)
  {
    var k := Min(a.e, b.e);
    ScaledLower(a, k, j);
    ScaledLower(b, k, j);
    ScaleKeepsOrder(Scaled(a, k), Scaled(b, k), Pow10(k - j));
  }

  lemma ScaleKeepsOrder(x: int, y: int, p: nat)
    requires p >= 1
    ensures x <= y <==> x * p <= y * p
  {
    if x <= y { assert x * p <= y * p; } else { assert (y + 1) * p <= x * p; }
  }

  lemma NumLeAntisymmetric(a: Number, b: Number)
    requires NumLe(a, b) && NumLe(b, a)
    ensures a == b
  {
    if a.e < b.e { ExponentsSeparate(a, b); }
    if b.e < a.e { ExponentsSeparate(b, a); }
    assert Pow10(0) == 1;
  }

  lemma ExponentsSeparate(a: Number, b: Number)
    requires a.e < b.e
    ensures Scaled(a, a.e) != Scaled(b, a.e)
  {
    assert Pow10(0) == 1;
    var q := b.m * Pow10(b.e - a.e - 1);
    assert Scaled(b, a.e) == 10 * q by {
      var p := Pow10(b.e - a.e - 1);
      assert b.m * (10 * p) == 10 * (b.m * p);
    }
    if a.m == 0 { assert b.m != 0; assert q != 0; } else { assert (10 * q) % 10 == 0; }
  }

  lemma {:induction false} NormalizeScaled(m: int, e: int)
    ensures var d := Normalize(m, e); d.e >= (if m == 0 then 0 else e) && (m != 0 ==> Scaled(d, e) == m) && (m == 0 ==> d.m == 0)
    decreases if m < 0 then -m else m
  {
    assert Pow10(0) == 1;
    if m != 0 && m % 10 == 0 {
      NormalizeScaled(m / 10, e + 1);
      var d := Normalize(m, e);
      ScaledLower(d, e + 1, e);
      assert Pow10(1) == 10;
    }
  }

  /** The order is that of the integers, in whatever common unit they are counted. */
  lemma NumLeIsIntegerOrder(a: int, b: int, e: int)
    ensures NumLe(Normalize(a, e), Normalize(b, e)) <==> a <= b
    ensures Normalize(a, e) == Normalize(b, e) <==> a == b
  {
    var x, y := Normalize(a, e), Normalize(b, e);
    NormalizeScaled(a, e);
    NormalizeScaled(b, e);
    var j := Min(e, 0);
    if a != 0 { ScaledLower(x, e, j); }
    if b != 0 { ScaledLower(y, e, j); }
    NumLeAt(x, y, j);
    ScaleKeepsOrder(a, b, Pow10(e - j));
    ScaleKeepsOrder(b, a, Pow10(e - j));
    assert a == 0 ==> Scaled(x, j) == 0 == a * Pow10(e - j);
    assert b == 0 ==> Scaled(y, j) == 0 == b * Pow10(e - j);
  }

  lemma NumLeIsTotalOrder()
    ensures TotalOrder(NumLe)
  {
    forall a: Number, b: Number | NumLe(a, b) && NumLe(b, a) ensures a == b { NumLeAntisymmetric(a, b); }
    forall a: Number, b: Number, c: Number | NumLe(a, b) && NumLe(b, c) ensures NumLe(a, c) {
      var j := Min(Min(a.e, b.e), c.e);
      NumLeAt(a, b, j);
      NumLeAt(b, c, j);
      NumLeAt(a, c, j);
    }
  }

  // ---------------------------------------------------------------- text

  function DigitChar(d: nat): char requires d < 10 { '0' + d as char }

  predicate IsDigit(c: char) { '0' <= c <= '9' }

  /** The decimal numeral of n, without leading zeros. */
  function Digits(n: nat): (s: string)
    ensures |s| >= 1
    ensures forall c :: c in s ==> IsDigit(c)
  {
    if n < 10 then [DigitChar(n)] else Digits(n / 10) + [DigitChar(n % 10)]
  }

  function SignedText(n: int): string {
    if n < 0 then "-" + Digits(-n) else "+" + Digits(n)
  }

  /** Text of a number: plain digits, digits with a point, or exponent form, by the
      position n of the decimal point relative to the k significant digits. */
  function NumText(x: Number): string {
    if x.m == 0 then "0"
    else if x.m < 0 then "-" + PositiveText(Decimal(-x.m, x.e))
    else PositiveText(x)
  }

  function PositiveText(x: Decimal): string
    requires x.m > 0
  {
    var s := Digits(x.m);
    var k := |s|;
    var n := k + x.e;
    if k <= n <= 21 then s + Repeat('0', x.e)
    else if 0 < n <= 21 then s[..n] + "." + s[n..]
    else if -6 < n <= 0 then "0." + Repeat('0', -n) + s
    else if k == 1 then s + "e" + SignedText(n - 1)
    else s[..1] + "." + s[1..] + "e" + SignedText(n - 1)
  }

  // A reader for those texts, used to show that the text determines the number.

  function ValueOf(s: string): int {
    if s == [] then 0 else 10 * ValueOf(s[..|s| - 1]) + (s[|s| - 1] as int - '0' as int)
  }

  function CutAt(s: string, c: char): (string, string) {
    if s == [] then ("", "")
    else if s[0] == c then ("", s[1..])
    else var (a, b) := CutAt(s[1..], c); ([s[0]] + a, b)
  }

  function ReadSigned(s: string): int {
    if s == [] then 0 else if s[0] == '-' then -ValueOf(s[1..]) else ValueOf(s[1..])
  }

  function ReadPositive(t: string): Number {
    var (mantissa, exponent) := CutAt(t, 'e');
    var (whole, fraction) := CutAt(mantissa, '.');
    Normalize(ValueOf(whole + fraction), ReadSigned(exponent) - |fraction|)
  }

  function Read(t: string): Decimal {
    if t != [] && t[0] == '-'
    then var d := ReadPositive(t[1..]); Decimal(-d.m, d.e)
    else ReadPositive(t)
  }

  lemma {:induction false} CutAtFirst(a: string, c: char, b: string)
    requires c !in a
    ensures CutAt(a + [c] + b, c) == (a, b)
  {
    if a == [] {
      assert ([] + [c] + b)[1..] == b;
    } else {
      CutAtFirst(a[1..], c, b);
      assert (a + [c] + b)[1..] == a[1..] + [c] + b;
      assert a == [a[0]] + a[1..];
    }
  }

  lemma {:induction false} CutAtNone(a: string, c: char)
    requires c !in a
    ensures CutAt(a, c) == (a, "")
  {
    if a != [] {
      CutAtNone(a[1..], c);
      assert a == [a[0]] + a[1..];
    }
  }

  lemma {:induction false} ValueOfDigits(n: nat)
    ensures ValueOf(Digits(n)) == n
  {
    if n >= 10 {
      ValueOfDigits(n / 10);
      var s := Digits(n);
      assert s[..|s| - 1] == Digits(n / 10);
    } else {
      assert Digits(n)[..0] == [];
    }
  }

  lemma {:induction false} ValueOfLeadingZeros(k: nat, s: string)
    ensures ValueOf(Repeat('0', k) + s) == ValueOf(s)
    decreases |s|, k
  {
    var z := Repeat('0', k);
    if s != [] {
      ValueOfLeadingZeros(k, s[..|s| - 1]);
      assert (z + s)[..|z + s| - 1] == z + s[..|s| - 1];
    } else if k > 0 {
      ValueOfLeadingZeros(k - 1, s);
      assert (z + s)[..|z + s| - 1] == Repeat('0', k - 1) + s;
    }
  }

  lemma {:induction false} ReadTrailingZeros(m: int, k: nat, s: string, e: int)
    requires m > 0 && m % 10 != 0 && ValueOf(s) == m
    ensures Normalize(ValueOf(s + Repeat('0', k)), e) == Decimal(m, e + k)
  {
    var t := s + Repeat('0', k);
    if k > 0 {
      ReadTrailingZeros(m, k - 1, s, e + 1);
      assert t[..|t| - 1] == s + Repeat('0', k - 1);
      assert t[|t| - 1] == '0';
      TrailingZerosPositive(s, k - 1);
      var v := ValueOf(s + Repeat('0', k - 1));
      assert ValueOf(t) == 10 * v && v > 0;
      assert (10 * v) % 10 == 0 && (10 * v) / 10 == v;
    } else {
      assert t == s;
    }
  }

  lemma {:induction false} TrailingZerosPositive(s: string, k: nat)
    requires ValueOf(s) > 0
    ensures ValueOf(s + Repeat('0', k)) > 0
  {
    var t := s + Repeat('0', k);
    if k > 0 {
      TrailingZerosPositive(s, k - 1);
      assert t[..|t| - 1] == s + Repeat('0', k - 1);
    } else {
      assert t == s;
    }
  }

  lemma ReadSignedText(n: int)
    ensures ReadSigned(SignedText(n)) == n
    ensures 'e' !in SignedText(n) && '.' !in SignedText(n)
  {
    ValueOfDigits(if n < 0 then -n else n);
    assert SignedText(n)[1..] == Digits(if n < 0 then -n else n);
  }

  /** The reader inverts the text: whole and fraction put the digits back together, and the
      exponent (or the zeros stripped) puts the point back. */
  lemma ReadPositiveText(x: Number)
    requires x.m > 0
    ensures ReadPositive(PositiveText(x)) == x
  {
    var k := |Digits(x.m)|;
    var n := k + x.e;
    if k <= n <= 21 {
      ReadWhole(x, k);
    } else if 0 < n <= 21 {
      ReadInnerPoint(x, n);
    } else if -6 < n <= 0 {
      ReadLeadingPoint(x, -n);
    } else if k == 1 {
      ReadShortExponent(x);
    } else {
      ReadSplitExponent(x, n - 1);
    }
  }

  lemma ReadWhole(x: Number, k: nat)
    requires x.m > 0 && k == |Digits(x.m)| && 0 <= x.e <= 21 - k
    ensures ReadPositive(PositiveText(x)) == x
  {
    var s := Digits(x.m);
    var t := s + Repeat('0', x.e);
    ValueOfDigits(x.m);
    CutAtNone(t, 'e');
    CutAtNone(t, '.');
    assert t + "" == t;
    ReadTrailingZeros(x.m, x.e, s, 0);
  }

  lemma ReadInnerPoint(x: Number, n: nat)
    requires x.m > 0 && 0 < n == |Digits(x.m)| + x.e < |Digits(x.m)| && n <= 21
    ensures ReadPositive(PositiveText(x)) == x
  {
    var s := Digits(x.m);
    ValueOfDigits(x.m);
    assert s[..n] + s[n..] == s;
    PointText(x, s[..n], s[n..]);
  }

  lemma ReadLeadingPoint(x: Number, k: nat)
    requires x.m > 0 && |Digits(x.m)| + x.e + k == 0 && k < 6
    ensures ReadPositive(PositiveText(x)) == x
  {
    var s := Digits(x.m);
    var z := Repeat('0', k);
    ValueOfDigits(x.m);
    ValueOfLeadingZeros(k + 1, s);
    assert "0" + (z + s) == Repeat('0', k + 1) + s;
    PointText(x, "0", z + s);
    assert "0." + z + s == "0" + "." + (z + s);
  }

  lemma ReadShortExponent(x: Number)
    requires x.m > 0 && |Digits(x.m)| == 1 && !(-7 < x.e <= 20)
    ensures ReadPositive(PositiveText(x)) == x
  {
    var s := Digits(x.m);
    assert s + "" == s;
    ExponentText(x, s, "", x.e, s);
  }

  lemma ReadSplitExponent(x: Number, exp: int)
    requires x.m > 0 && exp == |Digits(x.m)| + x.e - 1 && |Digits(x.m)| > 1 && !(-7 < exp <= 20)
    ensures ReadPositive(PositiveText(x)) == x
  {
    var s := Digits(x.m);
    assert s[..1] + s[1..] == s;
    ExponentText(x, s[..1], s[1..], exp, s[..1] + "." + s[1..]);
  }

  lemma PointText(x: Number, whole: string, fraction: string)
    requires x.m > 0 && |whole| >= 1
    requires forall c :: c in whole || c in fraction ==> IsDigit(c)
    requires ValueOf(whole + fraction) == x.m
    requires |fraction| == -x.e
    ensures ReadPositive(whole + "." + fraction) == x
  {
    var t := whole + "." + fraction;
    CutAtNone(t, 'e');
    CutAtFirst(whole, '.', fraction);
  }

  lemma ExponentText(x: Number, whole: string, fraction: string, exp: int, mantissa: string)
    requires x.m > 0 && |whole| >= 1
    requires forall c :: c in whole || c in fraction ==> IsDigit(c)
    requires whole + fraction == Digits(x.m)
    requires mantissa == if fraction == "" then whole else whole + "." + fraction
    requires exp - |fraction| == x.e
    ensures ReadPositive(mantissa + "e" + SignedText(exp)) == x
  {
    ValueOfDigits(x.m);
    ReadSignedText(exp);
    CutAtFirst(mantissa, 'e', SignedText(exp));
    if fraction == "" { CutAtNone(whole, '.'); } else { CutAtFirst(whole, '.', fraction); }
  }

  lemma NumTextReads(x: Number)
    ensures Read(NumText(x)) == x
  {
    if x.m == 0 {
      CutAtNone("0", 'e');
      CutAtNone("0", '.');
      assert "0" + "" == "0" && "0"[..0] == [];
      assert ValueOf("0") == 0;
    } else if x.m < 0 {
      var p: Number := Decimal(-x.m, x.e);
      ReadPositiveText(p);
      assert NumText(x)[1..] == PositiveText(p);
    } else {
      ReadPositiveText(x);
      PositiveTextChars(x);
    }
  }

  /** Distinct numbers have distinct texts. */
  lemma NumTextInjective(x: Number, y: Number)
    requires NumText(x) == NumText(y)
    ensures x == y
  {
    NumTextReads(x);
    NumTextReads(y);
  }

  /** A number's text is non-empty and uses only these characters. */
  predicate NumeralChar(c: char) { IsDigit(c) || c == '-' || c == '+' || c == '.' || c == 'e' }

  lemma NumTextChars(x: Number)
    ensures NumText(x) != []
    ensures NumText(x)[0] == '-' || IsDigit(NumText(x)[0])
    ensures forall c :: c in NumText(x) ==> NumeralChar(c)
  {
    if x.m < 0 {
      PositiveTextChars(Decimal(-x.m, x.e));
    } else if x.m > 0 {
      PositiveTextChars(x);
    }
  }

  lemma PositiveTextChars(x: Decimal)
    requires x.m > 0
    ensures PositiveText(x) != [] && IsDigit(PositiveText(x)[0])
    ensures forall c :: c in PositiveText(x) ==> NumeralChar(c)
  {
    var s := Digits(x.m);
    var n := |s| + x.e;
    forall c | c in SignedText(n - 1) ensures NumeralChar(c) {}
    assert IsDigit(s[0]);
  }
}
