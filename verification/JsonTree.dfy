/** Values as the runtime holds them, their JSON text, and the key-sorted text used for signing. */
module JsonTree {
  import opened Sorting
  import opened Strings
  import opened Numbers

  /** An object keeps its fields in insertion order; `Undefined` is also what reading an absent field gives. */
  datatype Json =
    | Undefined
    | Null
    | Bool(b: bool)
    | NaN
    | Infinity(negative: bool)
    | Num(n: Number)
    | Str(s: string)
    | Arr(items: seq<Json>)
    | Obj(fields: seq<Field>)

  datatype Field = Field(key: string, val: Json)

  function Keys(fs: seq<Field>): (ks: seq<string>)
    ensures |ks| == |fs| && forall i :: 0 <= i < |fs| ==> ks[i] == fs[i].key
  {
    seq(|fs|, i requires 0 <= i < |fs| => fs[i].key)
  }

  function Find(fs: seq<Field>, k: string): (v: Json)
    ensures k in Keys(fs) ==> exists i :: 0 <= i < |fs| && fs[i].key == k && fs[i].val == v
    ensures k !in Keys(fs) ==> v == Undefined
  {
    if fs == [] then Undefined
    else if fs[0].key == k then fs[0].val
    else
      var v := Find(fs[1..], k);
      assert k in Keys(fs) ==> k in Keys(fs[1..]) by {
        if k in Keys(fs) { var i :| 0 <= i < |fs| && Keys(fs)[i] == k; assert fs[1..][i - 1] == fs[i]; assert Keys(fs[1..])[i - 1] == k; }
      }
      assert k !in Keys(fs) ==> k !in Keys(fs[1..]) by {
        if k in Keys(fs[1..]) { var i :| 0 <= i < |fs[1..]| && Keys(fs[1..])[i] == k; assert Keys(fs)[i + 1] == k; }
      }
      v
  }

  /** Property read; every value that is not an object answers `Undefined`. */
  function Get(v: Json, k: string): Json {
    if v.Obj? then Find(v.fields, k) else Undefined
  }

  lemma {:induction false} FindAt(fs: seq<Field>, i: nat)
    requires i < |fs| && Distinct(Keys(fs))
    ensures Find(fs, fs[i].key) == fs[i].val
  {
    hide Find;
    assert fs[i].key == Keys(fs)[i];
    var j :| 0 <= j < |fs| && fs[j].key == fs[i].key && fs[j].val == Find(fs, fs[i].key);
    assert Keys(fs)[j] == Keys(fs)[i];
  }

  /** obj[k] = v: an existing field keeps its place, a new one goes last. */
  function SetField(fs: seq<Field>, k: string, v: Json): seq<Field> {
    if fs == [] then [Field(k, v)]
    else if fs[0].key == k then [Field(k, v)] + fs[1..]
    else [fs[0]] + SetField(fs[1..], k, v)
  }

  lemma KeysCons(f: Field, fs: seq<Field>)
    ensures Keys([f] + fs) == [f.key] + Keys(fs)
  {
  }

  lemma {:induction false} SetFieldKeys(fs: seq<Field>, k: string, v: Json)
    ensures Keys(SetField(fs, k, v)) == if k in Keys(fs) then Keys(fs) else Keys(fs) + [k]
  {
    if fs != [] {
      KeysCons(fs[0], fs[1..]);
      assert fs == [fs[0]] + fs[1..];
      if fs[0].key == k {
        KeysCons(Field(k, v), fs[1..]);
      } else {
        SetFieldKeys(fs[1..], k, v);
        KeysCons(fs[0], SetField(fs[1..], k, v));
      }
    }
  }

  lemma {:induction false} SetFieldFind(fs: seq<Field>, k: string, v: Json, j: string)
    ensures Find(SetField(fs, k, v), j) == if j == k then v else Find(fs, j)
  {
    if fs != [] {
      if fs[0].key == k {
        assert ([Field(k, v)] + fs[1..])[1..] == fs[1..];
      } else {
        SetFieldFind(fs[1..], k, v, j);
        assert ([fs[0]] + SetField(fs[1..], k, v))[1..] == SetField(fs[1..], k, v);
      }
    }
  }

  lemma {:induction false} SetFieldNew(fs: seq<Field>, k: string, v: Json)
    requires k !in Keys(fs)
    ensures SetField(fs, k, v) == fs + [Field(k, v)]
  {
    if fs != [] {
      KeysCons(fs[0], fs[1..]);
      assert fs == [fs[0]] + fs[1..];
      assert Keys(fs)[0] == fs[0].key;
      SetFieldNew(fs[1..], k, v);
    }
  }

  lemma {:induction false} SetFieldMembers(fs: seq<Field>, k: string, v: Json)
    ensures forall f :: f in SetField(fs, k, v) ==> f in fs || f == Field(k, v)
  {
    if fs != [] && fs[0].key != k { SetFieldMembers(fs[1..], k, v); }
  }

  /** Every object in the tree has distinct keys, as runtime objects do. */
  ghost predicate WellFormed(v: Json) {
    match v
    case Arr(items) => forall i :: 0 <= i < |items| ==> WellFormed(items[i])
    case Obj(fs) => Distinct(Keys(fs)) && forall i :: 0 <= i < |fs| ==> WellFormed(fs[i].val)
    case _ => true
  }

  lemma SetFieldWellFormed(fs: seq<Field>, k: string, v: Json)
    requires WellFormed(Obj(fs)) && WellFormed(v)
    ensures WellFormed(Obj(SetField(fs, k, v)))
  {
    SetFieldKeys(fs, k, v);
    SetFieldMembers(fs, k, v);
    var r := SetField(fs, k, v);
    forall i | 0 <= i < |r| ensures WellFormed(r[i].val) { assert r[i] in r; }
  }

  /** typeof v === "object" and v is not null. */
  predicate IsObject(v: Json) { v.Arr? || v.Obj? }

  // ---------------------------------------------------------------- string literals (section 7 of RFC 8259)

  function Hex(d: int): char
    requires 0 <= d < 16
  {
    if d < 10 then '0' + d as char else 'a' + (d - 10) as char
  }

  function EscapeChar(c: char): string {
    if c == '\"' then "\\\""
    else if c == '\\' then "\\\\"
    else if c == '\U{8}' then "\\b"
    else if c == '\U{9}' then "\\t"
    else if c == '\U{A}' then "\\n"
    else if c == '\U{C}' then "\\f"
    else if c == '\U{D}' then "\\r"
    else if c < ' ' then "\\u00" + [Hex(c as int / 16), Hex(c as int % 16)]
    else [c]
  }

  function Escape(s: string): string {
    if s == [] then "" else EscapeChar(s[0]) + Escape(s[1..])
  }

  function Quote(s: string): string { "\"" + Escape(s) + "\"" }

  lemma EscapeCharPrefixFree(c: char, d: char, x: string, y: string)
    requires EscapeChar(c) + x == EscapeChar(d) + y
    ensures c == d && x == y
  {
    var s, t := EscapeChar(c) + x, EscapeChar(d) + y;
    assert s[0] == t[0];
    if s[0] == '\\' {
      assert s[1] == t[1];
      if c < ' ' && |EscapeChar(c)| == 6 {
        assert s[4] == t[4] && s[5] == t[5];
        assert Hex(c as int / 16) == Hex(d as int / 16) && Hex(c as int % 16) == Hex(d as int % 16);
      }
    }
    assert s[|EscapeChar(c)|..] == x && t[|EscapeChar(d)|..] == y;
  }

  lemma {:induction false} QuotedTailUnique(s: string, t: string, x: string, y: string)
    requires Escape(s) + ("\"" + x) == Escape(t) + ("\"" + y)
    ensures s == t && x == y
  {
    if s == [] || t == [] {
      QuotedTailEmpty(s, t, x, y);
    } else {
      var a', b' := Escape(s[1..]) + ("\"" + x), Escape(t[1..]) + ("\"" + y);
      EscapeStep(s, x);
      EscapeStep(t, y);
      EscapeCharPrefixFree(s[0], t[0], a', b');
      QuotedTailUnique(s[1..], t[1..], x, y);
      assert s == [s[0]] + s[1..] && t == [t[0]] + t[1..];
    }
  }

  lemma EscapeStep(s: string, x: string)
    requires s != []
    ensures Escape(s) + ("\"" + x) == EscapeChar(s[0]) + (Escape(s[1..]) + ("\"" + x))
  {
  }

  lemma QuotedTailEmpty(s: string, t: string, x: string, y: string)
    requires Escape(s) + ("\"" + x) == Escape(t) + ("\"" + y)
    requires s == [] || t == []
    ensures s == t && x == y
  {
    var a, b := Escape(s) + ("\"" + x), Escape(t) + ("\"" + y);
    assert a[0] == b[0];
    assert a == "\"" + x && b == "\"" + y;
    TailAfter("\"", x, y);
  }

  /** A string literal is self-delimiting and determines its string. */
  lemma QuoteUnique(s: string, t: string, x: string, y: string)
    requires Quote(s) + x == Quote(t) + y
    ensures s == t && x == y
  {
    hide Escape;
    var a, b := Escape(s) + ("\"" + x), Escape(t) + ("\"" + y);
    assert Quote(s) + x == "\"" + a && Quote(t) + y == "\"" + b;
    TailAfter("\"", a, b);
    QuotedTailUnique(s, t, x, y);
  }

  // ---------------------------------------------------------------- key-sorted text

  function ScalarText(v: Json): string
    requires !IsObject(v)
  {
    match v
    case Bool(b) => if b then "true" else "false"
    case Num(n) => NumText(n)
    case Str(s) => Quote(s)
    case _ => "null"
  }

  /** Recursively key-sorted JSON: what is absent, null or not finite prints as null. */
  function Stable(v: Json): string
    decreases v, 0
  {
    match v
    case Arr(items) => "[" + StableItems(items) + "]"
    case Obj(fs) =>
      var ks := Sort(StrLe, Keys(fs));
      assert forall k :: k in ks ==> k in Keys(fs) by { SortPermutes(StrLe, Keys(fs)); }
      "{" + StableFields(fs, ks) + "}"
    case _ => ScalarText(v)
  }

  function StableItems(items: seq<Json>): string
    decreases items, 0
  {
    if items == [] then ""
    else if |items| == 1 then Stable(items[0])
    else Stable(items[0]) + "," + StableItems(items[1..])
  }

  function StableEntry(fs: seq<Field>, k: string): string
    requires k in Keys(fs)
    decreases fs, 0
  {
    Quote(k) + ":" + Stable(Find(fs, k))
  }

  function StableFields(fs: seq<Field>, ks: seq<string>): string
    requires forall k :: k in ks ==> k in Keys(fs)
    decreases fs, 1, |ks|
  {
    if ks == [] then ""
    else if |ks| == 1 then StableEntry(fs, ks[0])
    else StableEntry(fs, ks[0]) + "," + StableFields(fs, ks[1..])
  }

  /** Values the key-sorted text cannot tell from null. */
  predicate Nullish(v: Json) { v.Undefined? || v.Null? || v.NaN? || v.Infinity? }

  /** Equal up to the order of object keys at every depth, and up to which null-like value is meant. */
  ghost predicate Same(a: Json, b: Json)
    decreases a
  {
    if Nullish(a) || Nullish(b) then Nullish(a) && Nullish(b)
    else match (a, b)
      case (Arr(xs), Arr(ys)) => |xs| == |ys| && forall i :: 0 <= i < |xs| ==> Same(xs[i], ys[i])
      case (Obj(fs), Obj(gs)) =>
        && (forall k :: k in Keys(fs) <==> k in Keys(gs))
        && forall k :: k in Keys(fs) ==> Same(Find(fs, k), Find(gs, k))
      case _ => a == b
  }

  // ---------------------------------------------------------------- the text determines the value

  /** What may follow a value inside a text. */
  predicate Ends(r: string) { r == [] || r[0] == ',' || r[0] == ']' || r[0] == '}' }

  function Kind(v: Json): int {
    if Nullish(v) then 0
    else match v
      case Bool(_) => 1
      case Num(_) => 2
      case Str(_) => 3
      case Arr(_) => 4
      case _ => 5
  }

  function KindOf(c: char): int {
    if c == 'n' then 0
    else if c == 't' || c == 'f' then 1
    else if c == '\"' then 3
    else if c == '[' then 4
    else if c == '{' then 5
    else 2
  }

  lemma LeadTellsKind(v: Json)
    ensures Stable(v) != "" && KindOf(Stable(v)[0]) == Kind(v)
    ensures Stable(v)[0] != ']' && Stable(v)[0] != ','
  {
    if v.Num? { NumTextChars(v.n); }
  }

  lemma {:induction false} NumeralTail(a: string, b: string, r: string, q: string)
    requires a + r == b + q && Ends(r) && Ends(q)
    requires forall c :: c in a || c in b ==> NumeralChar(c)
    ensures a == b && r == q
  {
    NumeralNotLonger(a, b, r, q);
    NumeralNotLonger(b, a, q, r);
    assert a == (a + r)[..|a|] && b == (b + q)[..|b|];
    assert r == (a + r)[|a|..] && q == (b + q)[|b|..];
  }

  lemma NumeralNotLonger(a: string, b: string, r: string, q: string)
    requires a + r == b + q
    requires forall c :: c in b ==> NumeralChar(c)
    ensures |a| < |b| ==> r != [] && NumeralChar(r[0])
  {
    if |a| < |b| { assert r[0] == (a + r)[|a|] == (b + q)[|a|] == b[|a|]; }
  }

  lemma TailAfter(p: string, r: string, q: string)
    requires p + r == p + q
    ensures r == q
  {
    assert (p + r)[|p|..] == r && (p + q)[|p|..] == q;
  }

  lemma ScalarTextUnique(a: Json, b: Json, r: string, q: string)
    requires !IsObject(a) && !IsObject(b) && Kind(a) == Kind(b)
    requires ScalarText(a) + r == ScalarText(b) + q && Ends(r) && Ends(q)
    ensures Same(a, b) && r == q
  {
    if Nullish(a) {
      TailAfter("null", r, q);
    } else if a.Bool? {
      assert (ScalarText(a) + r)[0] == (ScalarText(b) + q)[0];
      TailAfter(ScalarText(a), r, q);
    } else if a.Num? {
      NumTextChars(a.n);
      NumTextChars(b.n);
      NumeralTail(NumText(a.n), NumText(b.n), r, q);
      NumTextInjective(a.n, b.n);
    } else {
      QuoteUnique(a.s, b.s, r, q);
    }
  }

  /** Unique readability: the key-sorted text is self-delimiting and determines the value up to `Same`. */
  lemma {:induction false} StableUnique(a: Json, b: Json, r: string, q: string)
    requires WellFormed(a) && WellFormed(b)
    requires Stable(a) + r == Stable(b) + q && Ends(r) && Ends(q)
    ensures Same(a, b) && r == q
    decreases a, 1
  {
    LeadTellsKind(a);
    LeadTellsKind(b);
    assert (Stable(a) + r)[0] == (Stable(b) + q)[0];
    if a.Arr? {
      ArrayTail(a, r);
      ArrayTail(b, q);
      ItemsUnique(a.items, b.items, r, q);
    } else if a.Obj? {
      SortPermutes(StrLe, Keys(a.fields));
      SortPermutes(StrLe, Keys(b.fields));
      var ks, ls := Sort(StrLe, Keys(a.fields)), Sort(StrLe, Keys(b.fields));
      ObjectTail(a, ks, r);
      ObjectTail(b, ls, q);
      FieldsUnique(a.fields, b.fields, ks, ls, r, q);
    } else {
      ScalarTextUnique(a, b, r, q);
    }
  }

  lemma ArrayTail(v: Json, r: string)
    requires v.Arr?
    ensures (Stable(v) + r)[1..] == StableItems(v.items) + ("]" + r)
  {
  }

  lemma ObjectTail(v: Json, ks: seq<string>, r: string)
    requires v.Obj? && ks == Sort(StrLe, Keys(v.fields)) && forall k :: k in ks ==> k in Keys(v.fields)
    ensures (Stable(v) + r)[1..] == StableFields(v.fields, ks) + ("}" + r)
  {
    hide StableFields, Sort;
    var inner := StableFields(v.fields, ks);
    assert Stable(v) == "{" + inner + "}";
    assert Stable(v) + r == "{" + (inner + ("}" + r));
  }

  lemma {:induction false} ItemsUnique(xs: seq<Json>, ys: seq<Json>, r: string, q: string)
    requires forall i :: 0 <= i < |xs| ==> WellFormed(xs[i])
    requires forall i :: 0 <= i < |ys| ==> WellFormed(ys[i])
    requires StableItems(xs) + ("]" + r) == StableItems(ys) + ("]" + q)
    ensures |xs| == |ys| && (forall i :: 0 <= i < |xs| ==> Same(xs[i], ys[i])) && r == q
    decreases xs, 0
  {
    var x, y := StableItems(xs) + ("]" + r), StableItems(ys) + ("]" + q);
    if xs != [] { LeadTellsKind(xs[0]); }
    if ys != [] { LeadTellsKind(ys[0]); }
    if xs == [] || ys == [] {
      assert x[0] == y[0];
      assert xs == [] ==> x == "]" + r;
      assert ys == [] ==> y == "]" + q;
      assert x[1..] == y[1..];
    } else {
      var r' := ItemsRest(xs, "]" + r);
      var q' := ItemsRest(ys, "]" + q);
      StableUnique(xs[0], ys[0], r', q');
      assert r'[0] == q'[0];
      if |xs| > 1 {
        assert r'[1..] == q'[1..];
        ItemsUnique(xs[1..], ys[1..], r, q);
        assert xs == [xs[0]] + xs[1..] && ys == [ys[0]] + ys[1..];
      } else {
        assert r'[1..] == r && q'[1..] == q;
      }
    }
  }

  /** What follows the first item. */
  lemma ItemsRest(xs: seq<Json>, z: string) returns (rest: string)
    requires xs != [] && z != "" && z[0] == ']'
    ensures StableItems(xs) + z == Stable(xs[0]) + rest && Ends(rest) && rest != ""
    ensures if |xs| == 1 then rest == z else rest == "," + (StableItems(xs[1..]) + z)
  {
    rest := if |xs| == 1 then z else "," + (StableItems(xs[1..]) + z);
  }

  lemma {:induction false} FieldsUnique(fs: seq<Field>, gs: seq<Field>, ks: seq<string>, ls: seq<string>, r: string, q: string)
    requires WellFormed(Obj(fs)) && WellFormed(Obj(gs))
    requires (forall k :: k in ks ==> k in Keys(fs)) && (forall k :: k in ls ==> k in Keys(gs))
    requires StableFields(fs, ks) + ("}" + r) == StableFields(gs, ls) + ("}" + q)
    ensures ks == ls && (forall k :: k in ks ==> Same(Find(fs, k), Find(gs, k))) && r == q
    decreases fs, 0, |ks|
  {
    hide Stable, StableFields, Quote, Find, WellFormed, Same;
    FieldsLead(fs, ks, r);
    FieldsLead(gs, ls, q);
    if ks == [] || ls == [] {
      TailAfter("}", r, q);
    } else {
      var r' := FieldsRest(fs, ks, "}" + r);
      var q' := FieldsRest(gs, ls, "}" + q);
      var v := FieldValue(fs, ks[0]);
      var w := FieldValue(gs, ls[0]);
      QuoteUnique(ks[0], ls[0], ":" + (Stable(v) + r'), ":" + (Stable(w) + q'));
      TailAfter(":", Stable(v) + r', Stable(w) + q');
      StableUnique(v, w, r', q');
      assert r'[0] == q'[0];
      if |ks| > 1 {
        TailAfter(",", StableFields(fs, ks[1..]) + ("}" + r), StableFields(gs, ls[1..]) + ("}" + q));
        FieldsUnique(fs, gs, ks[1..], ls[1..], r, q);
        assert ks == [ks[0]] + ks[1..] && ls == [ls[0]] + ls[1..];
      } else {
        TailAfter("}", r, q);
      }
    }
  }

  lemma FieldsLead(fs: seq<Field>, ks: seq<string>, r: string)
    requires forall k :: k in ks ==> k in Keys(fs)
    ensures (StableFields(fs, ks) + ("}" + r))[0] == if ks == [] then '}' else '"'
    ensures ks == [] ==> StableFields(fs, ks) + ("}" + r) == "}" + r
  {
    hide Stable, Find, Keys;
  }

  lemma FieldValue(fs: seq<Field>, k: string) returns (v: Json)
    requires WellFormed(Obj(fs)) && k in Keys(fs)
    ensures v == Find(fs, k) && WellFormed(v) && v < Obj(fs)
  {
    hide Find;
    v := Find(fs, k);
  }

  /** What follows the first value of the object text. */
  lemma FieldsRest(fs: seq<Field>, ks: seq<string>, z: string) returns (rest: string)
    requires ks != [] && z != "" && z[0] == '}' && forall k :: k in ks ==> k in Keys(fs)
    ensures StableFields(fs, ks) + z == Quote(ks[0]) + (":" + (Stable(Find(fs, ks[0])) + rest)) && Ends(rest) && rest != ""
    ensures if |ks| == 1 then rest == z else rest == "," + (StableFields(fs, ks[1..]) + z)
  {
    hide Quote, Stable, Find;
    rest := if |ks| == 1 then z else "," + (StableFields(fs, ks[1..]) + z);
    var value := Stable(Find(fs, ks[0]));
    assert StableEntry(fs, ks[0]) + rest == Quote(ks[0]) + (":" + (value + rest));
  }

  // ---------------------------------------------------------------- and the value determines the text

  lemma {:induction false} SameText(a: Json, b: Json)
    requires WellFormed(a) && WellFormed(b) && Same(a, b)
    ensures Stable(a) == Stable(b)
    decreases a, 1
  {
    if a.Arr? {
      SameItemsText(a.items, b.items);
    } else if a.Obj? {
      SameKeysSort(Keys(a.fields), Keys(b.fields));
      SortPermutes(StrLe, Keys(a.fields));
      SortPermutes(StrLe, Keys(b.fields));
      SameFieldsText(a.fields, b.fields, Sort(StrLe, Keys(a.fields)));
    }
  }

  lemma {:induction false} SameItemsText(xs: seq<Json>, ys: seq<Json>)
    requires |xs| == |ys| && forall i :: 0 <= i < |xs| ==> WellFormed(xs[i]) && WellFormed(ys[i]) && Same(xs[i], ys[i])
    ensures StableItems(xs) == StableItems(ys)
    decreases xs, 0
  {
    if xs != [] {
      SameText(xs[0], ys[0]);
      SameItemsText(xs[1..], ys[1..]);
    }
  }

  lemma {:induction false} SameFieldsText(fs: seq<Field>, gs: seq<Field>, ks: seq<string>)
    requires WellFormed(Obj(fs)) && WellFormed(Obj(gs)) && Same(Obj(fs), Obj(gs))
    requires forall k :: k in ks ==> k in Keys(fs) && k in Keys(gs)
    ensures StableFields(fs, ks) == StableFields(gs, ks)
    decreases fs, 0, |ks|
  {
    if ks != [] {
      SameText(Find(fs, ks[0]), Find(gs, ks[0]));
      SameFieldsText(fs, gs, ks[1..]);
    }
  }

  /** Distinct keys with the same members sort to the same list. */
  lemma SameKeysSort(ks: seq<string>, ls: seq<string>)
    requires Distinct(ks) && Distinct(ls) && forall k :: k in ks <==> k in ls
    ensures Sort(StrLe, ks) == Sort(StrLe, ls)
  {
    StrLeIsTotalOrder();
    SameMembers(ks, ls);
    SortForgetsOrder(StrLe, ks, ls);
  }

  /** Two values have the same key-sorted text exactly when they are the same up to the order of
      object keys, at every depth, and up to which null-like value stands in a place. */
  lemma StableKernel(a: Json, b: Json)
    requires WellFormed(a) && WellFormed(b)
    ensures Stable(a) == Stable(b) <==> Same(a, b)
  {
    if Stable(a) == Stable(b) {
      assert Stable(a) + "" == Stable(b) + "";
      StableUnique(a, b, "", "");
    } else if Same(a, b) {
      SameText(a, b);
    }
  }

  // ---------------------------------------------------------------- plain JSON text

  /** JSON.stringify of a value that is present: fields holding `Undefined` are left out. */
  function PlainText(v: Json): string
    decreases v, 0
  {
    match v
    case Arr(items) => "[" + PlainItems(items) + "]"
    case Obj(fs) => "{" + PlainFields(fs) + "}"
    case _ => ScalarText(v)
  }

  function PlainItems(items: seq<Json>): string
    decreases items, 0
  {
    if items == [] then ""
    else if |items| == 1 then PlainText(items[0])
    else PlainText(items[0]) + "," + PlainItems(items[1..])
  }

  function PlainFields(fs: seq<Field>): string
    decreases fs, 0
  {
    if fs == [] then ""
    else
      var rest := PlainFields(fs[1..]);
      if fs[0].val == Undefined then rest
      else
        var entry := Quote(fs[0].key) + ":" + PlainText(fs[0].val);
        if rest == "" then entry else entry + "," + rest
  }

  ghost predicate FlatFields(fs: seq<Field>) {
    forall i :: 0 <= i < |fs| ==> !IsObject(fs[i].val) && fs[i].val != Undefined
  }

  /** On a flat object whose keys already stand in order the two texts coincide. */
  lemma PlainIsStable(fs: seq<Field>)
    requires FlatFields(fs) && Distinct(Keys(fs)) && Sorted(StrLe, Keys(fs))
    ensures PlainText(Obj(fs)) == Stable(Obj(fs))
  {
    StrLeIsTotalOrder();
    SortedIsFixed(StrLe, Keys(fs));
    PlainFieldsStable(fs, 0);
    assert fs[0..] == fs && Keys(fs)[0..] == Keys(fs);
  }

  lemma {:induction false} PlainFieldsStable(fs: seq<Field>, i: nat)
    requires i <= |fs| && FlatFields(fs) && Distinct(Keys(fs))
    ensures PlainFields(fs[i..]) == StableFields(fs, Keys(fs)[i..])
    ensures i < |fs| ==> PlainFields(fs[i..]) != ""
    decreases |fs| - i
  {
    var ks := Keys(fs)[i..];
    if i < |fs| {
      PlainFieldsStable(fs, i + 1);
      FindAt(fs, i);
      assert fs[i..][1..] == fs[i + 1..] && ks[1..] == Keys(fs)[i + 1..];
      assert ks[0] == fs[i].key && fs[i..][0] == fs[i];
      assert PlainText(fs[i].val) == Stable(fs[i].val);
      if i + 1 == |fs| { assert ks == [fs[i].key] && fs[i + 1..] == []; }
    }
  }

  // ---------------------------------------------------------------- String(v)

  /** Whether v converts to text at all: an object that owns a key `toString` hides the inherited method
      with something that cannot be called, and converting it raises an exception. */
  predicate HasText(v: Json) {
    match v
    case Arr(items) => forall i :: 0 <= i < |items| ==> HasText(items[i])
    case Obj(fs) => "toString" !in Keys(fs)
    case _ => true
  }

  /** String(v) of a value that has a text, also used when v names a property. */
  function ToText(v: Json): string
    decreases v, 0
  {
    match v
    case Undefined => "undefined"
    case Null => "null"
    case Bool(b) => if b then "true" else "false"
    case NaN => "NaN"
    case Infinity(negative) => if negative then "-Infinity" else "Infinity"
    case Num(n) => NumText(n)
    case Str(s) => s
    case Arr(items) => ItemsToText(items)
    case Obj(_) => "[object Object]"
  }

  function ItemsToText(items: seq<Json>): string
    decreases items, 0
  {
    if items == [] then ""
    else
      var first := if items[0] == Undefined || items[0] == Null then "" else ToText(items[0]);
      if |items| == 1 then first else first + "," + ItemsToText(items[1..])
  }
}
