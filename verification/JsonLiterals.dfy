/** What the texts of values look like: a reader for string literals, and the forms of arrays, objects and numbers. */
module JsonLiterals {
  import opened Optional
  import opened Sorting
  import opened Strings
  import opened Numbers
  import opened JsonTree

  // ---------------------------------------------------------------- a reader for string literals (section 7 of RFC 8259)

  function HexValue(c: char): Option<int> {
    if '0' <= c <= '9' then Some(c as int - '0' as int)
    else if 'a' <= c <= 'f' then Some(c as int - 'a' as int + 10)
    else if 'A' <= c <= 'F' then Some(c as int - 'A' as int + 10)
    else None
  }

  /** The character of a four-digit escape that names no half of a surrogate pair. */
  function UnicodeEscape(h: string): Option<char>
    requires |h| == 4
  {
    match (HexValue(h[0]), HexValue(h[1]), HexValue(h[2]), HexValue(h[3]))
    case (Some(a), Some(b), Some(c), Some(d)) =>
      var n := ((a * 16 + b) * 16 + c) * 16 + d;
      if 0 <= n < 0xD800 then Some(n as char) else None
    case _ => None
  }

  function ShortEscape(c: char): Option<char> {
    if c == '\"' || c == '\\' || c == '/' then Some(c)
    else if c == 'b' then Some('\U{8}')
    else if c == 'f' then Some('\U{C}')
    else if c == 'n' then Some('\U{A}')
    else if c == 'r' then Some('\U{D}')
    else if c == 't' then Some('\U{9}')
    else None
  }

  function Cons(c: Option<char>, r: Option<(string, string)>): Option<(string, string)> {
    if c.Some? && r.Some? then Some(([c.value] + r.value.0, r.value.1)) else None
  }

  /** Reads behind an opening quote: the string and what follows the closing quote. */
  function ReadChars(t: string): Option<(string, string)>
    decreases |t|
  {
    if t == [] || t[0] < ' ' then None
    else if t[0] == '\"' then Some(("", t[1..]))
    else if t[0] != '\\' then Cons(Some(t[0]), ReadChars(t[1..]))
    else if |t| >= 6 && t[1] == 'u' then Cons(UnicodeEscape(t[2..6]), ReadChars(t[6..]))
    else if |t| >= 2 then Cons(ShortEscape(t[1]), ReadChars(t[2..]))
    else None
  }

  function ReadLiteral(t: string): Option<(string, string)> {
    if t == [] || t[0] != '\"' then None else ReadChars(t[1..])
  }

  lemma HexReads(d: int)
    requires 0 <= d < 16
    ensures HexValue(Hex(d)) == Some(d)
  {
  }

  lemma EscapeReads(c: char, z: string)
    ensures ReadChars(EscapeChar(c) + z) == Cons(Some(c), ReadChars(z))
  {
    var e := EscapeChar(c);
    var t := e + z;
    assert t[|e|..] == z;
    if c < ' ' && |e| == 6 {
      var n := c as int;
      assert t[2..6] == ['0', '0', Hex(n / 16), Hex(n % 16)];
      HexReads(n / 16);
      HexReads(n % 16);
      assert ((0 * 16 + 0) * 16 + n / 16) * 16 + n % 16 == n;
      assert UnicodeEscape(t[2..6]) == Some(c);
    }
  }

  lemma {:induction false} CharsRead(s: string, z: string)
    ensures ReadChars(Escape(s) + ("\"" + z)) == Some((s, z))
  {
    hide EscapeChar;
    if s == [] {
      assert Escape(s) + ("\"" + z) == "\"" + z;
    } else {
      hide ReadChars;
      CharsRead(s[1..], z);
      EscapeStep(s, z);
      EscapeReads(s[0], Escape(s[1..]) + ("\"" + z));
      assert s == [s[0]] + s[1..];
    }
  }

  /** Round trip: a reader following the standard gets the string and what follows it back. */
  lemma LiteralReadsBack(s: string, z: string)
    ensures ReadLiteral(Quote(s) + z) == Some((s, z))
  {
    hide Escape, ReadChars;
    CharsRead(s, z);
    assert (Quote(s) + z)[1..] == Escape(s) + ("\"" + z);
  }

  /** Characters that stand for themselves. */
  predicate Plain(c: char) { c >= ' ' && c != '\"' && c != '\\' }

  lemma {:induction false} PlainEscape(s: string)
    requires forall c :: c in s ==> Plain(c)
    ensures Escape(s) == s
  {
    if s != [] {
      PlainEscape(s[1..]);
      assert Plain(s[0]) && EscapeChar(s[0]) == [s[0]];
    }
  }

  lemma PlainStays(s: string)
    requires forall c :: c in s ==> Plain(c)
    ensures Quote(s) == "\"" + s + "\""
  {
    PlainEscape(s);
  }

  /** The shortest escapes are used. */
  lemma EscapeForms()
    ensures Quote("\"") == "\"\\\"\"" && Quote("\\") == "\"\\\\\"" && Quote("/") == "\"/\""
    ensures Quote("\U{8}") == "\"\\b\"" && Quote("\t") == "\"\\t\"" && Quote("\n") == "\"\\n\""
    ensures Quote("\U{C}") == "\"\\f\"" && Quote("\r") == "\"\\r\"" && Quote("\U{1F}") == "\"\\u001f\""
  {
    forall c: char ensures Quote([c]) == "\"" + EscapeChar(c) + "\"" { assert [c][1..] == [] && Escape([c]) == EscapeChar(c); }
  }

  // ---------------------------------------------------------------- key-sorted text

  /** The texts of the items, one by one. */
  function Texts(items: seq<Json>): seq<string> {
    seq(|items|, i requires 0 <= i < |items| => Stable(items[i]))
  }

  function EntryTexts(fs: seq<Field>, ks: seq<string>): seq<string> {
    seq(|ks|, i requires 0 <= i < |ks| => Quote(ks[i]) + ":" + Stable(Find(fs, ks[i])))
  }

  lemma {:induction false} ItemsJoined(items: seq<Json>)
    ensures StableItems(items) == Join(",", Texts(items))
  {
    hide Stable;
    if |items| > 0 { assert Texts(items)[1..] == Texts(items[1..]); }
    if |items| > 1 { ItemsJoined(items[1..]); }
  }

  lemma {:induction false} FieldsJoined(fs: seq<Field>, ks: seq<string>)
    requires forall k :: k in ks ==> k in Keys(fs)
    ensures StableFields(fs, ks) == Join(",", EntryTexts(fs, ks))
  {
    hide Stable, Quote, Find;
    if |ks| > 0 { assert EntryTexts(fs, ks)[1..] == EntryTexts(fs, ks[1..]); }
    if |ks| > 1 { FieldsJoined(fs, ks[1..]); }
  }

  lemma ObjectForm(fs: seq<Field>, ks: seq<string>)
    requires ks == Sort(StrLe, Keys(fs))
    ensures (forall k :: k in ks <==> k in Keys(fs)) && Stable(Obj(fs)) == "{" + Join(",", EntryTexts(fs, ks)) + "}"
  {
    hide Quote, Find, StrLe, Sort, EntryTexts;
    SortPermutes(StrLe, Keys(fs));
    FieldsJoined(fs, ks);
  }

  /** Arrays list the texts of their items in order; objects their entries by ascending key, each key once. */
  lemma StableForms(items: seq<Json>, fs: seq<Field>)
    ensures Stable(Arr(items)) == "[" + Join(",", Texts(items)) + "]"
    ensures Distinct(Keys(fs)) ==> exists ks: seq<string> ::
      && Distinct(ks) && Sorted(StrLe, ks) && (forall k :: k in ks <==> k in Keys(fs))
      && Stable(Obj(fs)) == "{" + Join(",", EntryTexts(fs, ks)) + "}"
  {
    ItemsJoined(items);
    assert Stable(Arr(items)) == "[" + Join(",", Texts(items)) + "]";
    hide Stable, Join, EntryTexts, StrLe, Sort;
    if Distinct(Keys(fs)) {
      var ks := Sort(StrLe, Keys(fs));
      SortPermutes(StrLe, Keys(fs));
      StrLeIsTotalOrder();
      SortSorts(StrLe, Keys(fs));
      DistinctFromMultiset(Keys(fs), ks);
      ObjectForm(fs, ks);
    }
  }

  /** What has no text of its own prints as null. */
  lemma ScalarForms(n: Number, s: string, negative: bool)
    ensures Stable(Undefined) == Stable(Null) == Stable(NaN) == Stable(Infinity(negative)) == "null"
    ensures Stable(Bool(true)) == "true" && Stable(Bool(false)) == "false"
    ensures Stable(Num(n)) == NumText(n) && Stable(Str(s)) == Quote(s)
  {
    hide NumText, Quote;
  }

  // ---------------------------------------------------------------- plain text

  function PlainTexts(items: seq<Json>): seq<string> {
    seq(|items|, i requires 0 <= i < |items| => PlainText(items[i]))
  }

  function PlainEntries(fs: seq<Field>): seq<string> {
    if fs == [] then []
    else (if fs[0].val == Undefined then [] else [Quote(fs[0].key) + ":" + PlainText(fs[0].val)]) + PlainEntries(fs[1..])
  }

  lemma {:induction false} PlainItemsJoined(items: seq<Json>)
    ensures PlainItems(items) == Join(",", PlainTexts(items))
  {
    hide PlainText;
    if |items| > 0 { assert PlainTexts(items)[1..] == PlainTexts(items[1..]); }
    if |items| > 1 { PlainItemsJoined(items[1..]); }
  }

  lemma {:induction false} PlainFieldsJoined(fs: seq<Field>)
    ensures PlainFields(fs) == Join(",", PlainEntries(fs))
    ensures PlainFields(fs) == "" <==> PlainEntries(fs) == []
  {
    hide PlainText, Quote;
    if fs != [] {
      PlainFieldsJoined(fs[1..]);
      var rest := PlainEntries(fs[1..]);
      if fs[0].val != Undefined {
        var e := Quote(fs[0].key) + ":" + PlainText(fs[0].val);
        assert PlainEntries(fs) == [e] + rest && ([e] + rest)[1..] == rest;
      } else {
        assert PlainEntries(fs) == rest;
      }
    }
  }

  /** The plain text keeps fields in their order and leaves out undefined ones. */
  lemma PlainForms(items: seq<Json>, fs: seq<Field>)
    ensures PlainText(Arr(items)) == "[" + Join(",", PlainTexts(items)) + "]"
    ensures PlainText(Obj(fs)) == "{" + Join(",", PlainEntries(fs)) + "}"
  {
    PlainItemsJoined(items);
    PlainFieldsJoined(fs);
  }

  // ---------------------------------------------------------------- numbers

  lemma Numerals(d: nat, k: nat)
    requires d < 10
    ensures Digits(d) == [DigitChar(d)]
    ensures k > 0 ==> Digits(10 * k + d) == Digits(k) + [DigitChar(d)]
  {
    if k > 0 { assert (10 * k + d) / 10 == k && (10 * k + d) % 10 == d; }
  }

  lemma SmallNumerals()
    ensures Digits(0) == "0" && Digits(1) == "1" && Digits(6) == "6" && Digits(7) == "7"
    ensures Digits(15) == "15" && Digits(20) == "20" && Digits(21) == "21" && Digits(23) == "23"
  {
    Numerals(0, 0);
    Numerals(1, 0);
    Numerals(2, 0);
    Numerals(6, 0);
    Numerals(7, 0);
    Numerals(5, 1);
    Numerals(0, 2);
    Numerals(1, 2);
    Numerals(3, 2);
  }

  /** The layouts at their limits: 21 digits before the point, six zeros behind it. */
  lemma PointForms()
    ensures NumText(Decimal(0, 0)) == "0" && NumText(Decimal(7, 0)) == "7" && NumText(Decimal(-7, 2)) == "-700"
    ensures NumText(Decimal(15, -1)) == "1.5" && NumText(Decimal(15, -3)) == "0.015"
    ensures NumText(Decimal(1, 20)) == "1" + Repeat('0', 20) && NumText(Decimal(1, -6)) == "0.000001"
  {
    hide Digits;
    SmallNumerals();
  }

  lemma ExponentForms()
    ensures NumText(Decimal(1, 21)) == "1e+21" && NumText(Decimal(1, -7)) == "1e-7"
    ensures NumText(Decimal(-15, 22)) == "-1.5e+23" && NumText(Decimal(15, -8)) == "1.5e-7"
  {
    hide Digits;
    SmallNumerals();
  }

  // ---------------------------------------------------------------- String(v)

  /** The text of an item inside a list: nothing for what is absent. */
  function ItemText(v: Json): string { if v == Undefined || v == Null then "" else ToText(v) }

  function ItemTexts(items: seq<Json>): seq<string> {
    seq(|items|, i requires 0 <= i < |items| => ItemText(items[i]))
  }

  lemma {:induction false} ItemTextsJoined(items: seq<Json>)
    ensures ItemsToText(items) == Join(",", ItemTexts(items))
  {
    hide ToText;
    if |items| > 0 { assert ItemTexts(items)[1..] == ItemTexts(items[1..]); }
    if |items| > 1 { ItemTextsJoined(items[1..]); }
  }

  /** String(v): a list reads as its items with commas between, and has a text exactly if they have; an object has one unless it owns a
      key toString. */
  lemma ConvertedForms(items: seq<Json>, fs: seq<Field>, s: string, n: Number)
    ensures ToText(Str(s)) == s && ToText(Num(n)) == NumText(n) && ToText(Bool(true)) == "true" && ToText(Bool(false)) == "false"
    ensures ToText(Undefined) == "undefined" && ToText(Null) == "null" && ToText(NaN) == "NaN"
    ensures ToText(Infinity(false)) == "Infinity" && ToText(Infinity(true)) == "-Infinity"
    ensures ToText(Arr(items)) == Join(",", ItemTexts(items)) && ToText(Obj(fs)) == "[object Object]"
    ensures HasText(Arr(items)) <==> forall x :: x in items ==> HasText(x)
    ensures HasText(Obj(fs)) <==> forall f :: f in fs ==> f.key != "toString"
    ensures HasText(Str(s)) && HasText(Num(n)) && HasText(Undefined) && HasText(Null) && HasText(NaN)
  {
    ItemTextsJoined(items);
    assert forall i :: 0 <= i < |items| ==> items[i] in items;
    assert forall i :: 0 <= i < |fs| ==> fs[i] in fs && Keys(fs)[i] == fs[i].key;
  }
}
