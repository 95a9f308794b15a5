/** Determinism, non-interference and safety of policy evaluation. */
module PolicyTheorems {
  import opened Optional
  import opened Sorting
  import opened Strings
  import opened Numbers
  import opened JsonTree
  import opened PolicySchema
  import opened PolicyMerge
  import opened PolicyMergeFacts
  import opened PolicyEngine

  // ---------------------------------------------------------------- the order of rules in the definition

  lemma RuleLeIsPreorder()
    ensures TotalPreorder(RuleLe)
  {
    hide NumLe, StrLe, Priority, RuleId;
    NumLeIsTotalOrder();
    StrLeIsTotalOrder();
  }

  /** Rules with distinct ids never tie. */
  lemma RulesSeparated(purpose: Option<Purpose>, rules: seq<Json>)
    requires RulesOk(purpose, rules, |rules|)
    ensures Separates(RuleLe, rules)
  {
    hide NumLe, StrLe, Priority, RuleOk;
    NumLeIsTotalOrder();
    StrLeIsTotalOrder();
    forall a, b | a in rules && b in rules && RuleLe(a, b) && RuleLe(b, a) ensures a == b {
      var i :| 0 <= i < |rules| && rules[i] == a;
      var j :| 0 <= j < |rules| && rules[j] == b;
      OkRuleHasId(purpose, rules[i]);
      OkRuleHasId(purpose, rules[j]);
      assert RuleId(a) == RuleId(b);
    }
  }

  lemma OkRuleHasId(purpose: Option<Purpose>, rule: Json)
    requires RuleOk(purpose, rule)
    ensures Get(rule, "id") == Str(RuleId(rule))
  {
    hide EffectOk, ConditionOk;
  }

  lemma OrderedForgetsListing(purpose: Option<Purpose>, rules: seq<Json>, rules': seq<Json>)
    requires RulesOk(purpose, rules, |rules|) && multiset(rules) == multiset(rules')
    ensures Ordered(rules) == Ordered(rules')
  {
    hide Enabled, RuleLe, RulesOk;
    var on, on' := Filter(Enabled, rules), Filter(Enabled, rules');
    forall x ensures multiset(on)[x] == multiset(on')[x] {
      FilterMultiset(Enabled, rules, x);
      FilterMultiset(Enabled, rules', x);
    }
    assert multiset(on) == multiset(on');
    RuleLeIsPreorder();
    RulesSeparated(purpose, rules);
    SortForgetsOrder(RuleLe, on, on');
  }

  /** The whole result is the same for every listing order of an acceptable definition's rules. */
  lemma ListingOrderIrrelevant(collate: Collation, input: Input, def: Json, def': Json)
    requires Accepted(def) && Get(def', "rules").Arr?
    requires multiset(Rules(def)) == multiset(Rules(def'))
    requires Get(def, "purpose") == Get(def', "purpose") && Get(def, "defaultEffect") == Get(def', "defaultEffect")
    ensures Evaluation(collate, input, def) == Evaluation(collate, input, def')
  {
    hide CanonicalInput, Merged, Ordered, Get, Rules, PlainText, RulesOk, ReadPurpose, ReadEffectType, RuleIds, Codes;
    OrderedForgetsListing(ReadPurpose(Get(def, "purpose")), Rules(def), Rules(def'));
  }

  /** The pass visits exactly the enabled rules whose condition holds, in ascending (priority, id). */
  lemma MatchedInOrder(rules: seq<Json>, facts: Facts)
    ensures Sorted(RuleLe, Matched(rules, facts))
    ensures forall r :: r in Matched(rules, facts) <==> r in rules && Enabled(r) && Matches(r, facts)
    ensures |Matched(rules, facts)| + |Unmatched(rules, facts)| == |Filter(Enabled, rules)|
  {
    hide Enabled, RuleLe, Matches;
    RuleLeIsPreorder();
    SortSorts(RuleLe, Filter(Enabled, rules));
    SortPermutes(RuleLe, Filter(Enabled, rules));
    FilterSorted((r: Json) => Matches(r, facts), Ordered(rules));
    FilterSplits(facts, Ordered(rules));
  }

  lemma {:induction false} FilterSorted(keep: Json -> bool, s: seq<Json>)
    requires Sorted(RuleLe, s)
    ensures Sorted(RuleLe, Filter(keep, s))
  {
    hide RuleLe;
    if s != [] {
      var n := |s| - 1;
      FilterSorted(keep, s[..n]);
      var r := Filter(keep, s[..n]);
      forall i | 0 <= i < |r| ensures RuleLe(r[i], s[n]) {
        assert r[i] in s[..n];
        var j :| 0 <= j < n && s[j] == r[i];
      }
    }
  }

  lemma {:induction false} FilterSplits(facts: Facts, s: seq<Json>)
    ensures |Hits(s, facts)| + |Misses(s, facts)| == |s|
  {
    hide Matches;
    if s != [] { FilterSplits(facts, s[..|s| - 1]); }
  }

  // ---------------------------------------------------------------- the canonical input

  predicate Shown(v: Json) { v.Str? || v.Bool? || IsNumber(v) }

  lemma {:induction false} CanonicalFieldsAre(names: seq<string>, facts: Facts)
    requires Distinct(names) && Sorted(StrLe, names)
    ensures var fs := CanonicalFields(names, facts);
      && FlatFields(fs) && Distinct(Keys(fs)) && Sorted(StrLe, Keys(fs))
      && (forall n :: n in Keys(fs) <==> n in names && Shown(Fact(facts, n)))
    ensures forall n :: n in names && Shown(Fact(facts, n)) ==> Find(CanonicalFields(names, facts), n) == Fact(facts, n)
  {
    hide Fact, StrLe;
    if names != [] {
      CanonicalFieldsAre(names[1..], facts);
      DistinctHead(names);
      var rest := CanonicalFields(names[1..], facts);
      var v := Fact(facts, names[0]);
      assert names == [names[0]] + names[1..];
      if Shown(v) {
        var f := Field(names[0], v);
        forall k | k in Keys(rest) ensures StrLe(f.key, k) && k != f.key {
          var j :| 0 <= j < |names[1..]| && names[1..][j] == k;
          assert names[j + 1] == k;
        }
        FlatHead(f, rest);
      } else {
        assert [] + rest == rest;
      }
    }
  }

  lemma FlatHead(f: Field, rest: seq<Field>)
    requires Shown(f.val) && FlatFields(rest) && Distinct(Keys(rest)) && Sorted(StrLe, Keys(rest))
    requires forall k :: k in Keys(rest) ==> StrLe(f.key, k) && k != f.key
    ensures var fs := [f] + rest;
      && FlatFields(fs) && Distinct(Keys(fs)) && Sorted(StrLe, Keys(fs))
      && (forall n :: n in Keys(fs) <==> n == f.key || n in Keys(rest))
      && (forall n :: Find(fs, n) == if n == f.key then f.val else Find(rest, n))
  {
    hide StrLe, Find;
    KeysCons(f, rest);
    HeadFirst(f.key, Keys(rest));
    forall n ensures Find([f] + rest, n) == if n == f.key then f.val else Find(rest, n) { FindCons(f, rest, n); }
  }

  lemma HeadFirst(k: string, ks: seq<string>)
    requires Distinct(ks) && Sorted(StrLe, ks) && forall m :: m in ks ==> StrLe(k, m) && m != k
    ensures Distinct([k] + ks) && Sorted(StrLe, [k] + ks)
  {
    hide StrLe;
    var all := [k] + ks;
    forall i, j | 0 <= i < j < |all| ensures all[i] != all[j] && StrLe(all[i], all[j]) {
      assert all[j] == ks[j - 1] && ks[j - 1] in ks;
      if i > 0 { assert all[i] == ks[i - 1]; }
    }
  }

  lemma FindCons(f: Field, rest: seq<Field>, n: string)
    ensures Find([f] + rest, n) == if n == f.key then f.val else Find(rest, n)
  {
    assert ([f] + rest)[1..] == rest;
  }

  lemma DistinctHead(names: seq<string>)
    requires Distinct(names) && names != []
    ensures names[0] !in names[1..]
  {
  }

  lemma FieldNamesDistinct(p: Purpose)
    ensures Distinct(FieldNames(p))
  {
    var names := FieldNames(p);
  }

  function Head(p: Purpose): string {
    "{" + (Quote("p") + ":" + Quote(PurposeName(p)) + "," + (Quote("e") + ":" + Quote(ENGINE_VERSION) + ","
    + (Quote("s") + ":" + NumText(FromInt(1)) + "," + (Quote("f") + ":"))))
  }

  lemma CanonicalInputText(p: Purpose, facts: Facts)
    ensures CanonicalInput(p, facts) == Head(p) + (PlainText(Obj(CanonicalFields(Sort(StrLe, FieldNames(p)), facts))) + "}")
  {
    hide PurposeName, NumText, FromInt, Quote, Sort, FieldNames, PlainFields, CanonicalFields;
    var f := Obj(CanonicalFields(Sort(StrLe, FieldNames(p)), facts));
    var f0, f1, f2, f3 := Field("p", Str(PurposeName(p))), Field("e", Str(ENGINE_VERSION)), Field("s", Num(FromInt(1))), Field("f", f);
    PlainFieldsOne(f3);
    PlainFieldsCons(f2, [f3]);
    PlainFieldsCons(f1, [f2] + [f3]);
    PlainFieldsCons(f0, [f1] + ([f2] + [f3]));
    assert [f0, f1, f2, f3] == [f0] + ([f1] + ([f2] + [f3]));
  }

  lemma PlainFieldsOne(f: Field)
    requires f.val != Undefined
    ensures PlainFields([f]) == Quote(f.key) + ":" + PlainText(f.val)
  {
    hide Quote;
    assert [f][1..] == [];
  }

  lemma PlainFieldsCons(f: Field, fs: seq<Field>)
    requires f.val != Undefined && PlainFields(fs) != ""
    ensures PlainFields([f] + fs) == Quote(f.key) + ":" + PlainText(f.val) + "," + PlainFields(fs)
  {
    hide Quote;
    assert ([f] + fs)[1..] == fs;
  }

  // ---------------------------------------------------------------- non-interference

  predicate PlainValue(v: Json) { v.Undefined? || v.Null? || v.Str? || v.Bool? || v.Num? }

  /** Allow-listed facts are absent, null, text, boolean or a finite number. */
  ghost predicate PlainFacts(p: Purpose, facts: Facts) {
    forall n :: n in FieldNames(p) ==> PlainValue(Fact(facts, n))
  }

  /** Equal, or both without a value. */
  predicate Alike(v: Json, w: Json) { v == w || ((v.Undefined? || v.Null?) && (w.Undefined? || w.Null?)) }

  ghost predicate SameInput(p: Purpose, f: Facts, g: Facts) {
    PlainFacts(p, f) && PlainFacts(p, g) && CanonicalInput(p, f) == CanonicalInput(p, g)
  }

  lemma SortedNames(p: Purpose) returns (names: seq<string>)
    ensures names == Sort(StrLe, FieldNames(p)) && Distinct(names) && Sorted(StrLe, names)
    ensures forall n :: n in names <==> n in FieldNames(p)
  {
    hide FieldNames;
    names := Sort(StrLe, FieldNames(p));
    StrLeIsTotalOrder();
    SortSorts(StrLe, FieldNames(p));
    SortPermutes(StrLe, FieldNames(p));
    FieldNamesDistinct(p);
    DistinctFromMultiset(FieldNames(p), names);
  }

  /** The canonical input fixes every allow-listed fact. */
  lemma InputFixesFacts(p: Purpose, f: Facts, g: Facts, n: string)
    requires SameInput(p, f, g) && n in FieldNames(p)
    ensures Alike(Fact(f, n), Fact(g, n))
  {
    hide FieldNames, CanonicalInput, Fact, StrLe, Head, Sort, PlainText, Stable, CanonicalFields;
    var names := SortedNames(p);
    var a, b := CanonicalFields(names, f), CanonicalFields(names, g);
    CanonicalInputText(p, f);
    CanonicalInputText(p, g);
    TailAfter(Head(p), PlainText(Obj(a)) + "}", PlainText(Obj(b)) + "}");
    CanonicalFieldsAre(names, f);
    CanonicalFieldsAre(names, g);
    PlainIsStable(a);
    PlainIsStable(b);
    FlatIsWellFormed(a);
    FlatIsWellFormed(b);
    StableUnique(Obj(a), Obj(b), "}", "}");
    SameFlat(a, b, n);
  }

  lemma FlatIsWellFormed(fs: seq<Field>)
    requires FlatFields(fs) && Distinct(Keys(fs))
    ensures WellFormed(Obj(fs))
  {
    forall i | 0 <= i < |fs| ensures WellFormed(fs[i].val) {}
  }

  lemma SameFlat(a: seq<Field>, b: seq<Field>, n: string)
    requires Same(Obj(a), Obj(b))
    ensures n in Keys(a) <==> n in Keys(b)
    ensures n in Keys(a) ==> Same(Find(a, n), Find(b, n))
  {
  }

  /** A sound leaf cannot tell apart two readings without a value. */
  lemma LeafTakesAlike(purpose: Option<Purpose>, leaf: Json, op: Operator, v: Json, w: Json)
    requires LeafOk(purpose, leaf) && ReadOperator(Get(leaf, "operator")) == Some(op) && Alike(v, w)
    ensures EvalOperator(op, v, Get(leaf, "value")) == EvalOperator(op, w, Get(leaf, "value"))
  {
    hide ReadOperator, DescriptorOf, FieldName, Get, NumberLess;
  }

  /** The operators stand in their expected relations: each denies its opposite, membership is equality
      with some member, and on numbers the comparisons are the trichotomy of a transitive order. */
  lemma OperatorLaws(v: Json, w: Json, x: Json)
    ensures EvalOperator(NotExists, v, w) <==> !EvalOperator(Exists, v, w)
    ensures EvalOperator(NotEquals, v, w) <==> !EvalOperator(Equals, v, w)
    ensures w.Arr? ==> (EvalOperator(NotIn, v, w) <==> !EvalOperator(In, v, w))
    ensures w.Arr? && !v.NaN? ==> (EvalOperator(In, v, w) <==> exists m :: m in w.items && EvalOperator(Equals, v, m))
    ensures v.Num? && w.Num? ==>
      && (EvalOperator(GreaterOrEqual, v, w) <==> !EvalOperator(Less, v, w))
      && (EvalOperator(LessOrEqual, v, w) <==> !EvalOperator(Greater, v, w))
      && (EvalOperator(Less, v, w) <==> EvalOperator(Greater, w, v))
      && (EvalOperator(Equals, v, w) <==> EvalOperator(LessOrEqual, v, w) && EvalOperator(GreaterOrEqual, v, w))
    ensures v.Num? && w.Num? && x.Num? && EvalOperator(Less, v, w) && EvalOperator(Less, w, x) ==> EvalOperator(Less, v, x)
  {
    hide NumLe;
    NumLeIsTotalOrder();
    if w.Arr? && !v.NaN? {
      if EvalOperator(In, v, w) { assert EvalOperator(Equals, v, v); }
    }
  }

  predicate Denies(a: Operator, b: Operator) {
    || (a.Exists? && b.NotExists?) || (a.Equals? && b.NotEquals?) || (a.In? && b.NotIn?)
    || (a.Greater? && b.LessOrEqual?) || (a.GreaterOrEqual? && b.Less?)
  }

  /** The operator reads this fact against this value as the language means it: numbers for comparisons, a list for membership. */
  predicate Applies(op: Operator, v: Json, value: Json) {
    && (op.In? || op.NotIn? ==> value.Arr?)
    && (op.Greater? || op.GreaterOrEqual? || op.Less? || op.LessOrEqual? ==> v.Num? && value.Num?)
  }

  ghost predicate OppositeLeaves(n: Json, m: Json, facts: Facts) {
    var a, b := ReadOperator(Get(n, "operator")), ReadOperator(Get(m, "operator"));
    && FieldName(n) == FieldName(m) && Get(n, "value") == Get(m, "value") && a.Some? && b.Some?
    && (Denies(a.value, b.value) || Denies(b.value, a.value))
    && Applies(a.value, Fact(facts, FieldName(n)), Get(n, "value"))
  }

  /** The second tree swaps ALL with ANY and every operator with its opposite. */
  ghost predicate Opposite(n: Json, m: Json, facts: Facts)
    decreases n
  {
    if IsGroup(n) then
      && IsGroup(m) && |Children(n)| == |Children(m)| > 0
      && (Get(n, "group") == Str("ALL") <==> Get(m, "group") != Str("ALL"))
      && forall i :: 0 <= i < |Children(n)| ==> Opposite(Children(n)[i], Children(m)[i], facts)
    else !IsGroup(m) && OppositeLeaves(n, m, facts)
  }

  /** Negation can be pushed to the leaves: a tree and its opposite never agree, at any depth. */
  lemma {:induction false} OppositeTreesDisagree(n: Json, m: Json, facts: Facts)
    requires Opposite(n, m, facts)
    ensures EvalNode(n, facts) <==> !EvalNode(m, facts)
    decreases n
  {
    hide IsGroup, Get, OppositeLeaves, EvalLeaf;
    if IsGroup(n) {
      forall i | 0 <= i < |Children(n)| ensures EvalNode(Children(n)[i], facts) <==> !EvalNode(Children(m)[i], facts) {
        OppositeTreesDisagree(Children(n)[i], Children(m)[i], facts);
      }
    } else {
      OppositeLeavesDisagree(n, m, facts);
    }
  }

  lemma OppositeLeavesDisagree(n: Json, m: Json, facts: Facts)
    requires OppositeLeaves(n, m, facts)
    ensures EvalLeaf(n, facts) <==> !EvalLeaf(m, facts)
  {
    hide ReadOperator, Get, FieldName, Fact, EvalOperator;
    OperatorLaws(Fact(facts, FieldName(n)), Get(n, "value"), Null);
  }

  /** Requiring all of the same conditions is at least as strict as requiring any, and a group without conditions never holds. */
  lemma AllIsStricter(n: Json, m: Json, facts: Facts)
    requires IsGroup(n) && IsGroup(m) && Children(n) == Children(m)
    requires Get(n, "group") == Str("ALL") && Get(m, "group") != Str("ALL")
    ensures EvalNode(n, facts) ==> EvalNode(m, facts)
    ensures Children(n) == [] ==> !EvalNode(m, facts)
    ensures forall i :: 0 <= i < |Children(n)| ==>
      (EvalNode(n, facts) ==> EvalNode(Children(n)[i], facts)) && (EvalNode(Children(n)[i], facts) ==> EvalNode(m, facts))
  {
    hide IsGroup, Get, EvalLeaf;
    if EvalNode(n, facts) { assert EvalNode(Children(n)[0], facts); }
  }

  /** Every leaf of the tree names an allow-listed field. */
  ghost predicate NamesListed(p: Purpose, node: Json)
    decreases node
  {
    if IsGroup(node) then forall i :: 0 <= i < |Children(node)| ==> NamesListed(p, Children(node)[i])
    else FieldName(node) in FieldNames(p)
  }

  lemma {:induction false} NodeTakesAlike(p: Purpose, node: Json, f: Facts, g: Facts)
    requires NodesOk(Some(p), node) && NamesListed(p, node) && SameInput(p, f, g)
    ensures EvalNode(node, f) == EvalNode(node, g)
    decreases node
  {
    hide SameInput, FieldNames, Get, IsGroup, FieldName, Fact, EvalOperator, LeafOk, ReadOperator;
    if IsGroup(node) {
      forall i | 0 <= i < |Children(node)| ensures EvalNode(Children(node)[i], f) == EvalNode(Children(node)[i], g) {
        NodeTakesAlike(p, Children(node)[i], f, g);
      }
    } else {
      InputFixesFacts(p, f, g, FieldName(node));
      if ReadOperator(Get(node, "operator")).Some? {
        LeafTakesAlike(Some(p), node, ReadOperator(Get(node, "operator")).value, Fact(f, FieldName(node)), Fact(g, FieldName(node)));
      }
    }
  }

  /** No enabled rule names anything outside the allow-list. */
  ghost predicate OnlyListedNames(p: Purpose, def: Json) {
    forall r :: r in Rules(def) && Enabled(r) ==> NamesListed(p, Get(r, "condition"))
  }

  /** Facts outside the canonical input influence nothing: equal canonical inputs give equal results. */
  lemma NonInterference(collate: Collation, input: Input, other: Facts, def: Json)
    requires Accepted(def) && OnlyListedNames(input.purpose, def) && SameInput(input.purpose, input.facts, other)
    ensures Evaluation(collate, input, def) == Evaluation(collate, input.(facts := other), def)
  {
    hide CanonicalInput, Merged, Ordered, Get, Rules, PlainText, ReadPurpose, ReadEffectType, RuleIds, Codes, OnlyListedNames, Matches, Accepted, AllEffects;
    if !Mismatched(input, def) {
      var rules := Ordered(Rules(def));
      forall r | r in rules ensures Matches(r, input.facts) == Matches(r, other) {
        MatchTakesAlike(input, other, def, r);
      }
      FilterAgrees((r: Json) => Matches(r, input.facts), (r: Json) => Matches(r, other), rules);
      FilterAgrees((r: Json) => !Matches(r, input.facts), (r: Json) => !Matches(r, other), rules);
    }
  }

  lemma MatchTakesAlike(input: Input, other: Facts, def: Json, r: Json)
    requires Accepted(def) && OnlyListedNames(input.purpose, def) && SameInput(input.purpose, input.facts, other)
    requires !Mismatched(input, def) && r in Ordered(Rules(def))
    ensures Matches(r, input.facts) == Matches(r, other)
  {
    hide EvalNode, NodesOk, NamesListed, Enabled, SameInput, Get, Rules, Ordered, Accepted, Mismatched;
    OrderedAreEnabled(def, r);
    ConditionAccepted(input, def, r);
    NodeTakesAlike(input.purpose, Get(r, "condition"), input.facts, other);
  }

  lemma OrderedAreEnabled(def: Json, r: Json)
    requires r in Ordered(Rules(def))
    ensures r in Rules(def) && Enabled(r)
  {
    hide Rules, Sort, Enabled, RuleLe;
    SortPermutes(RuleLe, Filter(Enabled, Rules(def)));
  }

  lemma ConditionAccepted(input: Input, def: Json, r: Json)
    requires Accepted(def) && !Mismatched(input, def) && r in Rules(def)
    ensures NodesOk(Some(input.purpose), Get(r, "condition"))
  {
    hide NodesOk, PlainText, Get, ReadPurpose, PurposeName, RuleOk, Depth, NodeCount, ReadEffectType;
    PurposeReadsBack(input.purpose);
    var i :| 0 <= i < |Rules(def)| && Rules(def)[i] == r;
    RuleConditionOk(Some(input.purpose), r);
  }

  lemma RuleConditionOk(purpose: Option<Purpose>, r: Json)
    requires RuleOk(purpose, r)
    ensures NodesOk(purpose, Get(r, "condition"))
  {
    hide NodesOk, EffectOk, Get, Depth, NodeCount;
  }

  lemma PurposeReadsBack(p: Purpose)
    ensures ReadPurpose(Str(PurposeName(p))) == Some(p)
  {
  }

  lemma {:induction false} FilterAgrees(keep: Json -> bool, keep': Json -> bool, s: seq<Json>)
    requires forall r :: r in s ==> keep(r) == keep'(r)
    ensures Filter(keep, s) == Filter(keep', s)
  {
    if s != [] {
      assert s[|s| - 1] in s;
      FilterAgrees(keep, keep', s[..|s| - 1]);
    }
  }

  // ---------------------------------------------------------------- exactly which leaves are insensitive

  lemma ListedNamesAreOwn(p: Purpose, n: string)
    requires n in FieldNames(p)
    ensures n !in INHERITED_NAMES && EntryOf(FieldsFor(p), n).Some?
  {
    var i :| 0 <= i < |FieldsFor(p)| && FieldsFor(p)[i].name == n;
  }

  lemma {:induction false} SameFactsSameFields(names: seq<string>, f: Facts, g: Facts)
    requires forall n :: n in names ==> Fact(f, n) == Fact(g, n)
    ensures CanonicalFields(names, f) == CanonicalFields(names, g)
  {
    hide Fact;
    if names != [] { SameFactsSameFields(names[1..], f, g); }
  }

  /** A fact under an unlisted name does not show in the canonical input. */
  lemma UnlistedFactHidden(p: Purpose, n: string, v: Json)
    requires n !in FieldNames(p)
    ensures SameInput(p, map[n := v], map[])
  {
    hide FieldNames, PlainText, Sort;
    var names := SortedNames(p);
    forall m | m in FieldNames(p) ensures Fact(map[n := v], m) == Fact(map[], m) == Undefined { ListedNamesAreOwn(p, m); }
    SameFactsSameFields(names, map[n := v], map[]);
  }

  ghost predicate Insensitive(p: Purpose, leaf: Json) {
    forall f, g :: SameInput(p, f, g) ==> EvalLeaf(leaf, f) == EvalLeaf(leaf, g)
  }

  /** A reading that this leaf answers differently from an inherited one. */
  function Telltale(op: Operator, value: Json): Json {
    match op
    case Exists => Null
    case NotExists => Null
    case In => if value.Arr? && value.items != [] then value.items[0] else Null
    case NotIn => if value.Arr? && value.items != [] then value.items[0] else Null
    case _ => value
  }

  lemma TelltaleTells(purpose: Option<Purpose>, leaf: Json, op: Operator)
    requires LeafOk(purpose, leaf) && ReadOperator(Get(leaf, "operator")) == Some(op)
    requires DescriptorOf(purpose, FieldName(leaf)) == Some(StringField(None))
    ensures EvalOperator(op, Telltale(op, Get(leaf, "value")), Get(leaf, "value")) != EvalOperator(op, Obj([]), Get(leaf, "value"))
  {
    hide ReadOperator, DescriptorOf, FieldName, Get;
    var value := Get(leaf, "value");
    if op.In? || op.NotIn? { assert value.items[0] in value.items && ValueOk(StringField(None), value.items[0]); }
  }

  /** The validator's allow-list is tight except for inherited names: an accepted leaf is insensitive to
      everything outside the canonical input exactly when its field is listed. */
  lemma InsensitiveIffListed(p: Purpose, leaf: Json)
    requires LeafOk(Some(p), leaf)
    ensures Insensitive(p, leaf) <==> FieldName(leaf) in FieldNames(p)
    ensures FieldName(leaf) in FieldNames(p) || FieldName(leaf) in INHERITED_NAMES
  {
    hide FieldNames, SameInput, LeafOk, EvalOperator, ReadOperator, Get, Fact, FieldName;
    var n := FieldName(leaf);
    var op := LeafOperator(Some(p), leaf);
    if n in FieldNames(p) {
      forall f, g | SameInput(p, f, g) ensures EvalLeaf(leaf, f) == EvalLeaf(leaf, g) {
        InputFixesFacts(p, f, g, n);
        LeafTakesAlike(Some(p), leaf, op, Fact(f, n), Fact(g, n));
      }
    } else {
      UnlistedLeaf(p, leaf);
      UnlistedTells(p, leaf, op);
    }
  }

  lemma UnlistedTells(p: Purpose, leaf: Json, op: Operator)
    requires LeafOk(Some(p), leaf) && FieldName(leaf) !in FieldNames(p) && ReadOperator(Get(leaf, "operator")) == Some(op)
    ensures !Insensitive(p, leaf)
  {
    hide FieldNames, SameInput, LeafOk, EvalOperator, ReadOperator, Get, Fact, FieldName, Telltale, DescriptorOf;
    var n := FieldName(leaf);
    var t := Telltale(op, Get(leaf, "value"));
    UnlistedLeaf(p, leaf);
    UnlistedFactHidden(p, n, t);
    TelltaleTells(Some(p), leaf, op);
    FactReads(n, t);
    assert EvalLeaf(leaf, map[n := t]) != EvalLeaf(leaf, map[]);
  }

  lemma LeafOperator(purpose: Option<Purpose>, leaf: Json) returns (op: Operator)
    requires LeafOk(purpose, leaf)
    ensures ReadOperator(Get(leaf, "operator")) == Some(op)
  {
    hide DescriptorOf, FieldName, ReadOperator, Get;
    op := ReadOperator(Get(leaf, "operator")).value;
  }

  lemma FactReads(n: string, v: Json)
    requires n in INHERITED_NAMES
    ensures Fact(map[n := v], n) == v && Fact(map[], n) == Obj([])
  {
  }

  lemma UnlistedLeaf(p: Purpose, leaf: Json)
    requires LeafOk(Some(p), leaf) && FieldName(leaf) !in FieldNames(p)
    ensures DescriptorOf(Some(p), FieldName(leaf)) == Some(StringField(None)) && FieldName(leaf) in INHERITED_NAMES
  {
    hide ReadOperator, FieldName, Get, ValueOk, FieldsFor;
    EntryIffListed(p, FieldName(leaf));
  }

  lemma EntryIffListed(p: Purpose, n: string)
    ensures EntryOf(FieldsFor(p), n).Some? <==> n in FieldNames(p)
  {
    hide FieldsFor;
    if EntryOf(FieldsFor(p), n).Some? {
      var i :| 0 <= i < |FieldsFor(p)| && FieldsFor(p)[i].name == n;
      assert FieldNames(p)[i] == n;
    }
  }

  /** A concrete accepted leaf that two fact maps with one canonical input answer differently. */
  lemma InheritedNameSlipsThrough(p: Purpose)
    ensures var leaf := Obj([Field("field", Str("toString")), Field("operator", Str("EXISTS"))]);
      LeafOk(Some(p), leaf) && SameInput(p, map["toString" := Null], map[]) &&
      !EvalLeaf(leaf, map["toString" := Null]) && EvalLeaf(leaf, map[])
  {
    hide SameInput, EntryOf, FieldNames, FieldsFor, FieldName, ReadOperator, Get, Fact;
    var leaf := Obj([Field("field", Str("toString")), Field("operator", Str("EXISTS"))]);
    ToStringLeaf(leaf);
    if "toString" in FieldNames(p) { ListedNamesAreOwn(p, "toString"); }
    UnlistedFactHidden(p, "toString", Null);
    FactReads("toString", Null);
    EntryIffListed(p, "toString");
  }

  lemma ToStringLeaf(leaf: Json)
    requires leaf == Obj([Field("field", Str("toString")), Field("operator", Str("EXISTS"))])
    ensures HasText(Get(leaf, "field")) && FieldName(leaf) == "toString" && ReadOperator(Get(leaf, "operator")) == Some(Exists) && Get(leaf, "value") == Undefined
  {
    var fs := leaf.fields;
    assert fs[1..] == [Field("operator", Str("EXISTS"))] && fs[1..][1..] == [];
  }

  // ---------------------------------------------------------------- the decision, rule by rule

  /** Some enabled rule whose condition holds carries an effect of this type. */
  ghost predicate Carried(rules: seq<Json>, facts: Facts, t: EffectType) {
    exists r, e :: r in rules && Enabled(r) && Matches(r, facts) && e in EffectsOf(r) && Is(e, t)
  }

  lemma {:induction false} AllEffectsAre(rules: seq<Json>, e: Json)
    ensures e in AllEffects(rules) <==> exists r :: r in rules && e in EffectsOf(r)
  {
    hide EffectsOf;
    if rules != [] {
      var n := |rules| - 1;
      AllEffectsAre(rules[..n], e);
      assert rules == rules[..n] + [rules[n]];
      assert rules[n] in rules;
    }
  }

  lemma HasIffCarried(rules: seq<Json>, facts: Facts, t: EffectType)
    ensures Has(AllEffects(Matched(rules, facts)), t) <==> Carried(rules, facts, t)
  {
    hide Enabled, Matches, EffectsOf, Is;
    var matched := Matched(rules, facts);
    var effects := AllEffects(matched);
    MatchedInOrder(rules, facts);
    if Has(effects, t) {
      var i :| 0 <= i < |effects| && Is(effects[i], t);
      AllEffectsAre(matched, effects[i]);
    }
    if Carried(rules, facts, t) {
      var r, e :| r in rules && Enabled(r) && Matches(r, facts) && e in EffectsOf(r) && Is(e, t);
      AllEffectsAre(matched, e);
      assert r in matched;
      var i :| 0 <= i < |effects| && effects[i] == e;
    }
  }

  /** Deny over allow and manual over automatic across rules: priorities cannot defeat them. */
  lemma DenyAndManualWin(collate: Collation, input: Input, def: Json)
    requires Accepted(def) && !Mismatched(input, def) && Matched(Rules(def), input.facts) != []
    ensures var d, rules, facts := Evaluation(collate, input, def).decision, Rules(def), input.facts;
      && (d.allowGuardianContactConsideration <==>
            Carried(rules, facts, AllowGuardianContactConsideration) && !Carried(rules, facts, ProhibitGuardianContact))
      && (d.allowAutomaticIntervention <==>
            && Carried(rules, facts, AllowAutomaticIntervention)
            && !Carried(rules, facts, ManualOnly) && !Carried(rules, facts, RequireManualInterventionApproval))
      && (!d.allowAutomaticIntervention && (d.manualOnly || d.requireManualInterventionApproval) ==> d.automaticInterventionBounds == [])
      && (d.requireSupervisorReview ==> d.requireReview)
      && (d.requireReview <==> Carried(rules, facts, RequireReview) || Carried(rules, facts, RequireSupervisorReview))
  {
    hide Carried, Matched, AllEffects, Rules, Highest, Sort, Has, CanonicalInput, Accepted, Mismatched, Automatic;
    var rules, facts := Rules(def), input.facts;
    forall t ensures Has(AllEffects(Matched(rules, facts)), t) <==> Carried(rules, facts, t) { HasIffCarried(rules, facts, t); }
    CollectedOk(def, facts);
    AutomaticIffHas(AllEffects(Matched(rules, facts)));
  }

  /** Every other flag is up exactly when some matching rule carries its effect, whatever its priority. */
  lemma FlagsAreCarried(collate: Collation, input: Input, def: Json)
    requires !Mismatched(input, def) && Matched(Rules(def), input.facts) != []
    ensures var d, rules, facts := Evaluation(collate, input, def).decision, Rules(def), input.facts;
      && (d.createIncident <==> Carried(rules, facts, CreateIncident))
      && (d.updateIncident <==> Carried(rules, facts, UpdateIncident))
      && (d.requireSupervisorReview <==> Carried(rules, facts, RequireSupervisorReview))
      && (d.recommendEscalation <==> Carried(rules, facts, CreateEscalationRecommendation))
      && (d.proposeProtectionPlan <==> Carried(rules, facts, ProposeProtectionPlan))
      && (d.requireManualInterventionApproval <==> Carried(rules, facts, RequireManualInterventionApproval))
      && (d.prohibitGuardianContact <==> Carried(rules, facts, ProhibitGuardianContact))
      && (d.manualOnly <==> Carried(rules, facts, ManualOnly))
  {
    hide Carried, Matched, AllEffects, Rules, Highest, Sort, Has, CanonicalInput, Mismatched, Automatic, Actions, Bounds;
    var rules, facts := Rules(def), input.facts;
    forall t ensures Has(AllEffects(Matched(rules, facts)), t) <==> Carried(rules, facts, t) { HasIffCarried(rules, facts, t); }
  }

  lemma AcceptedRule(def: Json, r: Json)
    requires Accepted(def) && r in Rules(def)
    ensures RuleOk(ReadPurpose(Get(def, "purpose")), r)
  {
    hide RuleOk, PlainText, ReadPurpose, ReadEffectType, UnitLength, FromInt, Get;
    var i :| 0 <= i < |Rules(def)| && Rules(def)[i] == r;
    assert RuleOk(ReadPurpose(Get(def, "purpose")), Rules(def)[i]);
  }

  lemma RuleEffectsOk(purpose: Option<Purpose>, r: Json, e: Json)
    requires RuleOk(purpose, r) && e in EffectsOf(r)
    ensures EffectOk(e)
  {
    hide EffectOk, ConditionOk, ShortText;
  }

  lemma CollectedOk(def: Json, facts: Facts)
    requires Accepted(def)
    ensures EffectsOk(AllEffects(Matched(Rules(def), facts)))
  {
    hide Enabled, Matches, EffectOk, RuleOk, Accepted, Rules, EffectsOf, ReadPurpose;
    var matched := Matched(Rules(def), facts);
    MatchedInOrder(Rules(def), facts);
    forall e | e in AllEffects(matched) ensures EffectOk(e) {
      AllEffectsAre(matched, e);
      var r :| r in matched && e in EffectsOf(r);
      AcceptedRule(def, r);
      RuleEffectsOk(ReadPurpose(Get(def, "purpose")), r, e);
    }
  }

  /** A valid effect that allows an intervention names its type. */
  lemma AutomaticIffHas(effects: seq<Json>)
    requires EffectsOk(effects)
    ensures Automatic(effects) <==> Has(effects, AllowAutomaticIntervention)
  {
    hide EffectOk;
    forall i | 0 <= i < |effects| ensures Intervenes(effects[i]) <==> Is(effects[i], AllowAutomaticIntervention) {
      assert effects[i] in effects;
      ValidIntervention(effects[i]);
    }
  }

  lemma ValidIntervention(e: Json)
    requires EffectOk(e)
    ensures Intervenes(e) <==> Is(e, AllowAutomaticIntervention)
  {
    hide ReadEffectType, Get, OwnKeys, PayloadOf;
  }

  /** With no matching rule only the declared default speaks, and it never authorizes an automatic
      intervention, proposes an action or recommends a level. */
  lemma DefaultAuthorizesNothing(collate: Collation, input: Input, def: Json)
    requires !Mismatched(input, def) && Matched(Rules(def), input.facts) == []
    ensures var r := Evaluation(collate, input, def);
      && r.ok && r.matchedRuleIds == [] && r.explanationCodes == ["policy_default_effect"]
      && !r.decision.allowAutomaticIntervention && r.decision.automaticInterventionBounds == [] && r.decision.proposedActions == []
      && r.decision.recommendedSeverity == r.decision.recommendedUrgency == r.decision.escalationLevel == None
      && forall t :: Has(Collected(def, input.facts), t) <==> ReadEffectType(Get(def, "defaultEffect")) == Some(t)
  {
    hide Matched, Rules, CanonicalInput, Mismatched, ReadEffectType, Highest, Actions, Bounds, Automatic, AllEffects, EffectsOf, Get, DefaultEffect;
    var e := DefaultEffect(def);
    DefaultReads(def);
    PayloadlessDoesNothing(e);
    forall t ensures Has([e], t) <==> ReadEffectType(Get(def, "defaultEffect")) == Some(t) {
      assert Is([e][0], t) <==> ReadEffectType(Get(def, "defaultEffect")) == Some(t);
    }
  }

  /** The default effects that, without a payload, change nothing. */
  predicate Idle(t: EffectType) {
    t.SetRecommendedSeverity? || t.SetRecommendedUrgency? || t.SetEscalationLevel? || t.ProposeProtectionAction?
    || t.AllowAutomaticIntervention? || t.NoAction?
  }

  /** With no matching rule the decision is empty if and only if the default is NO_ACTION or one of the five
      types that say something only by their payload. */
  lemma DefaultDoesNothingIff(collate: Collation, input: Input, def: Json, t: EffectType)
    requires !Mismatched(input, def) && Matched(Rules(def), input.facts) == [] && ReadEffectType(Get(def, "defaultEffect")) == Some(t)
    ensures Evaluation(collate, input, def).decision == EmptyDecision(input.purpose) <==> Idle(t)
  {
    hide Matched, Rules, CanonicalInput, Mismatched, ReadEffectType, Highest, Sort, Actions, Bounds, Automatic, Has;
    DefaultAuthorizesNothing(collate, input, def);
    var d := Evaluation(collate, input, def).decision;
    assert Has(Collected(def, input.facts), t);
    assert d == EmptyDecision(input.purpose) ==> Idle(t);
  }

  /** A definition without rules whose default would set a severity, had it a payload. */
  function Payloadless(p: Purpose): Json {
    Obj([Field("schemaVersion", Num(FromInt(1))), Field("purpose", Str(PurposeName(p))),
         Field("defaultEffect", Str("SET_RECOMMENDED_SEVERITY")), Field("rules", Arr([]))])
  }

  /** It is accepted, and whatever the facts its decision is empty. */
  lemma PayloadlessDefaultAccepted(collate: Collation, input: Input)
    ensures var def := Payloadless(input.purpose);
      Accepted(def) && !Mismatched(input, def) && Evaluation(collate, input, def).decision == EmptyDecision(input.purpose)
  {
    var def := Payloadless(input.purpose);
    PayloadlessReads(input.purpose);
    PayloadlessShort(input.purpose);
    PurposeReadsBack(input.purpose);
    SeverityReads();
    hide Payloadless, Get, PlainText, UnitLength, ReadPurpose, ReadEffectType, CanonicalInput, Merged;
    assert Rules(def) == [];
    assert Matched(Rules(def), input.facts) == [];
    DefaultDoesNothingIff(collate, input, def, SetRecommendedSeverity);
  }

  lemma SeverityReads()
    ensures ReadEffectType(Str("SET_RECOMMENDED_SEVERITY")) == Some(SetRecommendedSeverity)
  {
  }

  lemma PayloadlessReads(p: Purpose)
    ensures var def := Payloadless(p);
      && IsObject(def) && Get(def, "schemaVersion") == Num(FromInt(1)) && Get(def, "purpose") == Str(PurposeName(p))
      && Get(def, "defaultEffect") == Str("SET_RECOMMENDED_SEVERITY") && Get(def, "rules") == Arr([])
  {
    hide PurposeName, FromInt;
    var fs := Payloadless(p).fields;
    assert fs[1..][0] == fs[1] && fs[1..][1..][0] == fs[2] && fs[1..][1..][1..][0] == fs[3];
  }

  lemma {:induction false} QuoteShort(s: string)
    ensures |Quote(s)| <= 6 * |s| + 2
  {
    EscapeShort(s);
  }

  lemma {:induction false} EscapeShort(s: string)
    ensures |Escape(s)| <= 6 * |s|
  {
    if s != [] { EscapeShort(s[1..]); }
  }

  lemma {:induction false} UnitsShort(s: string)
    ensures UnitLength(s) <= 2 * |s|
  {
    if s != [] { UnitsShort(s[1..]); }
  }

  lemma PayloadlessShort(p: Purpose)
    ensures UnitLength(PlainText(Payloadless(p))) <= MAX_BYTES
  {
    hide Quote, NumText, PurposeName, FromInt, PlainFields;
    var f0, f1 := Field("schemaVersion", Num(FromInt(1))), Field("purpose", Str(PurposeName(p)));
    var f2, f3 := Field("defaultEffect", Str("SET_RECOMMENDED_SEVERITY")), Field("rules", Arr([]));
    assert Payloadless(p).fields == [f0] + ([f1] + ([f2] + [f3]));
    PlainFieldsOne(f3);
    PlainFieldsCons(f2, [f3]);
    PlainFieldsCons(f1, [f2] + [f3]);
    PlainFieldsCons(f0, [f1] + ([f2] + [f3]));
    QuoteShort("schemaVersion");
    QuoteShort("purpose");
    QuoteShort("defaultEffect");
    QuoteShort("rules");
    QuoteShort("SET_RECOMMENDED_SEVERITY");
    QuoteShort(PurposeName(p));
    ShortNames(p);
    UnitsShort(PlainText(Payloadless(p)));
  }

  lemma ShortNames(p: Purpose)
    ensures |PurposeName(p)| <= 30 && |NumText(FromInt(1))| == 1
  {
    assert Digits(1) == "1";
  }

  lemma DefaultReads(def: Json)
    ensures TypeOf(DefaultEffect(def)) == ReadEffectType(Get(def, "defaultEffect"))
    ensures forall k :: Entry(DefaultEffect(def), k) == Undefined
  {
    hide ReadEffectType;
    var fs := DefaultEffect(def).fields;
    assert fs[1..] == [];
  }

  lemma PayloadlessDoesNothing(e: Json)
    requires forall k :: Entry(e, k) == Undefined
    ensures Actions([e]) == [] && Bounds([e]) == [] && !Automatic([e])
    ensures forall t, key, order :: Highest([e], t, key, order) == None
  {
    hide Is;
    assert [e][..0] == [];
  }
}
