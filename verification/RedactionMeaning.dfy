/** What each action, the order of rules, the registry and the recorded summary mean for the redacted payload, written out. */
module RedactionMeaning {
  import opened Optional
  import opened Sorting
  import opened Strings
  import opened JsonTree
  import opened JsonPaths
  import opened Redaction

  // ---------------------------------------------------------------- actions

  /** Every rule of this stretch that names the path only keeps it. */
  ghost predicate OnlyKept(rules: seq<Rule>, path: Path, from: nat, to: nat)
    requires from <= to <= |rules|
  {
    forall j :: from <= j < to && rules[j].path == path ==> rules[j].action == Keep
  }

  ghost predicate NotRemoved(rules: seq<Rule>, path: Path, n: nat)
    requires n <= |rules|
  {
    forall j :: 0 <= j < n && rules[j].path == path ==> rules[j].action != Remove
  }

  lemma {:induction false} PresentStays(rules: seq<Rule>, path: Path, v: Json, n: nat)
    requires n <= |rules| && NotRemoved(rules, path, n)
    ensures TreatedAll(rules[..n], path, v) == Undefined <==> v == Undefined
    decreases n
  {
    hide FieldOf, Mask, ToText;
    if n > 0 {
      PresentStays(rules, path, v, n - 1);
      assert rules[..n][..n - 1] == rules[..n - 1];
    }
  }

  lemma {:induction false} KeptStays(rules: seq<Rule>, path: Path, v: Json, k: nat, n: nat)
    requires k <= n <= |rules| && OnlyKept(rules, path, k, n)
    ensures TreatedAll(rules[..n], path, v) == TreatedAll(rules[..k], path, v)
    decreases n
  {
    hide FieldOf, Mask, ToText;
    if n > k {
      KeptStays(rules, path, v, k, n - 1);
      assert rules[..n][..n - 1] == rules[..n - 1];
    }
  }

  lemma AtRule(rules: seq<Rule>, field: FieldSpec, v: Json, k: nat)
    requires k < |rules| && FieldOf(rules[k].path) == Some(field) && OnlyKept(rules, rules[k].path, k + 1, |rules|)
    ensures TreatedAll(rules, rules[k].path, v) == Treated(rules[k], field, TreatedAll(rules[..k], rules[k].path, v))
  {
    hide FieldOf, Treated;
    KeptStays(rules, rules[k].path, v, k + 1, |rules|);
    assert rules[..|rules|] == rules && rules[..k + 1][..k] == rules[..k];
  }

  lemma RegisteredLocation(source: Json, rules: seq<Rule>, payload: Json, i: nat, loc: Loc)
    requires Produces(source, rules, payload) && i < |REGISTRY| && Matches(REGISTRY[i].path, loc)
    ensures FieldOf(REGISTRY[i].path) == Some(REGISTRY[i]) && !REGISTRY[i].requiredInFinal
    ensures At(payload, loc) == TreatedAll(InOrder(rules), REGISTRY[i].path, At(Clone(source), loc))
  {
    hide FieldOf, Matches, Produces, Clone, InOrder, TreatedAll, At, Apart, NotBelow, OutsideOmissions;
    RegistryFinds(i);
    RegistryShape(i);
    TargetsOutsideOmissions(REGISTRY[i].path, loc);
    PayloadLocations(source, rules, payload, loc);
  }

  /** What the last rule acting on a path leaves at each of its places: a replacement its own marker or the
      registry's, a removal nothing, a mask alone on the path the mask of the original. */
  lemma LastActionDecides(source: Json, rules: seq<Rule>, payload: Json, i: nat, loc: Loc, k: nat)
    requires Produces(source, rules, payload) && i < |REGISTRY| && Matches(REGISTRY[i].path, loc)
    requires k < |InOrder(rules)| && InOrder(rules)[k].path == REGISTRY[i].path
    requires OnlyKept(InOrder(rules), REGISTRY[i].path, k + 1, |InOrder(rules)|)
    ensures var rule, v, w := InOrder(rules)[k], At(Clone(source), loc), At(payload, loc);
      && (v == Undefined ==> w == Undefined)
      && (rule.action == Remove ==> w == Undefined)
      && (rule.action == ReplaceWithLabel && v != Undefined && NotRemoved(InOrder(rules), REGISTRY[i].path, k) ==>
            w == Str(if rule.marker.Some? then rule.marker.value else REGISTRY[i].defaultMarker))
      && (rule.action == MaskIdentifier && v != Undefined && OnlyKept(InOrder(rules), REGISTRY[i].path, 0, k) ==>
            w == if v == Null then Null else Str(Mask(ToText(v))))
  {
    hide FieldOf, Matches, Produces, Clone, InOrder, At, Mask, ToText;
    var ordered, path, v := InOrder(rules), REGISTRY[i].path, At(Clone(source), loc);
    RegisteredLocation(source, rules, payload, i, loc);
    AtRule(ordered, REGISTRY[i], v, k);
    if NotRemoved(ordered, path, k) { PresentStays(ordered, path, v, k); }
    AbsentStays(ordered, path, v);
    if OnlyKept(ordered, path, 0, k) {
      KeptStays(ordered, path, v, 0, k);
      assert ordered[..0] == [];
    }
  }

  lemma {:induction false} AbsentStays(rules: seq<Rule>, path: Path, v: Json)
    ensures v == Undefined ==> TreatedAll(rules, path, v) == Undefined
  {
    hide FieldOf, Mask, ToText;
    if rules != [] { AbsentStays(rules[..|rules| - 1], path, v); }
  }

  lemma {:induction false} RemovedForGood(rules: seq<Rule>, path: Path, v: Json, k: nat)
    requires k < |rules| && rules[k].path == path && rules[k].action == Remove
    requires FieldOf(path).Some? && !FieldOf(path).value.requiredInFinal
    ensures TreatedAll(rules, path, v) == Undefined
  {
    hide FieldOf, Mask, ToText;
    var n := |rules| - 1;
    if k < n { RemovedForGood(rules[..n], path, v, k); }
  }

  /** One rule on a path, as its author reads it. */
  lemma OneRuleDecides(source: Json, rules: seq<Rule>, payload: Json, i: nat, loc: Loc, rule: Rule)
    requires Produces(source, rules, payload) && DistinctPaths(rules) && rule in rules
    requires i < |REGISTRY| && rule.path == REGISTRY[i].path && Matches(rule.path, loc)
    ensures var v, w := At(Clone(source), loc), At(payload, loc);
      && (v == Undefined ==> w == Undefined)
      && (rule.action == Remove ==> w == Undefined)
      && (rule.action == ReplaceWithLabel && v != Undefined && rule.marker.Some? ==> w == Str(rule.marker.value))
      && (rule.action == ReplaceWithLabel && v != Undefined && rule.marker.None? ==> w == Str(REGISTRY[i].defaultMarker))
      && (rule.action == MaskIdentifier && v == Null ==> w == Null)
      && (rule.action == MaskIdentifier && v != Undefined && v != Null ==> w == Str(Mask(ToText(v))))
      && (rule.action == Keep ==> w == v)
  {
    hide FieldOf, Matches, Produces, Clone, InOrder, At, Mask, ToText;
    InOrderSame(rules);
    var ordered := InOrder(rules);
    var k :| 0 <= k < |ordered| && ordered[k] == rule;
    assert forall j :: 0 <= j < |ordered| && j != k ==> ordered[j].path != rule.path;
    hide DistinctPaths;
    LastActionDecides(source, rules, payload, i, loc, k);
    if rule.action == Keep {
      RegisteredLocation(source, rules, payload, i, loc);
      KeptStays(ordered, rule.path, At(Clone(source), loc), 0, |ordered|);
      assert ordered[..0] == [] && ordered[..|ordered|] == ordered;
    }
  }

  /** A place whose path some rule removes is gone, whatever other rules say of it. */
  lemma RemovalWins(source: Json, rules: seq<Rule>, payload: Json, i: nat, loc: Loc, rule: Rule)
    requires Produces(source, rules, payload) && rule in rules && rule.action == Remove
    requires i < |REGISTRY| && rule.path == REGISTRY[i].path && Matches(rule.path, loc)
    ensures At(payload, loc) == Undefined
  {
    hide FieldOf, Matches, Produces, Clone, InOrder, At;
    InOrderSame(rules);
    var k :| 0 <= k < |InOrder(rules)| && InOrder(rules)[k] == rule;
    RegisteredLocation(source, rules, payload, i, loc);
    RemovedForGood(InOrder(rules), rule.path, At(Clone(source), loc), k);
  }

  /** A mask shows the first and last character of up to eight, the first and last four of more, and bullets between. */
  lemma MaskShows(v: string)
    ensures v == "" ==> Mask(v) == "•"
    ensures 1 <= |v| <= 8 ==>
      && |Mask(v)| == 2 + (if |v| <= 3 then 1 else |v| - 2) && Mask(v)[0] == v[0] && Mask(v)[|Mask(v)| - 1] == v[|v| - 1]
      && forall j :: 1 <= j < |Mask(v)| - 1 ==> Mask(v)[j] == '•'
    ensures |v| > 8 ==>
      && |Mask(v)| == 12 && Mask(v)[..4] == v[..4] && Mask(v)[8..] == v[|v| - 4..]
      && forall j :: 4 <= j < 8 ==> Mask(v)[j] == '•'
  {
    if v == "" { assert Mask(v) == "" + Repeat('•', 1) + ""; }
  }

  // ---------------------------------------------------------------- order, registry, summary

  /** Rules apply by ascending order number; rules with the same number as they are listed. */
  lemma RulesInOrder(rules: seq<Rule>, number: int)
    ensures var ordered := InOrder(rules);
      && multiset(ordered) == multiset(rules)
      && (forall i, j :: 0 <= i < j < |ordered| ==> ordered[i].order <= ordered[j].order)
      && Filter((r: Rule) => r.order == number, ordered) == Filter((r: Rule) => r.order == number, rules)
  {
    SortPermutes(OrderLe, rules);
    SortSorts(OrderLe, rules);
    SortStable(OrderLe, rules, (r: Rule) => r.order == number);
  }

  /** The fields of the registry by their texts, with classification and default marker. */
  lemma RegistryReads()
    ensures |REGISTRY| == 11 && forall i :: 0 <= i < 11 ==> !REGISTRY[i].requiredInFinal
    ensures REGISTRY[0].classification == HighlySensitive && REGISTRY[0].defaultMarker == "REDACTED_MINOR_DATA"
    ensures REGISTRY[3].classification == Sensitive && REGISTRY[3].defaultMarker == "REDACTED_PERSONAL_DATA"
    ensures forall i :: 0 <= i < 11 && i != 0 && i != 3 ==> REGISTRY[i].classification == Internal && REGISTRY[i].defaultMarker == "REDACTED_INTERNAL"
  {
  }

  lemma PairText(a: string, b: string)
    ensures PathText(P1(a, b)) == a + "." + b && PathText(Each(a, b)) == a + "[*]." + b
  {
    JoinPair(".", a, b);
    JoinPair(".", a + "[*]", b);
    assert SegmentTexts(P1(a, b)) == [a, b] && SegmentTexts(Each(a, b)) == [a + "[*]", b];
    assert a + "[*]" + "." + b == a + "[*]." + b;
  }

  lemma InnerText(a: string, p: Path)
    requires p != []
    ensures PathText(In(a, p)) == a + "." + PathText(p)
  {
    assert SegmentTexts(In(a, p)) == [a] + SegmentTexts(p) && ([a] + SegmentTexts(p))[1..] == SegmentTexts(p);
  }

  lemma RegistryTexts()
    ensures PathText(REGISTRY[0].path) == "protectedSubject" + "." + "displayLabel"
    ensures PathText(REGISTRY[1].path) == "assignments" + "." + "primaryReviewerUserId"
    ensures PathText(REGISTRY[2].path) == "assignments" + "." + ("participants" + "[*]." + "userId")
    ensures PathText(REGISTRY[3].path) == "assignments" + "." + ("participants" + "[*]." + "subjectLabel")
    ensures PathText(REGISTRY[4].path) == "detections" + "[*]." + "confidence"
    ensures PathText(REGISTRY[5].path) == "evidenceInventory" + "[*]." + "submittedByUserId"
    ensures PathText(REGISTRY[6].path) == "custodySummary" + "[*]." + "actorUserId"
    ensures PathText(REGISTRY[7].path) == "chronology" + "[*]." + "actorUserId"
    ensures PathText(REGISTRY[8].path) == "caseManagement" + "." + ("tasks" + "[*]." + "assigneeUserId")
    ensures PathText(REGISTRY[9].path) == "slaAndEscalation" + "." + ("activeEscalation" + "." + "targetUserId")
    ensures PathText(REGISTRY[10].path) == "slaAndEscalation" + "." + ("activeEscalation" + "." + "escalatedByUserId")
  {
    hide PathText;
    PairText("protectedSubject", "displayLabel");
    PairText("assignments", "primaryReviewerUserId");
    InnerText("assignments", Each("participants", "userId"));
    PairText("participants", "userId");
    InnerText("assignments", Each("participants", "subjectLabel"));
    PairText("participants", "subjectLabel");
    PairText("detections", "confidence");
    PairText("evidenceInventory", "submittedByUserId");
    PairText("custodySummary", "actorUserId");
    PairText("chronology", "actorUserId");
    InnerText("caseManagement", Each("tasks", "assigneeUserId"));
    PairText("tasks", "assigneeUserId");
    InnerText("slaAndEscalation", P1("activeEscalation", "targetUserId"));
    PairText("activeEscalation", "targetUserId");
    InnerText("slaAndEscalation", P1("activeEscalation", "escalatedByUserId"));
    PairText("activeEscalation", "escalatedByUserId");
  }

  /** The location of the field k. */
  predicate FieldUnder(p: Path, k: string, loc: Loc, l: Loc) { Matches(p, l) && loc == l + [Key(k)] }

  lemma KeyMatches(p: Path, k: string, loc: Loc)
    ensures Matches(p + [Seg(k, false)], loc) <==> exists l :: FieldUnder(p, k, loc, l)
  {
    var q, n := p + [Seg(k, false)], |loc|;
    assert q[..|q| - 1] == p;
    if Matches(q, loc) {
      assert loc == loc[..n - 1] + [Key(k)];
      assert FieldUnder(p, k, loc, loc[..n - 1]);
    }
    if l :| FieldUnder(p, k, loc, l) { assert loc[..n - 1] == l && loc[n - 1] == Key(k); }
  }

  /** A location of an item of the list under k. */
  predicate ItemUnder(p: Path, k: string, loc: Loc, l: Loc, i: nat) { Matches(p, l) && loc == l + [Key(k), Index(i)] }

  lemma ItemMatches(p: Path, k: string, loc: Loc)
    ensures Matches(p + [Seg(k, true)], loc) <==> exists l, i :: ItemUnder(p, k, loc, l, i)
  {
    var q, n := p + [Seg(k, true)], |loc|;
    assert q[..|q| - 1] == p;
    if Matches(q, loc) {
      assert loc == loc[..n - 2] + [Key(k), Index(loc[n - 1].i)];
      assert ItemUnder(p, k, loc, loc[..n - 2], loc[n - 1].i);
    }
    if l, i :| ItemUnder(p, k, loc, l, i) { assert loc[..n - 2] == l && loc[n - 2] == Key(k) && loc[n - 1] == Index(i); }
  }

  /** The places a path stands for: a key leads to a field, a wildcard to each item of the list under its key. */
  lemma MatchForms(p: Path, k: string, loc: Loc)
    ensures Matches([], loc) <==> loc == []
    ensures Matches(p + [Seg(k, false)], loc) <==> exists l :: FieldUnder(p, k, loc, l)
    ensures Matches(p + [Seg(k, true)], loc) <==> exists l, i :: ItemUnder(p, k, loc, l, i)
  {
    KeyMatches(p, k, loc);
    ItemMatches(p, k, loc);
    assert Matches([], loc) <==> loc == [];
    hide Matches;
  }

  /** Reading a place, step by step. */
  lemma AtForms(v: Json, loc: Loc, k: string, i: nat)
    ensures At(v, []) == v
    ensures At(v, loc + [Key(k)]) == Get(At(v, loc), k)
    ensures At(v, loc + [Index(i)]) == if At(v, loc).Arr? && i < |At(v, loc).items| then At(v, loc).items[i] else Undefined
  {
    AtConcat(v, loc, [Key(k)]);
    AtConcat(v, loc, [Index(i)]);
    assert [Key(k)][1..] == [] && [Index(i)][1..] == [];
  }

  /** An omission entry names the path by its text and gives one reason. */
  lemma OmissionReads(path: Path)
    ensures OmissionEntry(path).Obj? && Keys(OmissionEntry(path).fields) == ["path", "reason"]
    ensures Get(OmissionEntry(path), "path") == Str(PathText(path)) && Get(OmissionEntry(path), "reason") == Str("UNSUPPORTED_FIELD")
  {
    hide PathText;
    assert OmissionEntry(path).fields[1..][0] == Field("reason", Str("UNSUPPORTED_FIELD"));
  }

  /** The summary lists, per action, the registered paths of the rules with that action, and counts all rules. */
  lemma SummaryReads(rules: seq<Rule>, p: Path)
    ensures var s := SummaryOf(rules);
      && s.ruleCount == |rules|
      && (p in s.removed <==> Registered(p) && exists r :: r in rules && r.path == p && r.action == Remove)
      && (p in s.replaced <==> Registered(p) && exists r :: r in rules && r.path == p && r.action == ReplaceWithLabel)
      && (p in s.masked <==> Registered(p) && exists r :: r in rules && r.path == p && r.action == MaskIdentifier)
      && (p in s.kept <==> Registered(p) && exists r :: r in rules && r.path == p && r.action == Keep)
    ensures Registered(p) <==> exists i :: 0 <= i < |REGISTRY| && REGISTRY[i].path == p
  {
    hide PathsWith, Classes, FieldAt;
    PathsWithAre(rules, Remove, p);
    PathsWithAre(rules, ReplaceWithLabel, p);
    PathsWithAre(rules, MaskIdentifier, p);
    PathsWithAre(rules, Keep, p);
    FieldAtFinds(p, |REGISTRY|);
  }

  /** And each classification that some registered rule touches, once. */
  lemma {:induction false} ClassesAre(rules: seq<Rule>)
    ensures Distinct(Classes(rules))
    ensures forall c :: c in Classes(rules) <==> exists r :: r in rules && FieldOf(r.path).Some? && FieldOf(r.path).value.classification == c
  {
    hide FieldOf;
    if rules != [] {
      var n := |rules| - 1;
      ClassesAre(rules[..n]);
      assert rules == rules[..n] + [rules[n]] && rules[n] in rules;
    }
  }

  /** The lists of the summary stand in the order of the rules: more rules only add at the end. */
  lemma {:induction false} SummaryInOrder(rules: seq<Rule>, action: Action, k: nat)
    requires k <= |rules|
    ensures Classes(rules[..k]) <= Classes(rules) && PathsWith(rules[..k], action) <= PathsWith(rules, action)
  {
    hide FieldOf;
    if k < |rules| {
      var n := |rules| - 1;
      SummaryInOrder(rules[..n], action, k);
      assert rules[..n][..k] == rules[..k];
    } else {
      assert rules[..k] == rules;
    }
  }

  // ---------------------------------------------------------------- the clone and the unresolved fields

  predicate Present(f: Field) { f.val != Undefined }

  lemma {:induction false} CloneKeys(fs: seq<Field>)
    ensures Keys(CloneFields(fs)) == Keys(Filter(Present, fs))
  {
    hide Clone, Filter;
    if fs == [] {
      assert Filter(Present, fs) == [];
    } else {
      CloneKeys(fs[1..]);
      FilterConcat(Present, [fs[0]], fs[1..]);
      OnlyIfKept(Present, fs[0]);
      assert fs == [fs[0]] + fs[1..];
      if Present(fs[0]) {
        KeysCons(fs[0], Filter(Present, fs[1..]));
        KeysCons(Field(fs[0].key, Clone(fs[0].val)), CloneFields(fs[1..]));
      } else {
        assert [] + Filter(Present, fs[1..]) == Filter(Present, fs[1..]) && [] + CloneFields(fs[1..]) == CloneFields(fs[1..]);
      }
    }
  }

  /** What the clone keeps: the keys of the fields that are present, in their order, and null for what JSON cannot hold. */
  lemma CloneForms(fs: seq<Field>, negative: bool)
    ensures Clone(Undefined) == Clone(NaN) == Clone(Infinity(negative)) == Clone(Null) == Null
    ensures forall v: Json :: v.Bool? || v.Num? || v.Str? ==> Clone(v) == v
    ensures Clone(Obj(fs)).Obj? && Keys(Clone(Obj(fs)).fields) == Keys(Filter(Present, fs))
  {
    CloneKeys(fs);
    hide CloneFields, Filter;
  }

  /** Somewhere in the source the path leads to more than null. */
  ghost predicate Holds(source: Json, path: Path) {
    exists loc :: Matches(path, loc) && At(source, loc) != Undefined && At(source, loc) != Null
  }

  /** Only two fields are sensitive, and each is listed exactly when it is present and no rule covers it. */
  lemma UnresolvedReads(source: Json, covered: seq<Path>, highly: seq<Path>, sensitive: seq<Path>, p: Path)
    requires Lists(highly, HighlySensitive, source, covered, |REGISTRY|) && Lists(sensitive, Sensitive, source, covered, |REGISTRY|)
    ensures p in highly <==> p == P1("protectedSubject", "displayLabel") && p !in covered && Holds(source, p)
    ensures p in sensitive <==> p == In("assignments", Each("participants", "subjectLabel")) && p !in covered && Holds(source, p)
  {
    hide Matches, At;
    RegistryReads();
    assert Entry(0, 11, HighlySensitive, REGISTRY[0].path) && Entry(3, 11, Sensitive, REGISTRY[3].path);
    UnresolvedIff(source, covered, REGISTRY[0]);
    UnresolvedIff(source, covered, REGISTRY[3]);
    hide Unresolved, Holds;
    assert Entry(0, 11, HighlySensitive, REGISTRY[0].path) && Entry(3, 11, Sensitive, REGISTRY[3].path);
  }

  lemma UnresolvedIff(source: Json, covered: seq<Path>, f: FieldSpec)
    ensures Unresolved(source, covered, f) <==>
      (f.classification == Sensitive || f.classification == HighlySensitive) && f.path !in covered && Holds(source, f.path)
  {
    hide Matches, At;
    if loc :| PresentAt(source, f.path, loc) {}
    if loc :| Matches(f.path, loc) && At(source, loc) != Undefined && At(source, loc) != Null { assert PresentAt(source, f.path, loc); }
  }

  // ---------------------------------------------------------------- writing

  predicate Other(f: Field, k: string) { f.key != k }

  /** A field that is overwritten keeps its place among the keys; a deleted one leaves the others in theirs. */
  lemma WritesInPlace(fs: seq<Field>, k: string, x: Json)
    requires Find(fs, k) != Undefined && x != Undefined
    ensures Put(Obj(fs), [Key(k)], x) == Obj(SetField(fs, k, x)) && Keys(SetField(fs, k, x)) == Keys(fs)
    ensures Put(Obj(fs), [Key(k)], Undefined) == Obj(Filter((f: Field) => Other(f, k), fs))
  {
    hide Find;
    SetFieldKeys(fs, k, x);
    WithoutIsFilter(fs, k);
    assert [Key(k)][1..] == [];
  }

  lemma {:induction false} WithoutIsFilter(fs: seq<Field>, k: string)
    ensures Without(fs, k) == Filter((f: Field) => Other(f, k), fs)
  {
    if fs != [] {
      WithoutIsFilter(fs[1..], k);
      FilterConcat((f: Field) => Other(f, k), [fs[0]], fs[1..]);
      OnlyIfKept((f: Field) => Other(f, k), fs[0]);
      assert fs == [fs[0]] + fs[1..];
    }
  }
}
