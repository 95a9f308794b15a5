/** Redacting a compliance payload by rules over a registry of wildcard paths. */
module Redaction {
  import opened Optional
  import opened Sorting
  import opened Strings
  import opened JsonTree
  import opened JsonPaths

  datatype Action = Remove | ReplaceWithLabel | MaskIdentifier | Keep
  datatype Classification = PublicSafe | Internal | Sensitive | HighlySensitive

  datatype FieldSpec = FieldSpec(path: Path, classification: Classification, requiredInFinal: bool, defaultMarker: string)

  function P1(a: string, b: string): Path { [Seg(a, false), Seg(b, false)] }
  function Each(a: string, b: string): Path { [Seg(a, true), Seg(b, false)] }
  function In(a: string, p: Path): Path { [Seg(a, false)] + p }

  const PERSONAL := "REDACTED_PERSONAL_DATA"
  const MINOR := "REDACTED_MINOR_DATA"
  const INTERNAL := "REDACTED_INTERNAL"

  /** The redactable fields of the payload. */
  const REGISTRY: seq<FieldSpec> := [
    FieldSpec(P1("protectedSubject", "displayLabel"), HighlySensitive, false, MINOR),
    FieldSpec(P1("assignments", "primaryReviewerUserId"), Internal, false, INTERNAL),
    FieldSpec(In("assignments", Each("participants", "userId")), Internal, false, INTERNAL),
    FieldSpec(In("assignments", Each("participants", "subjectLabel")), Sensitive, false, PERSONAL),
    FieldSpec(Each("detections", "confidence"), Internal, false, INTERNAL),
    FieldSpec(Each("evidenceInventory", "submittedByUserId"), Internal, false, INTERNAL),
    FieldSpec(Each("custodySummary", "actorUserId"), Internal, false, INTERNAL),
    FieldSpec(Each("chronology", "actorUserId"), Internal, false, INTERNAL),
    FieldSpec(In("caseManagement", Each("tasks", "assigneeUserId")), Internal, false, INTERNAL),
    FieldSpec(In("slaAndEscalation", P1("activeEscalation", "targetUserId")), Internal, false, INTERNAL),
    FieldSpec(In("slaAndEscalation", P1("activeEscalation", "escalatedByUserId")), Internal, false, INTERNAL)
  ]

  const OMISSIONS: Path := [Seg("omissions", false)]

  function FieldAt(path: Path, n: nat): Option<FieldSpec>
    requires n <= |REGISTRY|
  {
    if n == 0 then None else if REGISTRY[n - 1].path == path then Some(REGISTRY[n - 1]) else FieldAt(path, n - 1)
  }

  /** The registry entry of a path. */
  function FieldOf(path: Path): Option<FieldSpec> { FieldAt(path, |REGISTRY|) }

  // ---------------------------------------------------------------- masking

  function Mask(v: string): string {
    if |v| <= 8 then v[..if |v| < 1 then |v| else 1] + Repeat('•', if |v| - 2 > 1 then |v| - 2 else 1) + v[if |v| < 1 then 0 else |v| - 1..]
    else v[..4] + Repeat('•', 4) + v[|v| - 4..]
  }

  /** A mask cannot be reversed exactly when it masks anything: every identifier but the empty one shares
      its mask with another. */
  lemma MaskHidesIff(v: string)
    ensures (exists w: string :: w != v && Mask(w) == Mask(v)) <==> v != ""
  {
    if |v| >= 3 {
      MaskHidesAmongLengthIff(v);
    } else if v != "" {
      var w := [v[0], 'x', v[|v| - 1]];
      assert Mask(w) == w[..1] + Repeat('•', 1) + w[2..] && Mask(v) == v[..1] + Repeat('•', 1) + v[|v| - 1..];
      assert w[..1] == v[..1] && w[2..] == v[|v| - 1..];
      assert |w| != |v|;
    } else {
      assert Mask("") == "" + Repeat('•', 1) + "";
      forall w: string | w != "" ensures Mask(w) != Mask("") { MaskLength(w); }
      MaskLength("");
    }
  }

  /** The mask grows with its identifier, from one character to a bound of twelve. */
  lemma MaskLength(v: string)
    ensures |Mask(v)| == if v == "" then 1 else if |v| <= 2 then 3 else if |v| <= 8 then |v| else 12
  {
    RepeatLength('•', if |v| > 8 then 4 else if |v| - 2 > 1 then |v| - 2 else 1);
  }

  lemma {:induction false} RepeatLength(c: char, n: nat)
    ensures |Repeat(c, n)| == n
  {
    if n > 0 { RepeatLength(c, n - 1); }
  }

  /** Among identifiers of one length it hides exactly those of three characters or more: of shorter ones it shows every character. */
  lemma MaskHidesAmongLengthIff(v: string)
    ensures (exists w: string :: |w| == |v| && w != v && Mask(w) == Mask(v)) <==> |v| >= 3
  {
    if |v| >= 3 {
      var i := if |v| <= 8 then 1 else 4;
      var w := v[i := if v[i] == 'a' then 'b' else 'a'];
      assert w[i] != v[i];
      if |v| <= 8 {
        assert w[..1] == v[..1] && w[|v| - 1..] == v[|v| - 1..];
      } else {
        assert w[..4] == v[..4] && w[|v| - 4..] == v[|v| - 4..];
      }
      assert Mask(w) == Mask(v);
    } else {
      forall w: string | |w| == |v| && Mask(w) == Mask(v) ensures w == v {
        if |v| >= 1 {
          var m, n := Mask(w), Mask(v);
          assert m[0] == w[0] && n[0] == v[0];
          assert m[|m| - 1] == w[|w| - 1] && n[|n| - 1] == v[|v| - 1];
        }
      }
    }
  }

  // ---------------------------------------------------------------- the deep clone

  /** JSON.parse(JSON.stringify(v)): absent fields are dropped, and what JSON cannot hold becomes null. */
  function Clone(v: Json): Json
    decreases v, 0
  {
    match v
    case Undefined => Null
    case NaN => Null
    case Infinity(_) => Null
    case Arr(items) => Arr(CloneItems(items))
    case Obj(fs) => Obj(CloneFields(fs))
    case _ => v
  }

  function CloneItems(items: seq<Json>): (r: seq<Json>)
    ensures |r| == |items| && forall i :: 0 <= i < |items| ==> r[i] == Clone(items[i])
    decreases items, 0
  {
    if items == [] then [] else [Clone(items[0])] + CloneItems(items[1..])
  }

  function CloneFields(fs: seq<Field>): seq<Field>
    decreases fs, 0
  {
    if fs == [] then []
    else (if fs[0].val == Undefined then [] else [Field(fs[0].key, Clone(fs[0].val))]) + CloneFields(fs[1..])
  }

  /** What JSON text can hold. */
  ghost predicate JsonValue(v: Json) {
    match v
    case Undefined => false
    case NaN => false
    case Infinity(_) => false
    case Arr(items) => forall i :: 0 <= i < |items| ==> JsonValue(items[i])
    case Obj(fs) => forall i :: 0 <= i < |fs| ==> JsonValue(fs[i].val)
    case _ => true
  }

  lemma {:induction false} CloneIsIdentity(v: Json)
    requires JsonValue(v)
    ensures Clone(v) == v
    decreases v, 1
  {
    match v
    case Arr(items) => forall i | 0 <= i < |items| ensures Clone(items[i]) == items[i] { CloneIsIdentity(items[i]); }
    case Obj(fs) => CloneFieldsIdentity(fs);
    case _ =>
  }

  lemma {:induction false} CloneFieldsIdentity(fs: seq<Field>)
    requires forall i :: 0 <= i < |fs| ==> JsonValue(fs[i].val)
    ensures CloneFields(fs) == fs
    decreases fs, 0
  {
    if fs != [] {
      CloneIsIdentity(fs[0].val);
      CloneFieldsIdentity(fs[1..]);
    }
  }

  predicate Nullary(v: Json) { v.Undefined? || v.Null? }

  lemma {:induction false} CloneFieldsFind(fs: seq<Field>, k: string)
    requires Distinct(Keys(fs))
    ensures Find(CloneFields(fs), k) == if Find(fs, k) == Undefined then Undefined else Clone(Find(fs, k))
  {
    if fs != [] {
      assert fs == [fs[0]] + fs[1..];
      KeysCons(fs[0], fs[1..]);
      assert Keys(fs)[1..] == Keys(fs[1..]);
      CloneFieldsFind(fs[1..], k);
      var rest := CloneFields(fs[1..]);
      assert [] + rest == rest;
      var head := Field(fs[0].key, Clone(fs[0].val));
      assert ([head] + rest)[1..] == rest;
      if fs[0].key == k {
        assert k !in Keys(fs[1..]) by { HeadKeyOnce(fs); }
      }
    }
  }

  lemma HeadKeyOnce(fs: seq<Field>)
    requires fs != [] && Distinct(Keys(fs))
    ensures fs[0].key !in Keys(fs[1..])
  {
    assert Keys(fs)[0] == fs[0].key && Keys(fs)[1..] == Keys(fs[1..]);
  }

  /** The clone has a value wherever the source has one, and at most nulls elsewhere. */
  lemma {:induction false} CloneAt(v: Json, loc: Loc)
    requires WellFormed(v)
    ensures At(v, loc) != Undefined ==> At(Clone(v), loc) == Clone(At(v, loc))
    ensures At(v, loc) == Undefined ==> Nullary(At(Clone(v), loc))
    decreases |loc|
  {
    if loc != [] {
      var d := Down(v, loc[0]);
      if loc[0].Key? && v.Obj? { CloneFieldsFind(v.fields, loc[0].k); }
      NothingBelow(loc[1..]);
      NullHasNothing(loc[1..]);
      if d != Undefined { CloneAt(d, loc[1..]); }
    }
  }

  lemma {:induction false} NullHasNothing(loc: Loc)
    ensures Nullary(At(Null, loc))
  {
    if loc != [] { NothingBelow(loc[1..]); }
  }

  // ---------------------------------------------------------------- rules

  datatype Rule = Rule(path: Path, action: Action, marker: Option<string>, order: int)

  predicate OrderLe(a: Rule, b: Rule) { a.order <= b.order }

  function MarkerOf(rule: Rule, field: FieldSpec): string { if rule.marker.Some? then rule.marker.value else field.defaultMarker }

  /** What an action makes of the value it finds. */
  function Treated(rule: Rule, field: FieldSpec, v: Json): Json {
    if v == Undefined then Undefined
    else match rule.action
      case Remove => if field.requiredInFinal then v else Undefined
      case ReplaceWithLabel => Str(MarkerOf(rule, field))
      case MaskIdentifier => if v == Null then Null else Str(Mask(ToText(v)))
      case Keep => v
  }

  /** What the rules, in order, make of a value at a location of this path. */
  function TreatedAll(rules: seq<Rule>, path: Path, v: Json): Json {
    if rules == [] then v
    else
      var n := |rules| - 1;
      var w := TreatedAll(rules[..n], path, v);
      if rules[n].path == path && FieldOf(path).Some? then Treated(rules[n], FieldOf(path).value, w) else w
  }

  predicate Registered(path: Path) { FieldOf(path).Some? }

  predicate Above(l: Loc, m: Loc) { l <= m }

  /** No location of the path lies above, below or at this one. */
  ghost predicate ApartFrom(path: Path, loc: Loc) { forall l :: Matches(path, l) ==> !Comparable(l, loc) }

  /** No location of the path lies above or at this one. */
  ghost predicate NotUnder(path: Path, loc: Loc) { forall l :: Matches(path, l) ==> !Above(l, loc) }

  ghost predicate Apart(rules: seq<Rule>, loc: Loc) {
    forall i :: 0 <= i < |rules| && Registered(rules[i].path) ==> ApartFrom(rules[i].path, loc)
  }

  ghost predicate NotBelow(rules: seq<Rule>, loc: Loc) {
    forall i :: 0 <= i < |rules| && Registered(rules[i].path) ==> NotUnder(rules[i].path, loc)
  }

  /** after is before with every targeted location treated, every place beside the targets equal, and
      every place not below a target of the same shape. */
  ghost predicate Redacted(before: Json, after: Json, rules: seq<Rule>) {
    && (forall path, loc :: Registered(path) && Matches(path, loc) ==> At(after, loc) == TreatedAll(rules, path, At(before, loc)))
    && (forall loc :: Apart(rules, loc) ==> At(after, loc) == At(before, loc))
    && (forall loc :: NotBelow(rules, loc) ==> ShapeOf(At(after, loc)) == ShapeOf(At(before, loc)))
  }

  // ---------------------------------------------------------------- the registry

  lemma RegistryDiverges(i: nat, j: nat)
    requires i < j < |REGISTRY|
    ensures Diverge(REGISTRY[i].path, REGISTRY[j].path) && Diverge(REGISTRY[j].path, REGISTRY[i].path)
  {
  }

  lemma RegistryShape(i: nat)
    requires i < |REGISTRY|
    ensures var f := REGISTRY[i]; f.path != [] && !f.path[|f.path| - 1].wild && !f.requiredInFinal
    ensures Diverge(REGISTRY[i].path, OMISSIONS) && Diverge(OMISSIONS, REGISTRY[i].path)
  {
  }

  lemma {:induction false} FieldAtFinds(path: Path, n: nat)
    requires n <= |REGISTRY|
    ensures FieldAt(path, n).Some? <==> exists i :: 0 <= i < n && REGISTRY[i].path == path
    ensures FieldAt(path, n).Some? ==> exists i :: 0 <= i < n && REGISTRY[i] == FieldAt(path, n).value && REGISTRY[i].path == path
  {
    if n > 0 { FieldAtFinds(path, n - 1); }
  }

  /** Targets of registered paths never touch one another. */
  lemma RegisteredApart(p: Path, q: Path, l: Loc, m: Loc)
    requires Registered(p) && Registered(q) && Matches(p, l) && Matches(q, m) && !(p == q && l == m)
    ensures !Comparable(l, m)
  {
    hide Matches, Diverge;
    FieldAtFinds(p, |REGISTRY|);
    FieldAtFinds(q, |REGISTRY|);
    var i :| 0 <= i < |REGISTRY| && REGISTRY[i].path == p;
    var j :| 0 <= j < |REGISTRY| && REGISTRY[j].path == q;
    if i == j {
      SamePathApart(p, l, m);
    } else {
      if i < j { RegistryDiverges(i, j); } else { RegistryDiverges(j, i); }
      DivergingApart(p, q, l, m);
    }
  }

  lemma RegisteredEndsInKey(path: Path)
    requires Registered(path)
    ensures path != [] && !path[|path| - 1].wild
    ensures Diverge(path, OMISSIONS)
  {
    FieldAtFinds(path, |REGISTRY|);
    var i :| 0 <= i < |REGISTRY| && REGISTRY[i].path == path;
    RegistryShape(i);
  }

  // ---------------------------------------------------------------- applying one rule

  /** after is before with every location of the rule's path treated and nothing else changed. */
  ghost predicate RuleApplied(before: Json, after: Json, rule: Rule, field: FieldSpec) {
    && (forall loc :: Matches(rule.path, loc) ==> At(after, loc) == Treated(rule, field, At(before, loc)))
    && (forall loc :: ApartFrom(rule.path, loc) ==> At(after, loc) == At(before, loc))
    && (forall loc :: NotUnder(rule.path, loc) ==> ShapeOf(At(after, loc)) == ShapeOf(At(before, loc)))
  }

  ghost predicate ApartFromFirst(targets: seq<Loc>, n: nat, loc: Loc)
    requires n <= |targets|
  {
    forall i :: 0 <= i < n ==> !Comparable(targets[i], loc)
  }

  ghost predicate NotUnderFirst(targets: seq<Loc>, n: nat, loc: Loc)
    requires n <= |targets|
  {
    forall i :: 0 <= i < n ==> !Above(targets[i], loc)
  }

  /** The first n targets are treated. */
  ghost predicate TreatedSoFar(before: Json, after: Json, rule: Rule, field: FieldSpec, targets: seq<Loc>, n: nat)
    requires n <= |targets|
  {
    && (forall i :: 0 <= i < n ==> At(after, targets[i]) == Treated(rule, field, At(before, targets[i])))
    && (forall loc :: ApartFromFirst(targets, n, loc) ==> At(after, loc) == At(before, loc))
    && (forall loc :: NotUnderFirst(targets, n, loc) ==> ShapeOf(At(after, loc)) == ShapeOf(At(before, loc)))
  }

  ghost predicate MutuallyApart(targets: seq<Loc>) {
    forall i, j :: 0 <= i < j < |targets| ==> !Comparable(targets[i], targets[j])
  }

  /** Masking a value that has no text raises an exception. */
  predicate Unmaskable(rule: Rule, v: Json) { rule.action.MaskIdentifier? && !Nullary(v) && !HasText(v) }

  ghost predicate RuleThrows(v: Json, rule: Rule) { exists loc :: Matches(rule.path, loc) && Unmaskable(rule, At(v, loc)) }

  /** Whether the action writes at the value it finds. */
  predicate Writes(rule: Rule, field: FieldSpec, found: Json) {
    && found != Undefined && !rule.action.Keep? && (rule.action.Remove? ==> !field.requiredInFinal)
    && (rule.action.MaskIdentifier? ==> found != Null)
  }

  function TreatedAt(v: Json, rule: Rule, field: FieldSpec, target: Loc): Json {
    var found := At(v, target);
    if Writes(rule, field, found) then Put(v, target, Treated(rule, field, found)) else v
  }

  /** The rule at each of its targets in turn. */
  function TreatedEach(v: Json, rule: Rule, field: FieldSpec, targets: seq<Loc>): Json {
    if targets == [] then v else TreatedAt(TreatedEach(v, rule, field, targets[..|targets| - 1]), rule, field, targets[|targets| - 1])
  }

  /** The tree, key order included, that the rules make of v one after the other. */
  function RulesApplied(v: Json, rules: seq<Rule>): Json {
    if rules == [] then v
    else
      var rule := rules[|rules| - 1];
      var before := RulesApplied(v, rules[..|rules| - 1]);
      if FieldOf(rule.path).Some? then TreatedEach(before, rule, FieldOf(rule.path).value, Targets(before, rule.path)) else before
  }

  method TreatTarget(v: Json, rule: Rule, field: FieldSpec, target: Loc) returns (r: Json, threw: bool)
    requires target != [] && target[|target| - 1].Key?
    ensures threw <==> Unmaskable(rule, At(v, target))
    ensures !threw ==> r == TreatedAt(v, rule, field, target)
    ensures !threw ==> At(r, target) == Treated(rule, field, At(v, target))
    ensures !threw ==> forall l :: !Comparable(target, l) ==> At(r, l) == At(v, l)
    ensures !threw ==> forall l :: !Above(target, l) ==> ShapeOf(At(r, l)) == ShapeOf(At(v, l))
  {
    hide Mask, HasText, ToText;
    r, threw := v, false;
    var found := At(v, target);
    if found != Undefined {
      match rule.action {
        case Remove => if !field.requiredInFinal { r := Put(v, target, Undefined); }
        case ReplaceWithLabel => r := Put(v, target, Str(MarkerOf(rule, field)));
        case MaskIdentifier =>
          if found != Null {
            if !HasText(found) { return v, true; }
            r := Put(v, target, Str(Mask(ToText(found))));
          }
        case Keep =>
      }
      ghost var x := Treated(rule, field, found);
      assert r == Put(v, target, x) || (r == v && x == found);
      forall l
        ensures At(Put(v, target, x), target) == x
        ensures !Comparable(target, l) ==> At(Put(v, target, x), l) == At(v, l)
        ensures !Above(target, l) ==> ShapeOf(At(Put(v, target, x), l)) == ShapeOf(At(v, l))
      {
        PutAt(v, target, x, l);
      }
    }
  }

  method ApplyRule(v: Json, rule: Rule, field: FieldSpec) returns (r: Json, threw: bool)
    requires rule.path != [] && !rule.path[|rule.path| - 1].wild
    ensures threw <==> RuleThrows(v, rule)
    ensures !threw ==> RuleApplied(v, r, rule, field) && r == TreatedEach(v, rule, field, Targets(v, rule.path))
  {
    hide TreatedAt, Targets, Treated, Reached, Unmaskable, At, Matches, Comparable, Above, ShapeOf, TreatedSoFar, MutuallyApart, RuleApplied;
    var targets := ResolveTargets(v, rule.path);
    TargetsApart(v, rule.path, targets);
    r := v;
    NothingTreated(v, rule, field, targets);
    for n := 0 to |targets|
      invariant TreatedSoFar(v, r, rule, field, targets, n) && r == TreatedEach(v, rule, field, targets[..n])
      invariant forall i :: 0 <= i < n ==> !Unmaskable(rule, At(v, targets[i]))
    {
      ghost var before := r;
      assert Matches(rule.path, targets[n]) by { assert targets[n] in targets; }
      NotYetTreated(v, r, rule, field, targets, n);
      EndsInKey(rule.path, targets[n]);
      r, threw := TreatTarget(r, rule, field, targets[n]);
      if threw { return; }
      OneMoreTreated(v, before, r, rule, field, targets, n);
      assert targets[..n + 1][..n] == targets[..n];
    }
    assert targets[..|targets|] == targets;
    threw := false;
    AllTargetsTreated(v, r, rule, field, targets);
    NoneUnmaskable(v, rule, targets);
  }

  lemma NothingTreated(v: Json, rule: Rule, field: FieldSpec, targets: seq<Loc>)
    ensures TreatedSoFar(v, v, rule, field, targets, 0)
  {
  }

  lemma NotYetTreated(v: Json, r: Json, rule: Rule, field: FieldSpec, targets: seq<Loc>, n: nat)
    requires n < |targets| && MutuallyApart(targets) && TreatedSoFar(v, r, rule, field, targets, n)
    ensures At(r, targets[n]) == At(v, targets[n])
  {
    hide At, Comparable, Above, ShapeOf, Treated;
    EarlierApart(targets, n);
  }

  /** What the targets do not reach is absent, and what is absent is not masked. */
  lemma NoneUnmaskable(v: Json, rule: Rule, targets: seq<Loc>)
    requires rule.path != [] && !rule.path[|rule.path| - 1].wild && Resolves(v, rule.path, targets)
    requires forall i :: 0 <= i < |targets| ==> !Unmaskable(rule, At(v, targets[i]))
    ensures !RuleThrows(v, rule)
  {
    hide At, Matches, Reached, HasText;
    forall loc | Matches(rule.path, loc) ensures !Unmaskable(rule, At(v, loc)) {
      if loc in targets {
        var i :| 0 <= i < |targets| && targets[i] == loc;
      } else {
        EndsInKey(rule.path, loc);
        UnreachedIsAbsent(v, loc);
      }
    }
  }

  lemma OneMoreTreated(v: Json, before: Json, after: Json, rule: Rule, field: FieldSpec, targets: seq<Loc>, n: nat)
    requires n < |targets| && MutuallyApart(targets) && TreatedSoFar(v, before, rule, field, targets, n)
    requires At(after, targets[n]) == Treated(rule, field, At(before, targets[n]))
    requires forall l :: !Comparable(targets[n], l) ==> At(after, l) == At(before, l)
    requires forall l :: !Above(targets[n], l) ==> ShapeOf(At(after, l)) == ShapeOf(At(before, l))
    ensures TreatedSoFar(v, after, rule, field, targets, n + 1)
  {
    hide At, Treated, ShapeOf, Comparable, Above, ApartFromFirst, NotUnderFirst, MutuallyApart;
    EarlierApart(targets, n);
    forall loc
      ensures ApartFromFirst(targets, n + 1, loc) ==> ApartFromFirst(targets, n, loc) && !Comparable(targets[n], loc)
      ensures NotUnderFirst(targets, n + 1, loc) ==> NotUnderFirst(targets, n, loc) && !Above(targets[n], loc)
    {
      FirstOneMore(targets, n, loc);
    }
  }

  lemma EarlierApart(targets: seq<Loc>, n: nat)
    requires n < |targets| && MutuallyApart(targets)
    ensures ApartFromFirst(targets, n, targets[n])
    ensures forall i :: 0 <= i < n ==> !Comparable(targets[n], targets[i])
  {
    hide Comparable;
    forall i | 0 <= i < n ensures !Comparable(targets[n], targets[i]) { ComparableSymmetric(targets[i], targets[n]); }
  }

  lemma FirstOneMore(targets: seq<Loc>, n: nat, loc: Loc)
    requires n < |targets|
    ensures ApartFromFirst(targets, n + 1, loc) ==> ApartFromFirst(targets, n, loc) && !Comparable(targets[n], loc)
    ensures NotUnderFirst(targets, n + 1, loc) ==> NotUnderFirst(targets, n, loc) && !Above(targets[n], loc)
  {
    hide Comparable, Above;
  }

  lemma ComparableSymmetric(l: Loc, m: Loc)
    ensures Comparable(l, m) <==> Comparable(m, l)
  {
  }

  lemma TargetsApart(v: Json, path: Path, targets: seq<Loc>)
    requires Resolves(v, path, targets)
    ensures MutuallyApart(targets)
  {
    hide Reached;
    forall i, j | 0 <= i < j < |targets| ensures !Comparable(targets[i], targets[j]) {
      assert targets[i] in targets && targets[j] in targets;
      SamePathApart(path, targets[i], targets[j]);
    }
  }

  lemma AllTargetsTreated(v: Json, r: Json, rule: Rule, field: FieldSpec, targets: seq<Loc>)
    requires rule.path != [] && Resolves(v, rule.path, targets) && TreatedSoFar(v, r, rule, field, targets, |targets|)
    requires !rule.path[|rule.path| - 1].wild
    ensures RuleApplied(v, r, rule, field)
  {
    hide At, ShapeOf, Comparable, Above, Matches, Reached, Treated;
    var n := |targets|;
    forall i | 0 <= i < n ensures Matches(rule.path, targets[i]) { assert targets[i] in targets; }
    forall loc | ApartFrom(rule.path, loc) ensures At(r, loc) == At(v, loc) { assert ApartFromFirst(targets, n, loc); }
    forall loc | NotUnder(rule.path, loc) ensures ShapeOf(At(r, loc)) == ShapeOf(At(v, loc)) { assert NotUnderFirst(targets, n, loc); }
    forall loc | Matches(rule.path, loc) ensures At(r, loc) == Treated(rule, field, At(v, loc)) {
      OneTargetTreated(v, r, rule, field, targets, loc);
    }
  }

  lemma OneTargetTreated(v: Json, r: Json, rule: Rule, field: FieldSpec, targets: seq<Loc>, loc: Loc)
    requires rule.path != [] && Resolves(v, rule.path, targets) && TreatedSoFar(v, r, rule, field, targets, |targets|)
    requires !rule.path[|rule.path| - 1].wild && Matches(rule.path, loc)
    ensures At(r, loc) == Treated(rule, field, At(v, loc))
  {
    hide At, ShapeOf, Comparable, Above, Matches, Reached;
    if loc in targets {
      var i :| 0 <= i < |targets| && targets[i] == loc;
    } else {
      EndsInKey(rule.path, loc);
      UnreachedIsAbsent(v, loc);
      forall i | 0 <= i < |targets| ensures !Comparable(targets[i], loc) {
        assert targets[i] in targets;
        SamePathApart(rule.path, targets[i], loc);
      }
      assert ApartFromFirst(targets, |targets|, loc);
    }
  }

  lemma EndsInKey(path: Path, loc: Loc)
    requires path != [] && !path[|path| - 1].wild && Matches(path, loc)
    ensures loc != [] && loc[|loc| - 1].Key?
  {
  }

  lemma UnreachedIsAbsent(v: Json, loc: Loc)
    requires !Reached(v, loc) && loc != [] && loc[|loc| - 1].Key?
    ensures At(v, loc) == Undefined
  {
    AtChild(v, Parent(loc), loc[|loc| - 1]);
    assert Parent(loc) + [loc[|loc| - 1]] == loc;
  }

  // ---------------------------------------------------------------- applying all rules

  lemma NothingRedacted(v: Json)
    ensures Redacted(v, v, [])
  {
  }

  lemma OneMoreRule(before: Json, mid: Json, after: Json, rules: seq<Rule>, rule: Rule)
    requires Redacted(before, mid, rules)
    requires if Registered(rule.path) then RuleApplied(mid, after, rule, FieldOf(rule.path).value) else after == mid
    ensures Redacted(before, after, rules + [rule])
  {
    hide At, Treated, TreatedAll, ShapeOf, Matches, FieldOf, Apart, NotBelow, ApartFrom, NotUnder;
    var all := rules + [rule];
    forall path, loc | Registered(path) && Matches(path, loc)
      ensures At(after, loc) == TreatedAll(all, path, At(before, loc))
    {
      TreatedByOneMore(rules, rule, path, At(before, loc));
      if Registered(rule.path) && rule.path != path { OtherPathApart(rule.path, path, loc); }
    }
    forall loc
      ensures Apart(all, loc) ==> Apart(rules, loc) && (Registered(rule.path) ==> ApartFrom(rule.path, loc))
      ensures NotBelow(all, loc) ==> NotBelow(rules, loc) && (Registered(rule.path) ==> NotUnder(rule.path, loc))
    {
      PlacesOfOneMore(rules, rule, loc);
    }
  }

  lemma TreatedByOneMore(rules: seq<Rule>, rule: Rule, path: Path, v: Json)
    ensures TreatedAll(rules + [rule], path, v) ==
      (var w := TreatedAll(rules, path, v);
       if rule.path == path && Registered(path) then Treated(rule, FieldOf(path).value, w) else w)
  {
    hide Treated, FieldOf;
    assert (rules + [rule])[..|rules|] == rules;
  }

  lemma PlacesOfOneMore(rules: seq<Rule>, rule: Rule, loc: Loc)
    ensures Apart(rules + [rule], loc) ==> Apart(rules, loc) && (Registered(rule.path) ==> ApartFrom(rule.path, loc))
    ensures NotBelow(rules + [rule], loc) ==> NotBelow(rules, loc) && (Registered(rule.path) ==> NotUnder(rule.path, loc))
  {
    hide ApartFrom, NotUnder, FieldOf;
    var all := rules + [rule];
    assert all[|rules|] == rule && forall i :: 0 <= i < |rules| ==> all[i] == rules[i];
  }

  lemma OtherPathApart(p: Path, q: Path, loc: Loc)
    requires Registered(p) && Registered(q) && p != q && Matches(q, loc)
    ensures ApartFrom(p, loc)
  {
    hide Matches, FieldOf;
    forall l | Matches(p, l) ensures !Comparable(l, loc) { RegisteredApart(p, q, l, loc); }
  }

  // ---------------------------------------------------------------- the transformer

  function SegmentText(s: Segment): string { if s.wild then s.key + "[*]" else s.key }

  function SegmentTexts(path: Path): seq<string> {
    seq(|path|, i requires 0 <= i < |path| => SegmentText(path[i]))
  }

  function PathText(path: Path): string { Join(".", SegmentTexts(path)) }

  /** Paths of the registered rules with this action, in order. */
  function PathsWith(rules: seq<Rule>, action: Action): seq<Path> {
    if rules == [] then []
    else
      var n := |rules| - 1;
      PathsWith(rules[..n], action) + if Registered(rules[n].path) && rules[n].action == action then [rules[n].path] else []
  }

  /** Classifications touched, in order of first use. */
  function Classes(rules: seq<Rule>): seq<Classification> {
    if rules == [] then []
    else
      var n := |rules| - 1;
      var classes := Classes(rules[..n]);
      var f := FieldOf(rules[n].path);
      if f.Some? && f.value.classification !in classes then classes + [f.value.classification] else classes
  }

  datatype Summary = Summary(removed: seq<Path>, replaced: seq<Path>, masked: seq<Path>, kept: seq<Path>, classes: seq<Classification>, ruleCount: nat)

  function SummaryOf(rules: seq<Rule>): Summary {
    Summary(PathsWith(rules, Remove), PathsWith(rules, ReplaceWithLabel), PathsWith(rules, MaskIdentifier), PathsWith(rules, Keep),
            Classes(rules), |rules|)
  }

  function OmissionEntry(path: Path): Json {
    Obj([Field("path", Str(PathText(path))), Field("reason", Str("UNSUPPORTED_FIELD"))])
  }

  function OmissionEntries(paths: seq<Path>): seq<Json> {
    seq(|paths|, i requires 0 <= i < |paths| => OmissionEntry(paths[i]))
  }

  /** The payload is typed: an object whose omissions, if any, are a list. */
  predicate PayloadShape(v: Json) { v.Obj? && (Get(v, "omissions").Arr? || Nullary(Get(v, "omissions"))) }

  function WithOmissions(v: Json, removed: seq<Path>): Json
    requires v.Obj?
  {
    var om := if Get(v, "omissions").Arr? then Get(v, "omissions").items else [];
    Obj(SetField(v.fields, "omissions", Arr(om + OmissionEntries(removed))))
  }

  function InOrder(rules: seq<Rule>): seq<Rule> { Sort(OrderLe, rules) }

  /** payload is a redaction of source by the rules in their order, with the removals listed among the omissions. */
  ghost predicate Produces(source: Json, rules: seq<Rule>, payload: Json) {
    exists mid: Json ::
      mid.Obj? && Redacted(Clone(source), mid, InOrder(rules)) && payload == WithOmissions(mid, PathsWith(InOrder(rules), Remove))
  }

  datatype Outcome = Threw | Done(payload: Json, summary: Summary)

  /** The n-th rule comes to a value it cannot mask. */
  ghost predicate Throws(original: Json, rules: seq<Rule>, n: nat)
    requires n < |rules|
  {
    Registered(rules[n].path) && exists loc :: Matches(rules[n].path, loc) && ThrowsOn(original, rules, n, loc)
  }

  predicate ThrowsOn(original: Json, rules: seq<Rule>, n: nat, loc: Loc)
    requires n < |rules|
  {
    Unmaskable(rules[n], TreatedAll(rules[..n], rules[n].path, At(original, loc)))
  }

  lemma ThrowsIff(original: Json, clone: Json, rules: seq<Rule>, n: nat)
    requires n < |rules| && Registered(rules[n].path) && Redacted(original, clone, rules[..n])
    ensures Throws(original, rules, n) <==> RuleThrows(clone, rules[n])
  {
    hide TreatedAll, FieldOf, At, Matches, Apart, NotBelow, Unmaskable;
    if Throws(original, rules, n) {
      var loc :| Matches(rules[n].path, loc) && ThrowsOn(original, rules, n, loc);
      assert At(clone, loc) == TreatedAll(rules[..n], rules[n].path, At(original, loc));
    }
    if loc :| Matches(rules[n].path, loc) && Unmaskable(rules[n], At(clone, loc)) {
      assert At(clone, loc) == TreatedAll(rules[..n], rules[n].path, At(original, loc));
      assert ThrowsOn(original, rules, n, loc);
    }
  }

  method ApplyRedactions(source: Json, rules: seq<Rule>) returns (r: Outcome)
    requires PayloadShape(source)
    ensures r.Threw? <==> exists n: nat :: n < |InOrder(rules)| && Throws(Clone(source), InOrder(rules), n)
    ensures r.Done? ==> Produces(source, rules, r.payload) && r.summary == SummaryOf(InOrder(rules))
    ensures r.Done? ==> var redacted := RulesApplied(Clone(source), InOrder(rules));
      redacted.Obj? && r.payload == WithOmissions(redacted, PathsWith(InOrder(rules), Remove))
  {
    hide FieldOf, Redacted, RuleApplied, Sort, PathsWith, Classes, Clone, Throws, RuleThrows, TreatedEach, Targets;
    CloneStaysObject(source);
    NoPaths();
    var clone := Clone(source);
    var removed: seq<Path>, replaced: seq<Path>, masked: seq<Path>, kept: seq<Path> := [], [], [], [];
    var classes: seq<Classification> := [];
    var ordered := InOrder(rules);
    ghost var original := clone;
    NothingRedacted(clone);
    for n := 0 to |ordered|
      invariant Redacted(original, clone, ordered[..n]) && clone == RulesApplied(original, ordered[..n])
      invariant forall m: nat :: m < n ==> !Throws(original, ordered, m)
      invariant removed == PathsWith(ordered[..n], Remove) && replaced == PathsWith(ordered[..n], ReplaceWithLabel)
      invariant masked == PathsWith(ordered[..n], MaskIdentifier) && kept == PathsWith(ordered[..n], Keep)
      invariant classes == Classes(ordered[..n])
    {
      var rule := ordered[n];
      var field := FieldOf(rule.path);
      ghost var mid := clone;
      assert ordered[..n + 1] == ordered[..n] + [rule] && ordered[..n + 1][..n] == ordered[..n];
      forall action { OneMorePath(ordered[..n], rule, action); }
      OneMoreClass(ordered[..n], rule);
      OnlyRegisteredThrow(original, ordered, n);
      if field.Some? {
        if field.value.classification !in classes { classes := classes + [field.value.classification]; }
        RegisteredEndsInKey(rule.path);
        ThrowsIff(original, mid, ordered, n);
        var threw: bool;
        clone, threw := ApplyRule(clone, rule, field.value);
        if threw { return Threw; }
        match rule.action {
          case Remove => removed := removed + [rule.path];
          case ReplaceWithLabel => replaced := replaced + [rule.path];
          case MaskIdentifier => masked := masked + [rule.path];
          case Keep => kept := kept + [rule.path];
        }
      }
      OneMoreRule(original, mid, clone, ordered[..n], rule);
    }
    assert ordered[..|ordered|] == ordered;
    RootStaysObject(original, clone, ordered);
    r := Done(WithOmissions(clone, removed), Summary(removed, replaced, masked, kept, classes, |rules|));
  }

  lemma OnlyRegisteredThrow(original: Json, rules: seq<Rule>, n: nat)
    requires n < |rules|
    ensures Throws(original, rules, n) ==> FieldOf(rules[n].path).Some?
  {
  }

  /** A payload whose registered places hold convertible values, as its type promises, is always redacted. */
  lemma TypedNeverThrows(original: Json, rules: seq<Rule>, n: nat)
    requires n < |rules| && forall path, loc :: Registered(path) && Matches(path, loc) ==> HasText(At(original, loc))
    ensures !Throws(original, rules, n)
  {
    hide HasText, TreatedAll, FieldOf, At, Matches;
    forall loc | Registered(rules[n].path) && Matches(rules[n].path, loc) ensures !ThrowsOn(original, rules, n, loc) {
      TreatedHasText(rules[..n], rules[n].path, At(original, loc));
    }
  }

  lemma {:induction false} TreatedHasText(rules: seq<Rule>, path: Path, v: Json)
    requires HasText(v)
    ensures HasText(TreatedAll(rules, path, v))
  {
    hide Mask, ToText, FieldOf;
    if rules != [] { TreatedHasText(rules[..|rules| - 1], path, v); }
  }

  lemma CloneStaysObject(v: Json)
    requires v.Obj?
    ensures Clone(v).Obj?
  {
  }

  lemma NoPaths()
    ensures Classes([]) == [] && forall action :: PathsWith([], action) == []
  {
  }

  lemma OneMorePath(rules: seq<Rule>, rule: Rule, action: Action)
    ensures PathsWith(rules + [rule], action) ==
      if FieldOf(rule.path).Some? && rule.action == action then PathsWith(rules, action) + [rule.path] else PathsWith(rules, action)
  {
    hide FieldOf;
    assert (rules + [rule])[..|rules|] == rules;
  }

  lemma OneMoreClass(rules: seq<Rule>, rule: Rule)
    ensures var classes, f := Classes(rules), FieldOf(rule.path);
      Classes(rules + [rule]) == if f.Some? && f.value.classification !in classes then classes + [f.value.classification] else classes
  {
    hide FieldOf;
    assert (rules + [rule])[..|rules|] == rules;
  }

  lemma RootStaysObject(before: Json, after: Json, rules: seq<Rule>)
    requires before.Obj? && Redacted(before, after, rules)
    ensures after.Obj?
  {
    forall i | 0 <= i < |rules| && Registered(rules[i].path) ensures NotUnder(rules[i].path, []) { RootNotUnder(rules[i].path); }
    assert NotBelow(rules, []);
    assert ShapeOf(At(after, [])) == ShapeOf(At(before, []));
  }

  lemma RootNotUnder(path: Path)
    requires Registered(path)
    ensures NotUnder(path, [])
  {
    RegisteredEndsInKey(path);
    forall l | Matches(path, l) ensures !Above(l, []) { EndsInKey(path, l); }
  }

  // ---------------------------------------------------------------- what the payload holds

  predicate OutsideOmissions(loc: Loc) { loc != [] && loc[0] != Key("omissions") }

  lemma OmissionsOnly(v: Json, removed: seq<Path>, loc: Loc)
    requires v.Obj? && OutsideOmissions(loc)
    ensures At(WithOmissions(v, removed), loc) == At(v, loc)
  {
    hide OmissionEntries;
    var om := if Get(v, "omissions").Arr? then Get(v, "omissions").items else [];
    if loc[0].Key? { SetFieldFind(v.fields, "omissions", Arr(om + OmissionEntries(removed)), loc[0].k); }
  }

  lemma TargetsOutsideOmissions(path: Path, loc: Loc)
    requires Registered(path) && Matches(path, loc)
    ensures OutsideOmissions(loc)
  {
    hide FieldOf;
    RegisteredEndsInKey(path);
    MatchAt(path, loc, 0);
  }

  /** Location by location: a targeted place holds the treated original; a place beside all targets
      is untouched; a place not below a target keeps its shape. */
  lemma PayloadLocations(source: Json, rules: seq<Rule>, payload: Json, loc: Loc)
    requires Produces(source, rules, payload) && OutsideOmissions(loc)
    ensures forall path :: Registered(path) && Matches(path, loc) ==> At(payload, loc) == TreatedAll(InOrder(rules), path, At(Clone(source), loc))
    ensures Apart(InOrder(rules), loc) ==> At(payload, loc) == At(Clone(source), loc)
    ensures NotBelow(InOrder(rules), loc) ==> ShapeOf(At(payload, loc)) == ShapeOf(At(Clone(source), loc))
  {
    hide FieldOf, Matches, At, WithOmissions, Clone, InOrder, TreatedAll, Apart, NotBelow, ShapeOf;
    var mid: Json :| mid.Obj? && Redacted(Clone(source), mid, InOrder(rules)) && payload == WithOmissions(mid, PathsWith(InOrder(rules), Remove));
    OmissionsOnly(mid, PathsWith(InOrder(rules), Remove), loc);
  }

  /** The removals, and only they, are added to the omissions the source listed. */
  lemma OmissionsRecorded(source: Json, rules: seq<Rule>, payload: Json)
    requires Produces(source, rules, payload)
    ensures var listed := Get(Clone(source), "omissions");
      Get(payload, "omissions") == Arr((if listed.Arr? then listed.items else []) + OmissionEntries(PathsWith(InOrder(rules), Remove)))
  {
    hide FieldOf, Clone, InOrder, TreatedAll, PathsWith, OmissionEntries, ApartFrom, NotUnder, NotBelow, Matches, ShapeOf;
    var removed := PathsWith(InOrder(rules), Remove);
    var mid: Json :| mid.Obj? && Redacted(Clone(source), mid, InOrder(rules)) && payload == WithOmissions(mid, removed);
    var loc: Loc := [Key("omissions")];
    forall i | 0 <= i < |InOrder(rules)| && Registered(InOrder(rules)[i].path) ensures ApartFrom(InOrder(rules)[i].path, loc) {
      OmissionsApart(InOrder(rules)[i].path);
    }
    assert Apart(InOrder(rules), loc);
    AtOneStep(mid);
    AtOneStep(Clone(source));
    var om := if Get(mid, "omissions").Arr? then Get(mid, "omissions").items else [];
    SetFieldFind(mid.fields, "omissions", Arr(om + OmissionEntries(removed)), "omissions");
  }

  lemma AtOneStep(v: Json)
    ensures At(v, [Key("omissions")]) == Get(v, "omissions")
  {
    var loc: Loc := [Key("omissions")];
    assert loc[1..] == [];
  }

  lemma OmissionsApart(path: Path)
    requires Registered(path)
    ensures ApartFrom(path, [Key("omissions")])
  {
    hide FieldOf;
    RegisteredEndsInKey(path);
    assert OMISSIONS[..0] == [];
    assert Matches(OMISSIONS, [Key("omissions")]);
    forall l | Matches(path, l) ensures !Comparable(l, [Key("omissions")]) {
      DivergingApart(path, OMISSIONS, l, [Key("omissions")]);
    }
  }

  ghost predicate DistinctPaths(rules: seq<Rule>) {
    forall i, j :: 0 <= i < j < |rules| ==> rules[i].path != rules[j].path
  }

  lemma {:induction false} TreatedOnce(rules: seq<Rule>, path: Path, v: Json)
    requires DistinctPaths(rules) && Registered(path)
    ensures forall r :: r in rules && r.path == path ==> TreatedAll(rules, path, v) == Treated(r, FieldOf(path).value, v)
    ensures (forall r :: r in rules ==> r.path != path) ==> TreatedAll(rules, path, v) == v
  {
    hide Treated, FieldOf;
    if rules != [] {
      var n := |rules| - 1;
      TreatedOnce(rules[..n], path, v);
      assert rules == rules[..n] + [rules[n]];
      OthersElsewhere(rules, n);
      hide DistinctPaths;
    }
  }

  lemma OthersElsewhere(rules: seq<Rule>, n: nat)
    requires DistinctPaths(rules) && n + 1 == |rules|
    ensures DistinctPaths(rules[..n]) && forall r :: r in rules[..n] ==> r.path != rules[n].path
  {
    forall r | r in rules[..n] ensures r.path != rules[n].path { var i :| 0 <= i < n && rules[i] == r; }
  }

  lemma InOrderSame(rules: seq<Rule>)
    ensures multiset(InOrder(rules)) == multiset(rules) && forall r :: r in InOrder(rules) <==> r in rules
    ensures DistinctPaths(rules) ==> DistinctPaths(InOrder(rules))
  {
    SortPermutes(OrderLe, rules);
    if DistinctPaths(rules) { SamePathsDistinct(rules, InOrder(rules)); }
  }

  lemma SamePathsDistinct(rules: seq<Rule>, rules': seq<Rule>)
    requires DistinctPaths(rules) && multiset(rules) == multiset(rules')
    ensures DistinctPaths(rules')
  {
    SameMultisetSameElements(rules, rules');
    DistinctFromMultiset(rules, rules');
    forall i, j | 0 <= i < j < |rules'| ensures rules'[i].path != rules'[j].path {
      assert rules'[i] in rules && rules'[j] in rules;
      var a :| 0 <= a < |rules| && rules[a] == rules'[i];
      var b :| 0 <= b < |rules| && rules[b] == rules'[j];
    }
  }

  /** Two rules that do the same, whatever their place in the order. */
  predicate DoesSame(r: Rule, r': Rule) { r.path == r'.path && r.action == r'.action && r.marker == r'.marker }

  ghost predicate Covers(rules: seq<Rule>, rules': seq<Rule>) {
    forall r :: r in rules ==> exists r' :: r' in rules' && DoesSame(r, r')
  }

  /** The same treatments, one per path, in any list and with any order numbers. */
  ghost predicate SameRules(rules: seq<Rule>, rules': seq<Rule>) {
    DistinctPaths(rules) && DistinctPaths(rules') && Covers(rules, rules') && Covers(rules', rules)
  }

  lemma Counterpart(rules: seq<Rule>, rules': seq<Rule>, r: Rule) returns (r': Rule)
    requires Covers(rules, rules') && r in rules
    ensures r' in rules' && DoesSame(r, r')
  {
    r' :| r' in rules' && DoesSame(r, r');
  }

  /** With one rule per path, listing the rules differently or numbering them differently gives the same
      payload beside the omissions. */
  lemma RuleOrderIrrelevant(source: Json, rules: seq<Rule>, rules': seq<Rule>, payload: Json, payload': Json, loc: Loc)
    requires Produces(source, rules, payload) && Produces(source, rules', payload')
    requires SameRules(rules, rules') && OutsideOmissions(loc)
    ensures ShapeOf(At(payload, loc)) == ShapeOf(At(payload', loc))
  {
    hide FieldOf, Matches, TreatedAll, Produces, Clone, InOrder, ShapeOf, At, Covers, DistinctPaths;
    var o, o' := InOrder(rules), InOrder(rules');
    InOrderSame(rules);
    InOrderSame(rules');
    PayloadLocations(source, rules, payload, loc);
    PayloadLocations(source, rules', payload', loc);
    if NotBelow(o, loc) {
      forall i | 0 <= i < |o'| && Registered(o'[i].path) ensures NotUnder(o'[i].path, loc) {
        var r := Counterpart(rules', rules, o'[i]);
        var j :| 0 <= j < |o| && o[j] == r;
      }
      assert NotBelow(o', loc);
    } else {
      var i, l :| 0 <= i < |o| && Registered(o[i].path) && Matches(o[i].path, l) && Above(l, loc);
      AboveIsPrefix(l, loc);
      var r' := Counterpart(rules, rules', o[i]);
      TargetSame(source, rules, rules', payload, payload', o[i], r', l);
      AtConcat(payload, l, loc[|l|..]);
      AtConcat(payload', l, loc[|l|..]);
      assert loc == l + loc[|l|..];
    }
  }

  lemma AboveIsPrefix(l: Loc, m: Loc)
    requires Above(l, m)
    ensures l <= m
  {
  }

  lemma TargetSame(source: Json, rules: seq<Rule>, rules': seq<Rule>, payload: Json, payload': Json, r: Rule, r': Rule, l: Loc)
    requires Produces(source, rules, payload) && Produces(source, rules', payload')
    requires DistinctPaths(rules) && DistinctPaths(rules') && r in rules && r' in rules' && DoesSame(r, r')
    requires Registered(r.path) && Matches(r.path, l)
    ensures At(payload, l) == At(payload', l)
  {
    hide FieldOf, Matches, TreatedAll, Produces, Clone, InOrder, At, Treated, DistinctPaths;
    SameTreatment(r, r');
    InOrderSame(rules);
    InOrderSame(rules');
    TargetsOutsideOmissions(r.path, l);
    PayloadLocations(source, rules, payload, l);
    PayloadLocations(source, rules', payload', l);
    TreatedOnce(InOrder(rules), r.path, At(Clone(source), l));
    TreatedOnce(InOrder(rules'), r.path, At(Clone(source), l));
  }

  lemma SameTreatment(r: Rule, r': Rule)
    requires DoesSame(r, r')
    ensures forall field, v :: Treated(r, field, v) == Treated(r', field, v)
  {
  }

  lemma {:induction false} PathsWithAre(rules: seq<Rule>, action: Action, p: Path)
    ensures p in PathsWith(rules, action) <==> Registered(p) && exists r :: r in rules && r.path == p && r.action == action
    ensures DistinctPaths(rules) ==> Distinct(PathsWith(rules, action))
  {
    hide FieldOf;
    if rules != [] {
      var n := |rules| - 1;
      assert rules == rules[..n] + [rules[n]];
      forall q ensures q in PathsWith(rules[..n], action) <==> Registered(q) && exists r :: r in rules[..n] && r.path == q && r.action == action {
        PathsWithAre(rules[..n], action, q);
      }
      PathsWithAre(rules[..n], action, p);
    }
  }

  ghost predicate DistinctOrders(rules: seq<Rule>) {
    forall i, j :: 0 <= i < j < |rules| ==> rules[i].order != rules[j].order
  }

  /** With distinct order numbers the list may be permuted even when rules share a path: the ordered rules are
      the same, and with them the exception or the payload to its last key and omission, and the summary. */
  lemma ListOrderIrrelevant(rules: seq<Rule>, rules': seq<Rule>)
    requires DistinctOrders(rules) && multiset(rules) == multiset(rules')
    ensures InOrder(rules) == InOrder(rules')
  {
    forall a, b | a in rules && b in rules && a.order == b.order ensures a == b {
      var i :| 0 <= i < |rules| && rules[i] == a;
      var j :| 0 <= j < |rules| && rules[j] == b;
    }
    SortForgetsOrder(OrderLe, rules, rules');
  }

  /** And then the same removals are recorded among the omissions, in whatever order. */
  lemma RemovalOrderIrrelevant(source: Json, rules: seq<Rule>, rules': seq<Rule>, payload: Json, payload': Json)
    requires Produces(source, rules, payload) && Produces(source, rules', payload') && SameRules(rules, rules')
    ensures var om, om' := Get(payload, "omissions"), Get(payload', "omissions");
      om.Arr? && om'.Arr? && |om.items| == |om'.items| && forall x :: x in om.items <==> x in om'.items
  {
    hide FieldOf, Produces, Clone, InOrder, Covers, DistinctPaths, PathsWith, OmissionEntry;
    OmissionsRecorded(source, rules, payload);
    OmissionsRecorded(source, rules', payload');
    InOrderSame(rules);
    InOrderSame(rules');
    var ps, ps' := PathsWith(InOrder(rules), Remove), PathsWith(InOrder(rules'), Remove);
    PathsWithAre(InOrder(rules), Remove, []);
    PathsWithAre(InOrder(rules'), Remove, []);
    forall p ensures p in ps <==> p in ps' { SameRemovals(rules, rules', p); }
    ContainedNotLonger(ps, ps');
    ContainedNotLonger(ps', ps);
    EntriesOf(ps, ps');
    EntriesOf(ps', ps);
  }

  lemma SameRemovals(rules: seq<Rule>, rules': seq<Rule>, p: Path)
    requires SameRules(rules, rules')
    ensures p in PathsWith(InOrder(rules), Remove) <==> p in PathsWith(InOrder(rules'), Remove)
  {
    hide FieldOf, InOrder, Covers, DistinctPaths, PathsWith;
    InOrderSame(rules);
    InOrderSame(rules');
    PathsWithAre(InOrder(rules), Remove, p);
    PathsWithAre(InOrder(rules'), Remove, p);
    if r :| r in rules && r.path == p && r.action == Remove { var r' := Counterpart(rules, rules', r); }
    if r :| r in rules' && r.path == p && r.action == Remove { var r' := Counterpart(rules', rules, r); }
  }

  lemma EntriesOf(ps: seq<Path>, ps': seq<Path>)
    requires forall p :: p in ps ==> p in ps'
    ensures forall x :: x in OmissionEntries(ps) ==> x in OmissionEntries(ps')
  {
    hide OmissionEntry;
    forall x | x in OmissionEntries(ps) ensures x in OmissionEntries(ps') {
      var i :| 0 <= i < |ps| && OmissionEntries(ps)[i] == x;
      assert ps[i] in ps';
      var j :| 0 <= j < |ps'| && ps'[j] == ps[i];
      assert OmissionEntries(ps')[j] == x;
    }
  }

  // ---------------------------------------------------------------- unresolved sensitive fields

  predicate IsSensitive(f: FieldSpec) { f.classification.Sensitive? || f.classification.HighlySensitive? }

  predicate PresentAt(source: Json, path: Path, loc: Loc) { Matches(path, loc) && !Nullary(At(source, loc)) }

  /** Present somewhere in the source and covered by no rule. */
  ghost predicate Unresolved(source: Json, covered: seq<Path>, f: FieldSpec) {
    IsSensitive(f) && f.path !in covered && exists loc :: PresentAt(source, f.path, loc)
  }

  method AnyPresent(source: Json, path: Path) returns (present: bool)
    requires path != [] && !path[|path| - 1].wild
    ensures present <==> exists loc :: PresentAt(source, path, loc)
  {
    var targets := ResolveTargets(source, path);
    present := false;
    for i := 0 to |targets|
      invariant present <==> exists j :: 0 <= j < i && !Nullary(At(source, targets[j]))
    {
      if !Nullary(At(source, targets[i])) { present := true; }
    }
    if present {
      var j :| 0 <= j < |targets| && !Nullary(At(source, targets[j]));
      assert targets[j] in targets;
      assert PresentAt(source, path, targets[j]);
    }
    if loc :| PresentAt(source, path, loc) {
      EndsInKey(path, loc);
      if !Reached(source, loc) { UnreachedIsAbsent(source, loc); }
      assert loc in targets;
    }
  }

  /** The paths among the first n registry entries that are unresolved at this level. */
  ghost predicate Lists(paths: seq<Path>, level: Classification, source: Json, covered: seq<Path>, n: nat)
    requires n <= |REGISTRY|
  {
    forall p :: p in paths <==> exists i :: Entry(i, n, level, p) && Unresolved(source, covered, REGISTRY[i])
  }

  ghost predicate Entry(i: int, n: nat, level: Classification, p: Path)
    requires n <= |REGISTRY|
  {
    0 <= i < n && REGISTRY[i].path == p && REGISTRY[i].classification == level
  }

  lemma ListsNext(paths: seq<Path>, level: Classification, source: Json, covered: seq<Path>, n: nat, next: seq<Path>)
    requires n < |REGISTRY| && Lists(paths, level, source, covered, n)
    requires next == if REGISTRY[n].classification == level && Unresolved(source, covered, REGISTRY[n]) then paths + [REGISTRY[n].path] else paths
    ensures Lists(next, level, source, covered, n + 1)
  {
    hide Unresolved;
    forall p ensures p in next <==> exists i :: Entry(i, n + 1, level, p) && Unresolved(source, covered, REGISTRY[i]) {
      if p in paths { var i :| Entry(i, n, level, p) && Unresolved(source, covered, REGISTRY[i]); assert Entry(i, n + 1, level, p); }
      if p in next && p !in paths { assert Entry(n, n + 1, level, p); }
      if i :| Entry(i, n + 1, level, p) && Unresolved(source, covered, REGISTRY[i]) {
        if i < n { assert Entry(i, n, level, p); }
      }
    }
  }

  method ComputeUnresolved(source: Json, covered: seq<Path>) returns (highly: seq<Path>, sensitive: seq<Path>)
    ensures Lists(highly, HighlySensitive, source, covered, |REGISTRY|)
    ensures Lists(sensitive, Sensitive, source, covered, |REGISTRY|)
    ensures |highly| <= 1 && |sensitive| <= 1
  {
    hide Matches, Lists;
    highly, sensitive := [], [];
    ListsNothing(source, covered);
    for n := 0 to |REGISTRY|
      invariant Lists(highly, HighlySensitive, source, covered, n) && Lists(sensitive, Sensitive, source, covered, n)
      invariant |highly| <= (if n > 0 then 1 else 0) && |sensitive| <= (if n > 3 then 1 else 0)
    {
      var f := REGISTRY[n];
      ghost var h, s := highly, sensitive;
      ghost var unresolved := false;
      if IsSensitive(f) && f.path !in covered {
        RegistryShape(n);
        RegistryLevels(n);
        var present := AnyPresent(source, f.path);
        unresolved := present;
        if present {
          if f.classification.HighlySensitive? { highly := highly + [f.path]; } else { sensitive := sensitive + [f.path]; }
        }
      }
      UnresolvedIs(source, covered, f, unresolved);
      ListsNext(h, HighlySensitive, source, covered, n, highly);
      ListsNext(s, Sensitive, source, covered, n, sensitive);
    }
  }

  lemma RegistryLevels(n: nat)
    requires n < |REGISTRY|
    ensures REGISTRY[n].classification.HighlySensitive? <==> n == 0
    ensures REGISTRY[n].classification.Sensitive? <==> n == 3
  {
  }

  lemma UnresolvedIs(source: Json, covered: seq<Path>, f: FieldSpec, u: bool)
    requires if IsSensitive(f) && f.path !in covered then u <==> exists loc :: PresentAt(source, f.path, loc) else !u
    ensures Unresolved(source, covered, f) <==> u
  {
  }

  lemma ListsNothing(source: Json, covered: seq<Path>)
    ensures Lists([], HighlySensitive, source, covered, 0) && Lists([], Sensitive, source, covered, 0)
  {
  }

  function PathsOf(rules: seq<Rule>): seq<Path> {
    seq(|rules|, i requires 0 <= i < |rules| => rules[i].path)
  }

  /** A value that betrays nothing of the original but a mask. */
  ghost predicate Cleared(rules: seq<Rule>, path: Path, field: FieldSpec, w: Json) {
    || Nullary(w)
    || (exists r :: r in rules && r.path == path && r.action.ReplaceWithLabel? && w == Str(MarkerOf(r, field)))
    || exists v: string :: w == Str(Mask(v))
  }

  ghost predicate SomeActs(rules: seq<Rule>, path: Path) { exists r :: r in rules && r.path == path && !r.action.Keep? }

  /** One acting rule is enough, wherever it stands among other rules on the path. */
  lemma {:induction false} TreatedClears(rules: seq<Rule>, path: Path, field: FieldSpec, v: Json)
    requires FieldOf(path) == Some(field) && !field.requiredInFinal && (Nullary(v) || SomeActs(rules, path))
    ensures Cleared(rules, path, field, TreatedAll(rules, path, v))
  {
    hide FieldOf, SomeActs, Treated;
    if rules == [] { NoneActs(path); }
    if rules != [] {
      var n := |rules| - 1;
      var r, w := rules[n], TreatedAll(rules[..n], path, v);
      assert rules == rules[..n] + [r] && r in rules;
      if Nullary(v) || SomeActs(rules[..n], path) { TreatedClears(rules[..n], path, field, v); } else { LastActs(rules, path); }
      OneMoreClears(rules[..n], r, path, field, w);
    }
  }

  lemma NoneActs(path: Path)
    ensures !SomeActs([], path)
  {
  }

  lemma LastActs(rules: seq<Rule>, path: Path)
    requires rules != [] && SomeActs(rules, path) && !SomeActs(rules[..|rules| - 1], path)
    ensures var r := rules[|rules| - 1]; r.path == path && !r.action.Keep?
  {
    var n := |rules| - 1;
    assert rules == rules[..n] + [rules[n]];
    var act :| act in rules && act.path == path && !act.action.Keep?;
    assert act !in rules[..n];
  }

  lemma OneMoreClears(rules: seq<Rule>, r: Rule, path: Path, field: FieldSpec, w: Json)
    requires !field.requiredInFinal && (Cleared(rules, path, field, w) || (r.path == path && !r.action.Keep?))
    ensures r.path == path ==> Cleared(rules + [r], path, field, Treated(r, field, w))
    ensures r.path != path ==> Cleared(rules + [r], path, field, w)
  {
    hide Mask, ToText;
    assert r in rules + [r];
    forall x | x in rules ensures x in rules + [r] {}
  }

  /** Nothing sensitive survives: if no sensitive field is unresolved, and each covered one has some rule
      that does not keep it, every sensitive place of the payload is absent, null, a marker or a mask, even
      when several rules name one path. */
  lemma NothingSensitiveSurvives(source: Json, rules: seq<Rule>, payload: Json, i: nat, loc: Loc)
    requires WellFormed(source) && Produces(source, rules, payload)
    requires i < |REGISTRY| && IsSensitive(REGISTRY[i]) && Matches(REGISTRY[i].path, loc)
    requires !Unresolved(source, PathsOf(rules), REGISTRY[i])
    requires REGISTRY[i].path in PathsOf(rules) ==> SomeActs(rules, REGISTRY[i].path)
    ensures Cleared(rules, REGISTRY[i].path, REGISTRY[i], At(payload, loc))
  {
    hide Matches, TreatedAll, Produces, Clone, InOrder, FieldOf, At, WellFormed, Cleared, SomeActs, OutsideOmissions, NotBelow, Apart;
    var f := REGISTRY[i];
    RegistryFinds(i);
    RegistryShape(i);
    InOrderSame(rules);
    TargetsOutsideOmissions(f.path, loc);
    PayloadLocations(source, rules, payload, loc);
    CloneAt(source, loc);
    if f.path !in PathsOf(rules) {
      assert !PresentAt(source, f.path, loc);
      NullCloneIsNull(At(source, loc));
    }
    ActsInOrder(rules, f.path);
    TreatedClears(InOrder(rules), f.path, f, At(Clone(source), loc));
    ClearedInOrder(rules, f.path, f, At(payload, loc));
  }

  lemma ActsInOrder(rules: seq<Rule>, path: Path)
    ensures SomeActs(InOrder(rules), path) <==> SomeActs(rules, path)
  {
    hide InOrder;
    InOrderSame(rules);
  }

  lemma ClearedInOrder(rules: seq<Rule>, path: Path, field: FieldSpec, w: Json)
    ensures Cleared(InOrder(rules), path, field, w) ==> Cleared(rules, path, field, w)
  {
    hide InOrder, Mask;
    InOrderSame(rules);
  }

  lemma ActsStay(rules: seq<Rule>, rule: Rule, path: Path)
    ensures SomeActs(rules, path) ==> SomeActs(rules + [rule], path)
  {
  }

  /** And if every rule on the path keeps it, or none names it, the place survives as it was. */
  lemma {:induction false} KeptSurvives(rules: seq<Rule>, path: Path, v: Json)
    requires !SomeActs(rules, path)
    ensures TreatedAll(rules, path, v) == v
  {
    hide FieldOf, Mask, ToText;
    if rules != [] {
      var n := |rules| - 1;
      assert rules == rules[..n] + [rules[n]] && rules[n] in rules;
      ActsStay(rules[..n], rules[n], path);
      KeptSurvives(rules[..n], path, v);
    }
  }

  /** With a single rule on the path, a mask is the mask of the original. */
  lemma OneRuleMasksOriginal(source: Json, rules: seq<Rule>, payload: Json, i: nat, loc: Loc, r: Rule)
    requires Produces(source, rules, payload) && DistinctPaths(rules)
    requires i < |REGISTRY| && Matches(REGISTRY[i].path, loc) && r in rules && r.path == REGISTRY[i].path && r.action.MaskIdentifier?
    ensures var v, w := At(Clone(source), loc), At(payload, loc); w == (if Nullary(v) then v else Str(Mask(ToText(v))))
  {
    hide Matches, TreatedAll, Produces, Clone, InOrder, Mask, ToText, FieldOf, At, DistinctPaths, NotBelow, Apart, OutsideOmissions;
    var f := REGISTRY[i];
    RegistryFinds(i);
    InOrderSame(rules);
    TargetsOutsideOmissions(f.path, loc);
    PayloadLocations(source, rules, payload, loc);
    TreatedOnce(InOrder(rules), f.path, At(Clone(source), loc));
  }

  lemma RegistryFinds(i: nat)
    requires i < |REGISTRY|
    ensures FieldOf(REGISTRY[i].path) == Some(REGISTRY[i])
  {
    var p := REGISTRY[i].path;
    FieldAtFinds(p, |REGISTRY|);
    var j :| 0 <= j < |REGISTRY| && REGISTRY[j] == FieldOf(p).value && REGISTRY[j].path == p;
    if j < i { RegistryDiverges(j, i); var k := DivergeWhere(REGISTRY[j].path, p); }
    if i < j { RegistryDiverges(i, j); var k := DivergeWhere(p, REGISTRY[j].path); }
  }

  lemma NullCloneIsNull(v: Json)
    requires Nullary(v)
    ensures Nullary(Clone(v))
  {
  }
}
