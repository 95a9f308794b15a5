/** Evaluating a validated policy against facts: conditions, rule order, default effect, fail-closed results. */
module PolicyEngine {
  import opened Optional
  import opened Sorting
  import opened Strings
  import opened Numbers
  import opened JsonTree
  import opened PolicySchema
  import opened PolicyMerge

  // ---------------------------------------------------------------- facts

  type Facts = map<string, Json>

  /** Reading a fact. A name every object inherits answers with something that is present but equals no policy value. */
  function Fact(facts: Facts, name: string): Json {
    if name in facts then facts[name] else if name in INHERITED_NAMES then Obj([]) else Undefined
  }

  /** a === b; two objects read from different places are different. */
  predicate StrictEquals(a: Json, b: Json) { !IsObject(a) && !a.NaN? && a == b }

  /** items.includes(v), which also finds NaN. */
  predicate Includes(items: seq<Json>, v: Json) { !IsObject(v) && v in items }

  predicate IsNumber(v: Json) { v.Num? || v.NaN? || v.Infinity? }

  predicate NumberLess(a: Json, b: Json)
    requires IsNumber(a) && IsNumber(b)
  {
    if a.NaN? || b.NaN? || a == b then false
    else if a.Infinity? then a.negative
    else if b.Infinity? then !b.negative
    else NumLe(a.n, b.n)
  }

  // ---------------------------------------------------------------- conditions

  predicate EvalOperator(op: Operator, v: Json, value: Json) {
    match op
    case Exists => !v.Undefined? && !v.Null?
    case NotExists => v.Undefined? || v.Null?
    case Equals => StrictEquals(v, value)
    case NotEquals => !StrictEquals(v, value)
    case In => value.Arr? && Includes(value.items, v)
    case NotIn => value.Arr? && !Includes(value.items, v)
    case Greater => IsNumber(v) && IsNumber(value) && NumberLess(value, v)
    case GreaterOrEqual => IsNumber(v) && IsNumber(value) && (NumberLess(value, v) || StrictEquals(v, value))
    case Less => IsNumber(v) && IsNumber(value) && NumberLess(v, value)
    case LessOrEqual => IsNumber(v) && IsNumber(value) && (NumberLess(v, value) || StrictEquals(v, value))
  }

  predicate EvalLeaf(leaf: Json, facts: Facts) {
    var op := ReadOperator(Get(leaf, "operator"));
    op.Some? && EvalOperator(op.value, Fact(facts, FieldName(leaf)), Get(leaf, "value"))
  }

  predicate EvalNode(node: Json, facts: Facts)
    decreases node
  {
    if IsGroup(node) then
      var items := Children(node);
      && items != []
      && if Get(node, "group") == Str("ALL")
         then forall i :: 0 <= i < |items| ==> EvalNode(items[i], facts)
         else exists i :: 0 <= i < |items| && EvalNode(items[i], facts)
    else EvalLeaf(node, facts)
  }

  // ---------------------------------------------------------------- canonical input

  /** The allow-listed facts that are text, number or boolean, under sorted names. */
  function CanonicalFields(names: seq<string>, facts: Facts): seq<Field> {
    if names == [] then []
    else
      var v := Fact(facts, names[0]);
      (if v.Str? || v.Bool? || IsNumber(v) then [Field(names[0], v)] else []) + CanonicalFields(names[1..], facts)
  }

  const ENGINE_VERSION := "cs-policy-engine-v1"

  function CanonicalInput(purpose: Purpose, facts: Facts): string {
    PlainText(Obj([
      Field("p", Str(PurposeName(purpose))),
      Field("e", Str(ENGINE_VERSION)),
      Field("s", Num(FromInt(1))),
      Field("f", Obj(CanonicalFields(Sort(StrLe, FieldNames(purpose)), facts)))]))
  }

  // ---------------------------------------------------------------- evaluation

  function Priority(rule: Json): Number { if Get(rule, "priority").Num? then Get(rule, "priority").n else FromInt(0) }

  function TextOf(v: Json): string { if v.Str? then v.s else "" }

  function RuleId(rule: Json): string { TextOf(Get(rule, "id")) }

  /** Ascending priority, then ascending id. */
  predicate RuleLe(a: Json, b: Json) {
    if Priority(a) == Priority(b) then StrLe(RuleId(a), RuleId(b)) else NumLe(Priority(a), Priority(b))
  }

  predicate Enabled(rule: Json) { Truthy(Get(rule, "enabled")) }

  function Ordered(rules: seq<Json>): seq<Json> { Sort(RuleLe, Filter(Enabled, rules)) }

  predicate Matches(rule: Json, facts: Facts) { EvalNode(Get(rule, "condition"), facts) }

  function Hits(rules: seq<Json>, facts: Facts): seq<Json> { Filter((r: Json) => Matches(r, facts), rules) }

  function Misses(rules: seq<Json>, facts: Facts): seq<Json> { Filter((r: Json) => !Matches(r, facts), rules) }

  function Matched(rules: seq<Json>, facts: Facts): seq<Json> { Hits(Ordered(rules), facts) }

  function Unmatched(rules: seq<Json>, facts: Facts): seq<Json> { Misses(Ordered(rules), facts) }

  function RuleIds(rules: seq<Json>): seq<string> {
    seq(|rules|, i requires 0 <= i < |rules| => RuleId(rules[i]))
  }

  /** Explanation codes in order, each once. */
  function Codes(rules: seq<Json>): seq<string> {
    if rules == [] then []
    else
      var n := |rules| - 1;
      var codes := Codes(rules[..n]);
      var c := TextOf(Get(rules[n], "explanationCode"));
      if c in codes then codes else codes + [c]
  }

  function EffectsOf(rule: Json): seq<Json> { if Get(rule, "effects").Arr? then Get(rule, "effects").items else [] }

  function AllEffects(rules: seq<Json>): seq<Json> {
    if rules == [] then [] else var n := |rules| - 1; AllEffects(rules[..n]) + EffectsOf(rules[n])
  }

  function DefaultEffect(def: Json): Json { Obj([Field("type", Get(def, "defaultEffect"))]) }

  datatype Result = Result(
    ok: bool, errorCode: Option<string>, purpose: Purpose, matchedRuleIds: seq<string>, unmatchedRuleIds: Option<seq<string>>,
    explanationCodes: seq<string>, decision: Decision, engineVersion: string, evaluatedAt: string, canonicalInput: string)

  /** Manual review, nothing automatic, no guardian contact. */
  function FailClosed(purpose: Purpose, errorCode: string, evaluatedAt: string, canonicalInput: string): Result {
    Result(false, Some(errorCode), purpose, [], None, ["policy_fail_closed"],
           EmptyDecision(purpose).(requireReview := true, manualOnly := true, prohibitGuardianContact := true),
           ENGINE_VERSION, evaluatedAt, canonicalInput)
  }

  datatype Input = Input(purpose: Purpose, facts: Facts, evaluatedAt: string, includeUnmatched: bool)

  predicate Mismatched(input: Input, def: Json) {
    Get(def, "purpose") != Str(PurposeName(input.purpose)) || !Get(def, "rules").Arr?
  }

  /** The effects that reach the merge. */
  function Collected(def: Json, facts: Facts): seq<Json> {
    var matched := Matched(Rules(def), facts);
    if matched == [] then [DefaultEffect(def)] else AllEffects(matched)
  }

  function Evaluation(collate: Collation, input: Input, def: Json): Result {
    var canonical := CanonicalInput(input.purpose, input.facts);
    if Mismatched(input, def) then FailClosed(input.purpose, "policy_purpose_mismatch", input.evaluatedAt, canonical)
    else
      var matched := Matched(Rules(def), input.facts);
      Result(true, None, input.purpose, RuleIds(matched),
             if input.includeUnmatched then Some(RuleIds(Unmatched(Rules(def), input.facts))) else None,
             Codes(matched) + (if matched == [] then ["policy_default_effect"] else []),
             Merged(collate, input.purpose, Collected(def, input.facts)),
             ENGINE_VERSION, input.evaluatedAt, canonical)
  }

  /** The pass over the ordered rules. */
  method RunRules(ordered: seq<Json>, facts: Facts, includeUnmatched: bool)
    returns (matched: seq<string>, unmatched: seq<string>, codes: seq<string>, collected: seq<Json>)
    ensures matched == RuleIds(Hits(ordered, facts)) && codes == Codes(Hits(ordered, facts))
    ensures unmatched == if includeUnmatched then RuleIds(Misses(ordered, facts)) else []
    ensures collected == AllEffects(Hits(ordered, facts))
  {
    hide Hits, Misses, RuleIds, Codes, AllEffects, Matches, RuleId, EffectsOf, Get;
    assert ordered[..0] == [];
    NoRules(facts);
    matched, unmatched, codes, collected := [], [], [], [];
    for i := 0 to |ordered|
      invariant matched == RuleIds(Hits(ordered[..i], facts)) && codes == Codes(Hits(ordered[..i], facts))
      invariant unmatched == if includeUnmatched then RuleIds(Misses(ordered[..i], facts)) else []
      invariant collected == AllEffects(Hits(ordered[..i], facts))
    {
      var rule := ordered[i];
      assert ordered[..i + 1] == ordered[..i] + [rule];
      OneMoreRule(ordered[..i], rule, facts);
      OneMoreHit(Hits(ordered[..i], facts), rule);
      OneMoreHit(Misses(ordered[..i], facts), rule);
      if Matches(rule, facts) {
        matched := matched + [RuleId(rule)];
        var c := TextOf(Get(rule, "explanationCode"));
        if c !in codes { codes := codes + [c]; }
        collected := collected + EffectsOf(rule);
      } else if includeUnmatched {
        unmatched := unmatched + [RuleId(rule)];
      }
    }
    assert ordered[..|ordered|] == ordered;
  }

  lemma NoRules(facts: Facts)
    ensures Hits([], facts) == [] && Misses([], facts) == [] && RuleIds([]) == [] && Codes([]) == [] && AllEffects([]) == []
  {
  }

  lemma OneMoreRule(rules: seq<Json>, rule: Json, facts: Facts)
    ensures Hits(rules + [rule], facts) == if Matches(rule, facts) then Hits(rules, facts) + [rule] else Hits(rules, facts)
    ensures Misses(rules + [rule], facts) == if Matches(rule, facts) then Misses(rules, facts) else Misses(rules, facts) + [rule]
  {
    hide Matches;
    assert (rules + [rule])[..|rules|] == rules;
  }

  lemma OneMoreHit(rules: seq<Json>, rule: Json)
    ensures RuleIds(rules + [rule]) == RuleIds(rules) + [RuleId(rule)]
    ensures AllEffects(rules + [rule]) == AllEffects(rules) + EffectsOf(rule)
    ensures var codes, c := Codes(rules), TextOf(Get(rule, "explanationCode"));
      Codes(rules + [rule]) == if c in codes then codes else codes + [c]
  {
    hide RuleId, EffectsOf, Get;
    assert (rules + [rule])[..|rules|] == rules;
  }

  method Evaluate(collate: Collation, input: Input, def: Json) returns (r: Result)
    requires Mismatched(input, def) || Accepted(def)
    ensures r == Evaluation(collate, input, def)
  {
    hide CanonicalInput, Mismatched, Accepted, Matches, RuleId, Merged, Ordered, EffectsOf, Get, Codes, AllEffects;
    var canonical := CanonicalInput(input.purpose, input.facts);
    if Mismatched(input, def) { return FailClosed(input.purpose, "policy_purpose_mismatch", input.evaluatedAt, canonical); }
    var matched, unmatched, codes, collected := RunRules(Ordered(Rules(def)), input.facts, input.includeUnmatched);
    if matched == [] {
      collected := [DefaultEffect(def)];
      codes := codes + ["policy_default_effect"];
    }
    var decision := MergeEffects(collate, input.purpose, collected);
    r := Result(true, None, input.purpose, matched, if input.includeUnmatched then Some(unmatched) else None,
                codes, decision, ENGINE_VERSION, input.evaluatedAt, canonical);
  }
}
