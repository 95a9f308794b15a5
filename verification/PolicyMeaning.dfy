/** What the policy language says, in the terms a policy author writes: operator and effect texts, payload
    entries, priorities and the fields of the result. */
module PolicyMeaning {
  import opened Optional
  import opened Sorting
  import opened Strings
  import opened Numbers
  import opened JsonTree
  import opened JsonLiterals
  import opened PolicySchema
  import opened PolicyMerge
  import opened PolicyMergeFacts
  import opened PolicyEngine
  import opened PolicyTheorems

  // ---------------------------------------------------------------- conditions

  /** The four comparisons hold in the direction of their names, on all finite numbers. */
  lemma ComparesNumbers(v: Json, w: Json)
    requires v.Num? && w.Num?
    ensures EvalOperator(Greater, v, w) <==> NumLe(w.n, v.n) && v != w
    ensures EvalOperator(GreaterOrEqual, v, w) <==> NumLe(w.n, v.n)
    ensures EvalOperator(Less, v, w) <==> NumLe(v.n, w.n) && v != w
    ensures EvalOperator(LessOrEqual, v, w) <==> NumLe(v.n, w.n)
  {
    hide NumLe;
    NumLeIsTotalOrder();
  }

  /** For integers counted in any common unit they are the integer comparisons. */
  lemma ComparesIntegers(a: int, b: int, e: int)
    ensures var v, w := Num(Normalize(a, e)), Num(Normalize(b, e));
      && (EvalOperator(Greater, v, w) <==> a > b) && (EvalOperator(GreaterOrEqual, v, w) <==> a >= b)
      && (EvalOperator(Less, v, w) <==> a < b) && (EvalOperator(LessOrEqual, v, w) <==> a <= b)
      && (EvalOperator(Equals, v, w) <==> a == b) && (EvalOperator(NotEquals, v, w) <==> a != b)
    ensures EvalOperator(Greater, Num(FromInt(a)), Num(FromInt(b))) <==> a > b
    ensures EvalOperator(Less, Num(FromInt(a)), Num(FromInt(b))) <==> a < b
  {
    NumLeIsIntegerOrder(a, b, 0);
    NumLeIsIntegerOrder(b, a, 0);
    ComparesNumbers(Num(FromInt(a)), Num(FromInt(b)));
    hide NumLe, Normalize;
    NumLeIsIntegerOrder(a, b, e);
    NumLeIsIntegerOrder(b, a, e);
    ComparesNumbers(Num(Normalize(a, e)), Num(Normalize(b, e)));
  }

  /** An infinite fact lies beyond every number on its side; NaN compares with nothing. */
  lemma ComparesInfinity(w: Json, negative: bool)
    requires w.Num?
    ensures var v := Infinity(negative);
      && (EvalOperator(Greater, v, w) <==> !negative) && (EvalOperator(GreaterOrEqual, v, w) <==> !negative)
      && (EvalOperator(Less, v, w) <==> negative) && (EvalOperator(LessOrEqual, v, w) <==> negative)
    ensures !EvalOperator(Greater, NaN, w) && !EvalOperator(GreaterOrEqual, NaN, w) && !EvalOperator(Less, NaN, w) && !EvalOperator(LessOrEqual, NaN, w)
  {
  }

  /** The fact a leaf reads: absent ones are undefined. */
  predicate Reads(leaf: Json, facts: Facts, v: Json) {
    && Get(leaf, "field").Str?
    && var name := Get(leaf, "field").s;
       (name in facts && v == facts[name]) || (name !in facts && name !in INHERITED_NAMES && v == Undefined)
  }

  /** A leaf with a comparison asks the fact on the left against the value on the right. */
  lemma LeafCompares(leaf: Json, facts: Facts, v: Json)
    requires Reads(leaf, facts, v) && v.Num? && Get(leaf, "value").Num?
    ensures var t, w := Get(leaf, "operator"), Get(leaf, "value");
      && (t == Str("GREATER_THAN") ==> (EvalLeaf(leaf, facts) <==> NumLe(w.n, v.n) && v != w))
      && (t == Str("GREATER_THAN_OR_EQUAL") ==> (EvalLeaf(leaf, facts) <==> NumLe(w.n, v.n)))
      && (t == Str("LESS_THAN") ==> (EvalLeaf(leaf, facts) <==> NumLe(v.n, w.n) && v != w))
      && (t == Str("LESS_THAN_OR_EQUAL") ==> (EvalLeaf(leaf, facts) <==> NumLe(v.n, w.n)))
  {
    hide NumLe, Get, EvalOperator, ReadOperator;
    OperatorTexts(Get(leaf, "operator"));
    ComparesNumbers(v, Get(leaf, "value"));
  }

  const OPERATOR_TEXTS := {
    "EQUALS", "NOT_EQUALS", "IN", "NOT_IN", "EXISTS", "NOT_EXISTS", "GREATER_THAN", "GREATER_THAN_OR_EQUAL", "LESS_THAN", "LESS_THAN_OR_EQUAL"}

  lemma KnownOperators(v: Json)
    ensures ReadOperator(v).Some? ==> v.Str? && v.s in OPERATOR_TEXTS
  {
  }

  lemma AskingTexts()
    ensures ReadOperator(Str("EQUALS")) == Some(Equals) && ReadOperator(Str("NOT_EQUALS")) == Some(NotEquals)
    ensures ReadOperator(Str("IN")) == Some(In) && ReadOperator(Str("NOT_IN")) == Some(NotIn)
    ensures ReadOperator(Str("EXISTS")) == Some(Exists) && ReadOperator(Str("NOT_EXISTS")) == Some(NotExists)
  {
  }

  lemma ComparingTexts()
    ensures ReadOperator(Str("GREATER_THAN")) == Some(Greater) && ReadOperator(Str("LESS_THAN")) == Some(Less)
    ensures ReadOperator(Str("GREATER_THAN_OR_EQUAL")) == Some(GreaterOrEqual) && ReadOperator(Str("LESS_THAN_OR_EQUAL")) == Some(LessOrEqual)
  {
  }

  /** The texts of the operators; there are no others. */
  lemma OperatorTexts(v: Json)
    ensures ReadOperator(v).Some? <==> v.Str? && v.s in OPERATOR_TEXTS
    ensures ReadOperator(Str("EQUALS")) == Some(Equals) && ReadOperator(Str("NOT_EQUALS")) == Some(NotEquals)
    ensures ReadOperator(Str("IN")) == Some(In) && ReadOperator(Str("NOT_IN")) == Some(NotIn)
    ensures ReadOperator(Str("EXISTS")) == Some(Exists) && ReadOperator(Str("NOT_EXISTS")) == Some(NotExists)
    ensures ReadOperator(Str("GREATER_THAN")) == Some(Greater) && ReadOperator(Str("LESS_THAN")) == Some(Less)
    ensures ReadOperator(Str("GREATER_THAN_OR_EQUAL")) == Some(GreaterOrEqual) && ReadOperator(Str("LESS_THAN_OR_EQUAL")) == Some(LessOrEqual)
  {
    hide ReadOperator;
    KnownOperators(v);
    AskingTexts();
    ComparingTexts();
  }

  lemma OperatorAsks(v: Json, w: Json)
    requires !IsObject(v) && !v.NaN?
    ensures (EvalOperator(Equals, v, w) <==> v == w) && (EvalOperator(NotEquals, v, w) <==> v != w)
    ensures (EvalOperator(In, v, w) <==> w.Arr? && v in w.items) && (EvalOperator(NotIn, v, w) <==> w.Arr? && v !in w.items)
    ensures EvalOperator(Exists, v, w) <==> v != Undefined && v != Null
    ensures EvalOperator(NotExists, v, w) <==> v == Undefined || v == Null
  {
  }

  /** Equality, membership and presence, on a fact that is no object; any other operator text never holds. */
  lemma LeafAsks(leaf: Json, facts: Facts, v: Json)
    requires Reads(leaf, facts, v) && !IsObject(v) && !v.NaN?
    ensures var t, w := Get(leaf, "operator"), Get(leaf, "value");
      && (t == Str("EQUALS") ==> (EvalLeaf(leaf, facts) <==> v == w))
      && (t == Str("NOT_EQUALS") ==> (EvalLeaf(leaf, facts) <==> v != w))
      && (t == Str("IN") ==> (EvalLeaf(leaf, facts) <==> w.Arr? && v in w.items))
      && (t == Str("NOT_IN") ==> (EvalLeaf(leaf, facts) <==> w.Arr? && v !in w.items))
      && (t == Str("EXISTS") ==> (EvalLeaf(leaf, facts) <==> v != Undefined && v != Null))
      && (t == Str("NOT_EXISTS") ==> (EvalLeaf(leaf, facts) <==> v == Undefined || v == Null))
      && (!t.Str? || t.s !in OPERATOR_TEXTS ==> !EvalLeaf(leaf, facts))
  {
    hide Get, ReadOperator, EvalOperator;
    OperatorTexts(Get(leaf, "operator"));
    OperatorAsks(v, Get(leaf, "value"));
  }

  lemma OperatorAsksOddly(v: Json, w: Json)
    requires IsObject(v) || v.NaN?
    ensures !EvalOperator(Equals, v, w) && EvalOperator(NotEquals, v, w) && EvalOperator(Exists, v, w) && !EvalOperator(NotExists, v, w)
    ensures EvalOperator(In, v, w) <==> v.NaN? && w.Arr? && NaN in w.items
    ensures EvalOperator(NotIn, v, w) <==> w.Arr? && !(v.NaN? && NaN in w.items)
  {
  }

  /** A fact that is an object or not a number equals nothing, though a list may hold not-a-number, and it exists. */
  lemma LeafAsksOddly(leaf: Json, facts: Facts, v: Json)
    requires Reads(leaf, facts, v) && (IsObject(v) || v.NaN?)
    ensures var t, w := Get(leaf, "operator"), Get(leaf, "value");
      && (t == Str("EQUALS") || t == Str("NOT_EXISTS") ==> !EvalLeaf(leaf, facts))
      && (t == Str("NOT_EQUALS") || t == Str("EXISTS") ==> EvalLeaf(leaf, facts))
      && (t == Str("IN") ==> (EvalLeaf(leaf, facts) <==> v.NaN? && w.Arr? && NaN in w.items))
      && (t == Str("NOT_IN") ==> (EvalLeaf(leaf, facts) <==> w.Arr? && !(v.NaN? && NaN in w.items)))
  {
    hide Get, ReadOperator, EvalOperator, IsObject;
    OperatorTexts(Get(leaf, "operator"));
    OperatorAsksOddly(v, Get(leaf, "value"));
  }

  /** A comparison with anything that is no number never holds. */
  lemma LeafNeedsNumbers(leaf: Json, facts: Facts, v: Json)
    requires Reads(leaf, facts, v) && !IsNumber(v)
    requires Get(leaf, "operator") in [Str("GREATER_THAN"), Str("GREATER_THAN_OR_EQUAL"), Str("LESS_THAN"), Str("LESS_THAN_OR_EQUAL")]
    ensures !EvalLeaf(leaf, facts)
  {
    hide NumLe, Get, ReadOperator;
    OperatorTexts(Get(leaf, "operator"));
  }

  /** A group holds when it has members and all, or for any other kind some, of them hold. */
  lemma GroupHoldsIff(node: Json, facts: Facts)
    requires Get(node, "group").Str? && Get(node, "nodes").Arr?
    ensures var items := Get(node, "nodes").items;
      && (Get(node, "group").s == "ALL" ==> (EvalNode(node, facts) <==> items != [] && forall n :: n in items ==> EvalNode(n, facts)))
      && (Get(node, "group").s != "ALL" ==> (EvalNode(node, facts) <==> exists n :: n in items && EvalNode(n, facts)))
  {
    hide Get, EvalLeaf;
    var items := Get(node, "nodes").items;
    assert Children(node) == items;
    assert forall i :: 0 <= i < |items| ==> items[i] in items;
    forall n | n in items ensures exists i :: 0 <= i < |items| && items[i] == n {}
  }

  /** A node that is no group is a leaf. */
  lemma LeafNode(node: Json, facts: Facts)
    requires !Get(node, "group").Str?
    ensures EvalNode(node, facts) <==> EvalLeaf(node, facts)
  {
    hide EvalLeaf, Get;
  }

  // ---------------------------------------------------------------- effects

  lemma EntryReads(e: Json, key: string)
    ensures Entry(e, key) == Get(Get(e, "payload"), key)
  {
  }

  const EFFECT_TEXTS := {
    "CREATE_INCIDENT", "UPDATE_INCIDENT", "SET_RECOMMENDED_SEVERITY", "SET_RECOMMENDED_URGENCY", "REQUIRE_REVIEW",
    "REQUIRE_SUPERVISOR_REVIEW", "CREATE_ESCALATION_RECOMMENDATION", "SET_ESCALATION_LEVEL", "PROPOSE_PROTECTION_PLAN",
    "PROPOSE_PROTECTION_ACTION", "ALLOW_AUTOMATIC_INTERVENTION", "REQUIRE_MANUAL_INTERVENTION_APPROVAL",
    "ALLOW_GUARDIAN_CONTACT_CONSIDERATION", "PROHIBIT_GUARDIAN_CONTACT", "MANUAL_ONLY", "NO_ACTION"}

  /** An effect has a type only by one of these texts. */
  lemma EffectTexts(v: Json)
    requires ReadEffectType(v).Some?
    ensures v.Str? && v.s in EFFECT_TEXTS
  {
  }

  lemma IncidentTexts()
    ensures ReadEffectType(Str("CREATE_INCIDENT")) == Some(CreateIncident)
    ensures ReadEffectType(Str("UPDATE_INCIDENT")) == Some(UpdateIncident)
    ensures ReadEffectType(Str("SET_RECOMMENDED_SEVERITY")) == Some(SetRecommendedSeverity)
    ensures ReadEffectType(Str("SET_RECOMMENDED_URGENCY")) == Some(SetRecommendedUrgency)
  {
  }

  lemma ReviewTexts()
    ensures ReadEffectType(Str("REQUIRE_REVIEW")) == Some(RequireReview)
    ensures ReadEffectType(Str("REQUIRE_SUPERVISOR_REVIEW")) == Some(RequireSupervisorReview)
    ensures ReadEffectType(Str("CREATE_ESCALATION_RECOMMENDATION")) == Some(CreateEscalationRecommendation)
    ensures ReadEffectType(Str("SET_ESCALATION_LEVEL")) == Some(SetEscalationLevel)
  {
  }

  lemma ProtectionTexts()
    ensures ReadEffectType(Str("PROPOSE_PROTECTION_PLAN")) == Some(ProposeProtectionPlan)
    ensures ReadEffectType(Str("PROPOSE_PROTECTION_ACTION")) == Some(ProposeProtectionAction)
  {
  }

  lemma InterventionTexts()
    ensures ReadEffectType(Str("ALLOW_AUTOMATIC_INTERVENTION")) == Some(AllowAutomaticIntervention)
    ensures ReadEffectType(Str("REQUIRE_MANUAL_INTERVENTION_APPROVAL")) == Some(RequireManualInterventionApproval)
  {
  }

  lemma ContactTexts()
    ensures ReadEffectType(Str("ALLOW_GUARDIAN_CONTACT_CONSIDERATION")) == Some(AllowGuardianContactConsideration)
    ensures ReadEffectType(Str("PROHIBIT_GUARDIAN_CONTACT")) == Some(ProhibitGuardianContact)
  {
    hide ReadEffectType;
    PermissionText();
    ProhibitionText();
  }

  lemma PermissionText()
    ensures ReadEffectType(Str("ALLOW_GUARDIAN_CONTACT_CONSIDERATION")) == Some(AllowGuardianContactConsideration)
  {
    assert |"ALLOW_GUARDIAN_CONTACT_CONSIDERATION"| == 36;
  }

  lemma ProhibitionText()
    ensures ReadEffectType(Str("PROHIBIT_GUARDIAN_CONTACT")) == Some(ProhibitGuardianContact)
  {
    assert |"PROHIBIT_GUARDIAN_CONTACT"| == 25;
  }

  lemma ClosingTexts()
    ensures ReadEffectType(Str("MANUAL_ONLY")) == Some(ManualOnly)
    ensures ReadEffectType(Str("NO_ACTION")) == Some(NoAction)
  {
  }

  /** The text of each effect type. */
  function EffectText(t: EffectType): string {
    match t
    case CreateIncident => "CREATE_INCIDENT"
    case UpdateIncident => "UPDATE_INCIDENT"
    case SetRecommendedSeverity => "SET_RECOMMENDED_SEVERITY"
    case SetRecommendedUrgency => "SET_RECOMMENDED_URGENCY"
    case RequireReview => "REQUIRE_REVIEW"
    case RequireSupervisorReview => "REQUIRE_SUPERVISOR_REVIEW"
    case CreateEscalationRecommendation => "CREATE_ESCALATION_RECOMMENDATION"
    case SetEscalationLevel => "SET_ESCALATION_LEVEL"
    case ProposeProtectionPlan => "PROPOSE_PROTECTION_PLAN"
    case ProposeProtectionAction => "PROPOSE_PROTECTION_ACTION"
    case AllowAutomaticIntervention => "ALLOW_AUTOMATIC_INTERVENTION"
    case RequireManualInterventionApproval => "REQUIRE_MANUAL_INTERVENTION_APPROVAL"
    case AllowGuardianContactConsideration => "ALLOW_GUARDIAN_CONTACT_CONSIDERATION"
    case ProhibitGuardianContact => "PROHIBIT_GUARDIAN_CONTACT"
    case ManualOnly => "MANUAL_ONLY"
    case NoAction => "NO_ACTION"
  }

  predicate Typed(e: Json, text: string) { Get(e, "type") == Str(text) }

  lemma TextOfType(t: EffectType)
    ensures ReadEffectType(Str(EffectText(t))) == Some(t)
  {
    hide ReadEffectType;
    IncidentTexts();
    ReviewTexts();
    ProtectionTexts();
    InterventionTexts();
    ContactTexts();
    ClosingTexts();
  }

  lemma TypeOfText(v: Json, t: EffectType)
    requires ReadEffectType(v) == Some(t)
    ensures v == Str(EffectText(t))
  {
    hide ReadEffectType;
    EffectTexts(v);
    IncidentTexts();
    ReviewTexts();
    ProtectionTexts();
    InterventionTexts();
    ContactTexts();
    ClosingTexts();
  }

  /** An effect is of a type exactly when it carries the type's text. */
  lemma TypedIff(e: Json, t: EffectType)
    ensures Is(e, t) <==> Typed(e, EffectText(t))
  {
    hide Get, ReadEffectType, EffectText;
    TextOfType(t);
    if Is(e, t) { TypeOfText(Get(e, "type"), t); }
  }

  /** What counts as true, and what as text, where an effect or a rule was never validated. */
  lemma LooseReadings(v: Json, d: string)
    ensures Truthy(v) <==> v !in [Undefined, Null, NaN, Bool(false), Num(Decimal(0, 0)), Str("")]
    ensures TextOr(v, d) == if v in [Undefined, Null] then d else ToText(v)
  {
    hide ToText;
    assert forall n: Number :: n.m == 0 ==> n == Decimal(0, 0);
  }

  /** What a valid proposal proposes, whether it asks for approval, and its reason. */
  lemma ProposalReads(e: Json, at: string)
    requires EffectOk(e)
    ensures Proposes(e, at) <==> Typed(e, "PROPOSE_PROTECTION_ACTION") && Get(Get(e, "payload"), "actionType") == Str(at)
    ensures Reasons(e, at) <==> Proposes(e, at)
    ensures Proposes(e, at) ==> Get(Get(e, "payload"), "reasonCode") == Str(ToText(Entry(e, "reasonCode")))
    ensures Proposes(e, at) ==> (Approves(e) <==> Get(Get(e, "payload"), "requiresApproval") == Bool(true))
  {
    EntryReads(e, "actionType");
    EntryReads(e, "reasonCode");
    EntryReads(e, "requiresApproval");
    TypedIff(e, ProposeProtectionAction);
    hide Get, PayloadOf, ReadEffectType, OwnKeys;
  }

  /** Three parts of the bounds of an allowance, by payload entry, with the lowest values where nothing is given. */
  lemma BoundReads(e: Json)
    ensures var b := BoundOf(e);
      && (forall s :: Entry(e, "interventionType") == Str(s) ==> b.interventionType == s)
      && (forall s :: Entry(e, "maxSeverity") == Str(s) ==> b.maxSeverity == s)
      && (forall s :: Entry(e, "maxUrgency") == Str(s) ==> b.maxUrgency == s)
      && (Entry(e, "maxSeverity") in [Undefined, Null] ==> b.maxSeverity == "low")
      && (Entry(e, "maxUrgency") in [Undefined, Null] ==> b.maxUrgency == "routine")
  {
    hide Entry, Sort;
  }

  /** And the fourth: the prerequisites given, in alphabetical order. */
  lemma PrerequisitesRead(e: Json, ts: seq<string>)
    ensures !Entry(e, "prerequisites").Arr? ==> BoundOf(e).prerequisites == []
    ensures Entry(e, "prerequisites").Arr? && |Entry(e, "prerequisites").items| == |ts|
            && (forall i :: 0 <= i < |ts| ==> Entry(e, "prerequisites").items[i] == Str(ts[i])) ==>
      Sorted(StrLe, BoundOf(e).prerequisites) && multiset(BoundOf(e).prerequisites) == multiset(ts)
  {
    hide Entry, Sort, Sorted, StrLe;
    StrLeIsTotalOrder();
    if Entry(e, "prerequisites").Arr? {
      var items := Entry(e, "prerequisites").items;
      SortSorts(StrLe, TextsOf(items));
      SortPermutes(StrLe, TextsOf(items));
      if |items| == |ts| && forall i :: 0 <= i < |ts| ==> items[i] == Str(ts[i]) { assert TextsOf(items) == ts; }
    }
  }

  // ---------------------------------------------------------------- recommendations

  /** Some effect of this type recommends s. */
  ghost predicate Says(effects: seq<Json>, text: string, key: string, s: string) {
    exists e :: e in effects && Typed(e, text) && Get(Get(e, "payload"), key) == Str(s)
  }

  lemma SaysIff(effects: seq<Json>, t: EffectType, key: string, s: string)
    ensures Says(effects, EffectText(t), key, s) <==> Recommended(effects, t, key, s)
  {
    hide EffectText, Is, Entry, Get;
    forall e ensures Recommends(e, t, key, s) <==> Typed(e, EffectText(t)) && Get(Get(e, "payload"), key) == Str(s) {
      TypedIff(e, t);
      EntryReads(e, key);
    }
    if Says(effects, EffectText(t), key, s) {
      var e :| e in effects && Typed(e, EffectText(t)) && Get(Get(e, "payload"), key) == Str(s);
      var i :| 0 <= i < |effects| && effects[i] == e;
      assert Recommends(effects[i], t, key, s);
    }
    if Recommended(effects, t, key, s) {
      var i :| 0 <= i < |effects| && Recommends(effects[i], t, key, s);
      assert effects[i] in effects;
    }
  }

  lemma GreatestIs(v: Option<string>, effects: seq<Json>, t: EffectType, key: string, order: seq<string>, k: nat)
    requires k < |order| && Distinct(order)
    requires IsGreatest(v, effects, t, key, order) && Ranked(effects, t, key, order)
    ensures v == Some(order[k]) <==>
      Says(effects, EffectText(t), key, order[k]) && forall j :: k < j < |order| ==> !Says(effects, EffectText(t), key, order[j])
  {
    hide Recommended, Rank, EffectText, Says;
    forall s ensures Says(effects, EffectText(t), key, s) <==> Recommended(effects, t, key, s) { SaysIff(effects, t, key, s); }
    forall s ensures s in order ==> 0 <= Rank(s, order) < |order| && order[Rank(s, order)] == s { RankPlaces(s, order); }
    assert forall j :: 0 <= j < |order| ==> order[j] in order && Rank(order[j], order) == j;
    if v.Some? { RankedMember(effects, t, key, order, v.value); }
    if Recommended(effects, t, key, order[k]) { assert v.Some?; }
  }

  /** The severity recommended, from critical down. */
  lemma SeverityReads(collate: Collation, purpose: Purpose, effects: seq<Json>)
    requires EffectsOk(effects)
    ensures var v, says := Merged(collate, purpose, effects).recommendedSeverity, (s: string) => Says(effects, "SET_RECOMMENDED_SEVERITY", "severity", s);
      && (v == Some("critical") <==> says("critical"))
      && (v == Some("high") <==> says("high") && !says("critical"))
      && (v == Some("medium") <==> says("medium") && !says("high") && !says("critical"))
      && (v == Some("low") <==> says("low") && !says("medium") && !says("high") && !says("critical"))
      && (v.Some? ==> v.value in ["low", "medium", "high", "critical"])
  {
    hide Says, Merged, IsGreatest, Ranked, EffectsOk;
    RecommendationsAreGreatest(collate, purpose, effects);
    ValidEffectsRanked(effects);
    LevelsOf(Merged(collate, purpose, effects).recommendedSeverity, effects, SetRecommendedSeverity, "severity", SEVERITIES);
    assert SEVERITIES[0] == "low" && SEVERITIES[1] == "medium" && SEVERITIES[2] == "high" && SEVERITIES[3] == "critical";
  }

  /** The urgency recommended, from immediate down. */
  lemma UrgencyReads(collate: Collation, purpose: Purpose, effects: seq<Json>)
    requires EffectsOk(effects)
    ensures var v, says := Merged(collate, purpose, effects).recommendedUrgency, (s: string) => Says(effects, "SET_RECOMMENDED_URGENCY", "urgency", s);
      && (v == Some("immediate") <==> says("immediate"))
      && (v == Some("elevated") <==> says("elevated") && !says("immediate"))
      && (v == Some("routine") <==> says("routine") && !says("elevated") && !says("immediate"))
      && (v.Some? ==> v.value in ["routine", "elevated", "immediate"])
  {
    hide Says, Merged, IsGreatest, Ranked, EffectsOk;
    RecommendationsAreGreatest(collate, purpose, effects);
    ValidEffectsRanked(effects);
    LevelsOf(Merged(collate, purpose, effects).recommendedUrgency, effects, SetRecommendedUrgency, "urgency", URGENCIES);
    assert URGENCIES[0] == "routine" && URGENCIES[1] == "elevated" && URGENCIES[2] == "immediate";
  }

  /** The escalation level set, from urgent_internal down. */
  lemma EscalationReads(collate: Collation, purpose: Purpose, effects: seq<Json>)
    requires EffectsOk(effects)
    ensures var v, says := Merged(collate, purpose, effects).escalationLevel, (s: string) => Says(effects, "SET_ESCALATION_LEVEL", "level", s);
      && (v == Some("urgent_internal") <==> says("urgent_internal"))
      && (v == Some("internal") <==> says("internal") && !says("urgent_internal"))
      && (v == Some("monitor") <==> says("monitor") && !says("internal") && !says("urgent_internal"))
      && (v == Some("none") <==> says("none") && !says("monitor") && !says("internal") && !says("urgent_internal"))
      && (v.Some? ==> v.value in ["none", "monitor", "internal", "urgent_internal"])
  {
    hide Says, Merged, IsGreatest, Ranked, EffectsOk;
    RecommendationsAreGreatest(collate, purpose, effects);
    ValidEffectsRanked(effects);
    LevelsOf(Merged(collate, purpose, effects).escalationLevel, effects, SetEscalationLevel, "level", ESCALATION_LEVELS);
    assert ESCALATION_LEVELS[0] == "none" && ESCALATION_LEVELS[1] == "monitor" && ESCALATION_LEVELS[2] == "internal" && ESCALATION_LEVELS[3] == "urgent_internal";
  }

  lemma LevelsOf(v: Option<string>, effects: seq<Json>, t: EffectType, key: string, order: seq<string>)
    requires Distinct(order) && IsGreatest(v, effects, t, key, order) && Ranked(effects, t, key, order)
    ensures v.Some? ==> v.value in order
    ensures forall k :: 0 <= k < |order| ==> (v == Some(order[k]) <==>
      Says(effects, EffectText(t), key, order[k]) && forall j :: k < j < |order| ==> !Says(effects, EffectText(t), key, order[j]))
  {
    hide Says, IsGreatest, Ranked, EffectText, Recommended;
    forall k | 0 <= k < |order|
      ensures v == Some(order[k]) <==>
        Says(effects, EffectText(t), key, order[k]) && forall j :: k < j < |order| ==> !Says(effects, EffectText(t), key, order[j])
    {
      GreatestIs(v, effects, t, key, order, k);
    }
    GreatestListed(v, effects, t, key, order);
  }

  lemma GreatestListed(v: Option<string>, effects: seq<Json>, t: EffectType, key: string, order: seq<string>)
    requires IsGreatest(v, effects, t, key, order) && Ranked(effects, t, key, order)
    ensures v.Some? ==> v.value in order
  {
    hide Recommended, Rank;
    if v.Some? { RankedMember(effects, t, key, order, v.value); }
  }

  // ---------------------------------------------------------------- actions and allowances

  predicate Asked(e: Json, at: string) {
    Typed(e, "PROPOSE_PROTECTION_ACTION") && Get(Get(e, "payload"), "actionType") == Str(at)
  }

  predicate AskedApproval(e: Json, at: string) {
    Asked(e, at) && Get(Get(e, "payload"), "requiresApproval") == Bool(true)
  }

  /** The last effect asking for this action gives the reason. */
  ghost predicate LastAsked(effects: seq<Json>, at: string, reason: string) {
    exists k :: 0 <= k < |effects| && Asked(effects[k], at) && Get(Get(effects[k], "payload"), "reasonCode") == Str(reason)
      && forall j :: k < j < |effects| ==> !Asked(effects[j], at)
  }

  /** Each action asked for is listed once; it needs approval if any effect asking for it says so, and its reason is the last one given. */
  lemma ActionReads(collate: Collation, purpose: Purpose, effects: seq<Json>, at: string)
    requires TotalPreorder(collate) && EffectsOk(effects)
    ensures var list := Merged(collate, purpose, effects).proposedActions;
      && ((exists a :: a in list && a.actionType == at) <==> exists e :: e in effects && Asked(e, at))
      && forall a :: a in list && a.actionType == at ==>
           && (a.requiresApproval <==> exists e :: e in effects && AskedApproval(e, at))
           && LastAsked(effects, at, a.reasonCode)
  {
    hide Merged, EffectOk, Proposes, Reasons, Approves, Asked, ToText, Lookup;
    ActionsListed(collate, purpose, effects, at);
    var list := Merged(collate, purpose, effects).proposedActions;
    LookupFinds(ActionKey, list, at);
    forall i | 0 <= i < |effects|
      ensures (Proposes(effects[i], at) <==> Asked(effects[i], at)) && (Reasons(effects[i], at) <==> Asked(effects[i], at))
      ensures Asked(effects[i], at) ==> (Approves(effects[i]) <==> AskedApproval(effects[i], at))
      ensures Asked(effects[i], at) ==> Get(Get(effects[i], "payload"), "reasonCode") == Str(ToText(Entry(effects[i], "reasonCode")))
    {
      assert effects[i] in effects;
      AskedIff(effects[i], at);
    }
    MembersAsked(effects, at);
    forall a | a in list && a.actionType == at
      ensures (a.requiresApproval <==> exists e :: e in effects && AskedApproval(e, at)) && LastAsked(effects, at, a.reasonCode)
    {
      LookupMember(ActionKey, list, a);
      ReasonLast(effects, at, a.reasonCode);
    }
    KeyMembers(list, at);
  }

  lemma AskedIff(e: Json, at: string)
    requires EffectOk(e)
    ensures (Proposes(e, at) <==> Asked(e, at)) && (Reasons(e, at) <==> Asked(e, at))
    ensures Asked(e, at) ==> (Approves(e) <==> AskedApproval(e, at))
    ensures Asked(e, at) ==> Get(Get(e, "payload"), "reasonCode") == Str(ToText(Entry(e, "reasonCode")))
  {
    hide EffectOk, Proposes, Reasons, Approves, Get, Entry;
    ProposalReads(e, at);
  }

  lemma KeyMembers(list: seq<ProposedAction>, at: string)
    ensures at in KeysOf(ActionKey, list) <==> exists a :: a in list && a.actionType == at
  {
    if a :| a in list && a.actionType == at {
      var i :| 0 <= i < |list| && list[i] == a;
      assert ActionKey(list[i]) == at && KeysOf(ActionKey, list)[i] == at;
    }
    if at in KeysOf(ActionKey, list) {
      var i :| 0 <= i < |list| && KeysOf(ActionKey, list)[i] == at;
      assert list[i] in list && ActionKey(list[i]) == at;
    }
  }

  lemma MembersAsked(effects: seq<Json>, at: string)
    requires forall i :: 0 <= i < |effects| ==> (Proposes(effects[i], at) <==> Asked(effects[i], at))
    requires forall i :: 0 <= i < |effects| && Asked(effects[i], at) ==> (Approves(effects[i]) <==> AskedApproval(effects[i], at))
    ensures Proposed(effects, at) <==> exists e :: e in effects && Asked(e, at)
    ensures NeedsApproval(effects, at) <==> exists e :: e in effects && AskedApproval(e, at)
  {
    hide Proposes, Approves, Asked;
    forall e | e in effects ensures exists i :: 0 <= i < |effects| && effects[i] == e {}
    assert forall i :: 0 <= i < |effects| ==> effects[i] in effects;
    assert forall e :: AskedApproval(e, at) ==> Asked(e, at);
  }

  lemma ReasonLast(effects: seq<Json>, at: string, reason: string)
    requires Proposed(effects, at) && ReasonSaid(reason, effects, at)
    requires forall i :: 0 <= i < |effects| ==> (Proposes(effects[i], at) <==> Asked(effects[i], at)) && (Reasons(effects[i], at) <==> Asked(effects[i], at))
    requires forall i :: 0 <= i < |effects| && Asked(effects[i], at) ==>
      Get(Get(effects[i], "payload"), "reasonCode") == Str(ToText(Entry(effects[i], "reasonCode")))
    ensures LastAsked(effects, at, reason)
  {
    hide Proposes, Reasons, Asked, ToText, Entry, Get;
    var k :| LastReasoned(effects, at, k) && reason == ToText(Entry(effects[k], "reasonCode"));
    assert Asked(effects[k], at);
  }

  // ---------------------------------------------------------------- results

  /** A rule that fires: enabled, with a condition that holds. */
  predicate Fires(rule: Json, facts: Facts) {
    Get(rule, "enabled") == Bool(true) && EvalNode(Get(rule, "condition"), facts)
  }

  /** Some firing rule has an effect of this type. */
  ghost predicate Brings(rules: seq<Json>, facts: Facts, text: string) {
    exists r, e :: r in rules && Fires(r, facts) && Get(r, "effects").Arr? && e in Get(r, "effects").items && Typed(e, text)
  }

  lemma RuleReads(purpose: Option<Purpose>, rule: Json, facts: Facts)
    requires RuleOk(purpose, rule)
    ensures Enabled(rule) && Matches(rule, facts) <==> Fires(rule, facts)
    ensures Enabled(rule) <==> Get(rule, "enabled") == Bool(true)
    ensures Get(rule, "effects") == Arr(EffectsOf(rule))
    ensures Get(rule, "id") == Str(RuleId(rule)) && Get(rule, "priority") == Num(Priority(rule))
    ensures Get(rule, "explanationCode") == Str(TextOf(Get(rule, "explanationCode")))
  {
    hide ConditionOk, EffectOk, Get, EvalNode;
  }

  lemma CarriedReads(purpose: Option<Purpose>, rules: seq<Json>, facts: Facts, t: EffectType)
    requires RulesOk(purpose, rules, |rules|)
    ensures Carried(rules, facts, t) <==> Brings(rules, facts, EffectText(t))
  {
    hide RuleOk, Fires, Matches, Enabled, EffectsOf, Is, Typed, EffectText, Get;
    forall r | r in rules ensures (Enabled(r) && Matches(r, facts) <==> Fires(r, facts)) && Get(r, "effects") == Arr(EffectsOf(r)) {
      var i :| 0 <= i < |rules| && rules[i] == r;
      RuleReads(purpose, rules[i], facts);
    }
    forall e ensures Is(e, t) <==> Typed(e, EffectText(t)) { TypedIff(e, t); }
  }

  /** With a wrong purpose, or rules that are no list, nothing is evaluated: review is required, everything
      is manual, guardian contact is prohibited, and nothing else is decided. */
  lemma MismatchFailsClosed(collate: Collation, input: Input, def: Json)
    requires Get(def, "purpose") != Str(PurposeName(input.purpose)) || !Get(def, "rules").Arr?
    ensures var r := Evaluation(collate, input, def);
      && !r.ok && r.errorCode == Some("policy_purpose_mismatch") && r.purpose == r.decision.purpose == input.purpose
      && r.matchedRuleIds == [] && r.unmatchedRuleIds == None && r.explanationCodes == ["policy_fail_closed"]
      && r.engineVersion == "cs-policy-engine-v1" && r.evaluatedAt == input.evaluatedAt
      && r.decision.requireReview && r.decision.manualOnly && r.decision.prohibitGuardianContact
      && !r.decision.createIncident && !r.decision.updateIncident && !r.decision.requireSupervisorReview && !r.decision.recommendEscalation
      && !r.decision.proposeProtectionPlan && !r.decision.requireManualInterventionApproval
      && !r.decision.allowAutomaticIntervention && !r.decision.allowGuardianContactConsideration
      && r.decision.proposedActions == [] && r.decision.automaticInterventionBounds == []
      && r.decision.recommendedSeverity == r.decision.recommendedUrgency == r.decision.escalationLevel == None
  {
    hide CanonicalInput;
  }

  /** The order in which rules fire: a lower priority number first, then the smaller id. */
  predicate Before(a: Json, b: Json) {
    && Get(a, "priority").Num? && Get(b, "priority").Num? && Get(a, "id").Str? && Get(b, "id").Str?
    && NumLe(Get(a, "priority").n, Get(b, "priority").n)
    && (Get(a, "priority") == Get(b, "priority") ==> StrLe(Get(a, "id").s, Get(b, "id").s))
  }

  /** The enabled rules that fire, or those that do not, each once and in order, with their ids. */
  ghost predicate Lists(list: seq<Json>, ids: seq<string>, rules: seq<Json>, facts: Facts, firing: bool) {
    && |list| == |ids| && (forall i :: 0 <= i < |list| ==> Get(list[i], "id") == Str(ids[i]))
    && (forall i, j :: 0 <= i < j < |list| ==> Before(list[i], list[j]) && ids[i] != ids[j])
    && forall r :: r in list <==> r in rules && Get(r, "enabled") == Bool(true) && (Fires(r, facts) <==> firing)
  }

  lemma RulesDistinct(purpose: Option<Purpose>, rules: seq<Json>)
    requires RulesOk(purpose, rules, |rules|)
    ensures Distinct(Ordered(rules)) && Sorted(RuleLe, Ordered(rules))
    ensures forall r :: r in Ordered(rules) <==> r in rules && Enabled(r)
  {
    hide RuleOk, Enabled, RuleLe;
    assert Distinct(rules);
    var on := Filter(Enabled, rules);
    FilterDistinct(Enabled, rules);
    RuleLeIsPreorder();
    SortSorts(RuleLe, on);
    SortPermutes(RuleLe, on);
    DistinctFromMultiset(on, Ordered(rules));
  }

  lemma BeforeIff(purpose: Option<Purpose>, a: Json, b: Json)
    requires RuleOk(purpose, a) && RuleOk(purpose, b) && RuleLe(a, b)
    ensures Before(a, b)
  {
    hide RuleOk, NumLe, StrLe, Get;
    RuleReads(purpose, a, map[]);
    RuleReads(purpose, b, map[]);
    NumLeIsTotalOrder();
  }

  lemma PickedAreListed(purpose: Option<Purpose>, rules: seq<Json>, facts: Facts, list: seq<Json>, firing: bool)
    requires RulesOk(purpose, rules, |rules|)
    requires Distinct(list) && Sorted(RuleLe, list) && forall r :: r in list <==> r in rules && Enabled(r) && (Matches(r, facts) <==> firing)
    ensures Lists(list, RuleIds(list), rules, facts, firing)
  {
    hide RuleOk, RuleLe, Enabled, Matches, Fires, Before, Get, RuleId;
    forall r | r in rules
      ensures (Enabled(r) && Matches(r, facts) <==> Fires(r, facts)) && (Enabled(r) <==> Get(r, "enabled") == Bool(true))
      ensures Get(r, "id") == Str(RuleId(r)) && RuleOk(purpose, r)
    {
      var i :| 0 <= i < |rules| && rules[i] == r;
      assert RuleOk(purpose, rules[i]);
      RuleReads(purpose, r, facts);
    }
    assert forall i :: 0 <= i < |list| ==> list[i] in list;
    forall i, j | 0 <= i < j < |list| ensures Before(list[i], list[j]) && RuleIds(list)[i] != RuleIds(list)[j] {
      assert RuleLe(list[i], list[j]);
      BeforeIff(purpose, list[i], list[j]);
      var k :| 0 <= k < |rules| && rules[k] == list[i];
      var l :| 0 <= l < |rules| && rules[l] == list[j];
      assert k != l;
    }
  }

  lemma MatchedListed(purpose: Option<Purpose>, rules: seq<Json>, facts: Facts)
    requires RulesOk(purpose, rules, |rules|)
    ensures Lists(Matched(rules, facts), RuleIds(Matched(rules, facts)), rules, facts, true)
    ensures Lists(Unmatched(rules, facts), RuleIds(Unmatched(rules, facts)), rules, facts, false)
  {
    hide Lists, RulesOk, Ordered, RuleLe, Enabled, Matches, RuleIds;
    RulesDistinct(purpose, rules);
    FilterSorted((r: Json) => Matches(r, facts), Ordered(rules));
    FilterSorted((r: Json) => !Matches(r, facts), Ordered(rules));
    FilterDistinct((r: Json) => Matches(r, facts), Ordered(rules));
    FilterDistinct((r: Json) => !Matches(r, facts), Ordered(rules));
    PickedAreListed(purpose, rules, facts, Matched(rules, facts), true);
    PickedAreListed(purpose, rules, facts, Unmatched(rules, facts), false);
  }

  lemma {:induction false} CodesAre(rules: seq<Json>)
    ensures Distinct(Codes(rules))
    ensures forall c :: c in Codes(rules) <==> exists r :: r in rules && TextOf(Get(r, "explanationCode")) == c
  {
    hide Get, TextOf;
    if rules != [] {
      var n := |rules| - 1;
      CodesAre(rules[..n]);
      assert rules == rules[..n] + [rules[n]];
      assert rules[n] in rules;
    }
  }

  /** The codes stand in the order of their first use. */
  lemma {:induction false} CodesFirstUse(rules: seq<Json>, k: nat)
    requires k < |rules|
    ensures Codes(rules[..k]) <= Codes(rules)
    ensures TextOf(Get(rules[k], "explanationCode")) in Codes(rules)
    decreases |rules|
  {
    hide Get, TextOf;
    var n := |rules| - 1;
    if k < n {
      CodesFirstUse(rules[..n], k);
      assert rules[..n][..k] == rules[..k];
    }
  }

  /** The ids in the result, in firing order: of the rules that fire, and on request of those that do not. */
  lemma ResultIds(collate: Collation, input: Input, def: Json)
    requires Accepted(def) && Get(def, "purpose") == Str(PurposeName(input.purpose))
    ensures var r, rules, facts := Evaluation(collate, input, def), Get(def, "rules").items, input.facts;
      && r.ok && r.errorCode == None && r.purpose == r.decision.purpose == input.purpose
      && r.engineVersion == "cs-policy-engine-v1" && r.evaluatedAt == input.evaluatedAt
      && (exists list :: Lists(list, r.matchedRuleIds, rules, facts, true))
      && (r.unmatchedRuleIds.Some? <==> input.includeUnmatched)
      && (r.unmatchedRuleIds.Some? ==> exists list :: Lists(list, r.unmatchedRuleIds.value, rules, facts, false))
  {
    hide CanonicalInput, Merged, Lists, RulesOk, Matched, Unmatched, RuleIds, Codes, AllEffects, ReadPurpose, PlainText, ReadEffectType, Get;
    MatchedListed(ReadPurpose(Get(def, "purpose")), Rules(def), input.facts);
    MergedPurpose(collate, input.purpose, Collected(def, input.facts));
  }

  lemma MergedPurpose(collate: Collation, purpose: Purpose, effects: seq<Json>)
    ensures Merged(collate, purpose, effects).purpose == purpose
  {
    hide Has, Highest, Sort, Automatic;
  }

  /** The explanation codes in the result: those of the rules that fire, each once, or the code of the default. */
  lemma ResultCodes(collate: Collation, input: Input, def: Json)
    requires Accepted(def) && Get(def, "purpose") == Str(PurposeName(input.purpose))
    ensures var codes, rules, facts := Evaluation(collate, input, def).explanationCodes, Get(def, "rules").items, input.facts;
      && Distinct(codes)
      && ((exists r :: r in rules && Fires(r, facts)) ==>
            forall c :: c in codes <==> exists r :: r in rules && Fires(r, facts) && Get(r, "explanationCode") == Str(c))
      && (!(exists r :: r in rules && Fires(r, facts)) ==> codes == ["policy_default_effect"])
  {
    hide CanonicalInput, Merged, Matches, Enabled, RuleOk, Matched, Fires, RuleIds, Codes, AllEffects, ReadPurpose, PlainText, ReadEffectType, Get;
    var rules, matched := Rules(def), Matched(Rules(def), input.facts);
    MatchedInOrder(rules, input.facts);
    CodesAre(matched);
    forall r | r in rules
      ensures r in matched <==> Fires(r, input.facts)
      ensures Get(r, "explanationCode") == Str(TextOf(Get(r, "explanationCode")))
    {
      AcceptedRule(def, r);
      RuleReads(ReadPurpose(Get(def, "purpose")), r, input.facts);
    }
    if matched != [] { assert matched[0] in matched; } else { assert Codes([]) == [] by { NoRules(input.facts); } }
  }

  /** The effects that reach the merge are those of the firing rules, rule after rule. */
  lemma {:induction false} EffectsInOrder(a: seq<Json>, b: seq<Json>)
    ensures AllEffects(a + b) == AllEffects(a) + AllEffects(b)
    decreases |b|
  {
    hide AllEffects, EffectsOf, RuleIds, Codes;
    if b == [] {
      assert a + b == a;
      NoRules(map[]);
    } else {
      var n := |b| - 1;
      EffectsInOrder(a, b[..n]);
      OneMoreHit(a + b[..n], b[n]);
      OneMoreHit(b[..n], b[n]);
      assert a + b == a + b[..n] + [b[n]] && b == b[..n] + [b[n]];
    }
  }

  lemma EffectsOfOne(r: Json)
    ensures Get(r, "effects").Arr? ==> AllEffects([r]) == Get(r, "effects").items
  {
    hide Get;
    assert [r][..0] == [];
  }

  lemma BringsText(def: Json, facts: Facts, t: EffectType, text: string)
    requires Accepted(def) && EffectText(t) == text
    ensures Carried(Rules(def), facts, t) <==> Brings(Rules(def), facts, text)
  {
    hide Accepted, Brings, Carried, Get, Rules, EffectText, RulesOk, ReadPurpose;
    AcceptedRules(def);
    CarriedReads(ReadPurpose(Get(def, "purpose")), Rules(def), facts, t);
  }

  /** The decision's flags, by the effects that firing rules bring. */
  lemma FlagsRead(collate: Collation, input: Input, def: Json)
    requires Accepted(def) && Get(def, "purpose") == Str(PurposeName(input.purpose))
    requires exists r :: r in Rules(def) && Fires(r, input.facts)
    ensures var d, rules, facts := Evaluation(collate, input, def).decision, Rules(def), input.facts;
      && (d.createIncident <==> Brings(rules, facts, "CREATE_INCIDENT"))
      && (d.updateIncident <==> Brings(rules, facts, "UPDATE_INCIDENT"))
      && (d.requireSupervisorReview <==> Brings(rules, facts, "REQUIRE_SUPERVISOR_REVIEW"))
      && (d.recommendEscalation <==> Brings(rules, facts, "CREATE_ESCALATION_RECOMMENDATION"))
      && (d.proposeProtectionPlan <==> Brings(rules, facts, "PROPOSE_PROTECTION_PLAN"))
      && (d.requireManualInterventionApproval <==> Brings(rules, facts, "REQUIRE_MANUAL_INTERVENTION_APPROVAL"))
      && (d.prohibitGuardianContact <==> Brings(rules, facts, "PROHIBIT_GUARDIAN_CONTACT"))
      && (d.manualOnly <==> Brings(rules, facts, "MANUAL_ONLY"))
  {
    hide Evaluation, Matched, Carried, Brings, Fires, Accepted, Get, Rules, Mismatched, PurposeName;
    var facts := input.facts;
    SomeMatched(input, def);
    AcceptedMatches(input, def);
    FlagsAreCarried(collate, input, def);
    BringsText(def, facts, CreateIncident, "CREATE_INCIDENT");
    BringsText(def, facts, UpdateIncident, "UPDATE_INCIDENT");
    BringsText(def, facts, RequireSupervisorReview, "REQUIRE_SUPERVISOR_REVIEW");
    BringsText(def, facts, CreateEscalationRecommendation, "CREATE_ESCALATION_RECOMMENDATION");
    BringsText(def, facts, ProposeProtectionPlan, "PROPOSE_PROTECTION_PLAN");
    BringsText(def, facts, RequireManualInterventionApproval, "REQUIRE_MANUAL_INTERVENTION_APPROVAL");
    BringsText(def, facts, ProhibitGuardianContact, "PROHIBIT_GUARDIAN_CONTACT");
    BringsText(def, facts, ManualOnly, "MANUAL_ONLY");
  }

  /** Review, contact and automatic interventions: safe wishes win over permissive ones, across all firing rules. */
  lemma SafeFlagsRead(collate: Collation, input: Input, def: Json)
    requires Accepted(def) && Get(def, "purpose") == Str(PurposeName(input.purpose))
    requires exists r :: r in Rules(def) && Fires(r, input.facts)
    ensures var d, rules, facts := Evaluation(collate, input, def).decision, Rules(def), input.facts;
      && (d.requireReview <==> Brings(rules, facts, "REQUIRE_REVIEW") || Brings(rules, facts, "REQUIRE_SUPERVISOR_REVIEW"))
      && (d.allowGuardianContactConsideration <==>
            Brings(rules, facts, "ALLOW_GUARDIAN_CONTACT_CONSIDERATION") && !Brings(rules, facts, "PROHIBIT_GUARDIAN_CONTACT"))
      && (d.allowAutomaticIntervention <==>
            && Brings(rules, facts, "ALLOW_AUTOMATIC_INTERVENTION")
            && !Brings(rules, facts, "MANUAL_ONLY") && !Brings(rules, facts, "REQUIRE_MANUAL_INTERVENTION_APPROVAL"))
  {
    hide Evaluation, Matched, Carried, Brings, Fires, Accepted, Get, Rules, Mismatched, PurposeName;
    var facts := input.facts;
    SomeMatched(input, def);
    AcceptedMatches(input, def);
    DenyAndManualWin(collate, input, def);
    BringsText(def, facts, RequireReview, "REQUIRE_REVIEW");
    BringsText(def, facts, RequireSupervisorReview, "REQUIRE_SUPERVISOR_REVIEW");
    BringsText(def, facts, RequireManualInterventionApproval, "REQUIRE_MANUAL_INTERVENTION_APPROVAL");
    BringsText(def, facts, ProhibitGuardianContact, "PROHIBIT_GUARDIAN_CONTACT");
    BringsText(def, facts, ManualOnly, "MANUAL_ONLY");
    BringsText(def, facts, AllowGuardianContactConsideration, "ALLOW_GUARDIAN_CONTACT_CONSIDERATION");
    BringsText(def, facts, AllowAutomaticIntervention, "ALLOW_AUTOMATIC_INTERVENTION");
  }

  lemma AcceptedRules(def: Json)
    requires Accepted(def)
    ensures RulesOk(ReadPurpose(Get(def, "purpose")), Rules(def), |Rules(def)|)
  {
    hide RulesOk, Get, PlainText, ReadPurpose, ReadEffectType, UnitLength;
  }

  lemma AcceptedMatches(input: Input, def: Json)
    requires Accepted(def) && Get(def, "purpose") == Str(PurposeName(input.purpose))
    ensures !Mismatched(input, def)
  {
    hide RulesOk, Get, PlainText, ReadPurpose, ReadEffectType, UnitLength, PurposeName;
  }

  lemma SomeMatched(input: Input, def: Json)
    requires Accepted(def) && exists r :: r in Rules(def) && Fires(r, input.facts)
    ensures Matched(Rules(def), input.facts) != []
  {
    hide Accepted, Fires, Matches, Enabled, Matched, Get, Rules;
    var r :| r in Rules(def) && Fires(r, input.facts);
    AcceptedRule(def, r);
    RuleReads(ReadPurpose(Get(def, "purpose")), r, input.facts);
    MatchedInOrder(Rules(def), input.facts);
    assert r in Matched(Rules(def), input.facts);
  }

  // ---------------------------------------------------------------- the canonical input

  /** The given facts under the listed names, where they are texts, booleans or numbers, by ascending name. */
  ghost predicate ListsFacts(fs: seq<Field>, p: Purpose, facts: Facts) {
    && Distinct(Keys(fs)) && Sorted(StrLe, Keys(fs))
    && (forall k :: k in Keys(fs) <==>
          k in FieldNames(p) && k in facts && (facts[k].Str? || facts[k].Bool? || facts[k].Num? || facts[k].NaN? || facts[k].Infinity?))
    && forall k :: k in Keys(fs) ==> Find(fs, k) == facts[k]
  }

  /** The text of the canonical input. */
  lemma CanonicalInputForm(p: Purpose, facts: Facts)
    ensures exists fs :: (ListsFacts(fs, p, facts) && CanonicalInput(p, facts) ==
      "{" + Quote("p") + ":" + Quote(PurposeName(p)) + "," + Quote("e") + ":" + Quote("cs-policy-engine-v1") + ","
      + Quote("s") + ":1," + Quote("f") + ":" + ("{" + Join(",", PlainEntries(fs)) + "}" + "}"))
  {
    hide Quote, FieldNames, CanonicalInput, StrLe, Sort, PlainText, CanonicalFields, PurposeName, Find, Fact, ListsFacts, Head, Join;
    var names := SortedNames(p);
    var fs := CanonicalFields(names, facts);
    CanonicalFieldsAre(names, facts);
    CanonicalInputText(p, facts);
    PlainForms([], fs);
    HeadForm(p);
    ListedFacts(p, facts, names, fs);
  }

  lemma ListedFacts(p: Purpose, facts: Facts, names: seq<string>, fs: seq<Field>)
    requires forall n :: n in names <==> n in FieldNames(p)
    requires Distinct(Keys(fs)) && Sorted(StrLe, Keys(fs)) && forall n :: n in Keys(fs) <==> n in names && Shown(Fact(facts, n))
    requires forall n :: n in names && Shown(Fact(facts, n)) ==> Find(fs, n) == Fact(facts, n)
    ensures ListsFacts(fs, p, facts)
  {
    hide FieldNames, StrLe, Find;
    forall n | n in FieldNames(p) ensures n !in INHERITED_NAMES { ListedNamesAreOwn(p, n); }
  }

  lemma HeadForm(p: Purpose)
    ensures Head(p) == "{" + Quote("p") + ":" + Quote(PurposeName(p)) + "," + Quote("e") + ":" + Quote("cs-policy-engine-v1") + ","
      + Quote("s") + ":1," + Quote("f") + ":"
  {
    OnePrints();
    hide Quote, NumText, FromInt, PurposeName;
    assert Quote("s") + ":" + "1" + "," == Quote("s") + ":1,";
  }

  lemma OnePrints()
    ensures NumText(FromInt(1)) == "1"
  {
    assert Digits(1) == "1";
  }
}
