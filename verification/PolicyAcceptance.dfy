/** What acceptance of a policy definition amounts to in written-out terms, and which error each fault is reported as. */
module PolicyAcceptance {
  import opened Optional
  import opened Sorting
  import opened Strings
  import opened Numbers
  import opened JsonTree
  import opened PolicySchema
  import opened PolicyMerge
  import opened PolicyMergeFacts
  import opened PolicyEngine
  import opened PolicyTheorems
  import opened PolicyMeaning
  import opened PolicyValidator

  // ---------------------------------------------------------------- texts, values, payloads

  /** A non-empty text of at most max UTF-16 code units. */
  predicate Name(v: Json, max: nat) { v.Str? && 1 <= |CodeUnits(v.s)| <= max }

  lemma NameIff(v: Json, max: nat)
    ensures ShortText(v, max) <==> Name(v, max)
  {
    if v.Str? { StrLeByUnits(v.s, v.s); }
  }

  /** What a value of a field may be. */
  lemma ValuesOfKind(v: Json, allowed: seq<string>)
    ensures ValueOk(NumberField, v) <==> v.Num?
    ensures ValueOk(BooleanField, v) <==> v == Bool(true) || v == Bool(false)
    ensures ValueOk(StringField(None), v) <==> v.Str? && |CodeUnits(v.s)| <= 128
    ensures ValueOk(StringField(Some(allowed)), v) <==> exists i :: 0 <= i < |allowed| && v == Str(allowed[i])
  {
    if v.Str? { StrLeByUnits(v.s, v.s); }
  }

  /** Nothing but these keys in a payload. */
  predicate OnlyKeys(p: Json, keys: set<string>) { forall k :: k in OwnKeys(p) ==> k in keys }

  predicate OneText(v: Json, texts: set<string>) { v.Str? && v.s in texts }

  predicate PrerequisiteList(v: Json) {
    v.Arr? && |v.items| <= 10 && forall x :: x in v.items ==> x.Str? && |CodeUnits(x.s)| <= 64
  }

  lemma PrerequisiteListIff(v: Json)
    ensures PrerequisitesOk(v) <==> PrerequisiteList(v)
  {
    forall x: Json | x.Str? ensures UnitLength(x.s) == |CodeUnits(x.s)| { StrLeByUnits(x.s, x.s); }
  }

  /** The effects that carry a payload, and what it must hold. */
  lemma RecommendationPayload(e: Json, p: Json)
    requires IsObject(e) && p == PayloadOf(e)
    ensures Is(e, SetRecommendedSeverity) ==>
      (EffectOk(e) <==> OnlyKeys(p, {"severity"}) && OneText(Get(p, "severity"), {"low", "medium", "high", "critical"}))
    ensures Is(e, SetRecommendedUrgency) ==>
      (EffectOk(e) <==> OnlyKeys(p, {"urgency"}) && OneText(Get(p, "urgency"), {"routine", "elevated", "immediate"}))
    ensures Is(e, SetEscalationLevel) ==>
      (EffectOk(e) <==> OnlyKeys(p, {"level"}) && OneText(Get(p, "level"), {"none", "monitor", "internal", "urgent_internal"}))
  {
    hide Get, ReadEffectType, OwnKeys, PayloadOf;
  }

  lemma ActionPayload(e: Json, p: Json)
    requires IsObject(e) && p == PayloadOf(e) && Is(e, ProposeProtectionAction)
    ensures EffectOk(e) <==>
      && OnlyKeys(p, {"actionType", "reasonCode", "requiresApproval"}) && Get(p, "requiresApproval").Bool? && Name(Get(p, "reasonCode"), 64)
      && OneText(Get(p, "actionType"), {
           "review_account_safety", "preserve_evidence", "verify_guardian_contact", "notify_authorized_guardian", "restrict_interaction",
           "recommend_blocking", "recommend_reporting", "escalate_internal_safety", "legal_review", "welfare_check", "follow_up_review",
           "custom_internal_action"})
  {
    hide Get, ReadEffectType, OwnKeys, PayloadOf, ShortText, Name;
    NameIff(Get(p, "reasonCode"), 64);
  }

  lemma InterventionPayload(e: Json, p: Json)
    requires IsObject(e) && p == PayloadOf(e) && Is(e, AllowAutomaticIntervention)
    ensures EffectOk(e) <==>
      && OnlyKeys(p, {"interventionType", "maxSeverity", "maxUrgency", "prerequisites"}) && PrerequisiteList(Get(p, "prerequisites"))
      && OneText(Get(p, "maxSeverity"), {"low", "medium", "high", "critical"})
      && OneText(Get(p, "maxUrgency"), {"routine", "elevated", "immediate"})
      && OneText(Get(p, "interventionType"), {
           "local_safety_guidance", "queue_for_review", "notify_authorized_guardian", "create_or_update_incident", "urgent_escalation"})
  {
    hide Get, ReadEffectType, OwnKeys, PayloadOf, PrerequisitesOk, PrerequisiteList;
    PrerequisiteListIff(Get(p, "prerequisites"));
  }

  /** Every other effect carries nothing. */
  lemma BarePayload(e: Json, t: EffectType)
    requires IsObject(e) && Is(e, t)
    requires !(t.SetRecommendedSeverity? || t.SetRecommendedUrgency? || t.SetEscalationLevel? || t.ProposeProtectionAction? || t.AllowAutomaticIntervention?)
    ensures EffectOk(e) <==> OwnKeys(PayloadOf(e)) == []
  {
    hide Get, ReadEffectType, OwnKeys, PayloadOf;
    var ks := OwnKeys(PayloadOf(e));
    if ks != [] { assert ks[0] in ks; }
  }

  // ---------------------------------------------------------------- leaves

  /** A leaf's value fits its operator and the kind of its field. */
  lemma LeafFits(purpose: Option<Purpose>, leaf: Json, fd: Descriptor)
    requires HasText(Get(leaf, "field")) && DescriptorOf(purpose, FieldName(leaf)) == Some(fd)
    ensures var t, v := Get(leaf, "operator"), Get(leaf, "value");
      LeafOk(purpose, leaf) <==>
        || ((t == Str("EXISTS") || t == Str("NOT_EXISTS")) && v == Undefined)
        || ((t == Str("EQUALS") || t == Str("NOT_EQUALS")) && ValueOk(fd, v))
        || ((t == Str("IN") || t == Str("NOT_IN")) && v.Arr? && 1 <= |v.items| <= 50 && forall x :: x in v.items ==> ValueOk(fd, x))
        || (Compares(t) && fd == NumberField && v.Num?)
  {
    hide ReadOperator, DescriptorOf, FieldName, Get, HasText, ValueOk, Compares;
    OperatorClasses(Get(leaf, "operator"));
  }

  predicate Compares(v: Json) {
    v == Str("GREATER_THAN") || v == Str("GREATER_THAN_OR_EQUAL") || v == Str("LESS_THAN") || v == Str("LESS_THAN_OR_EQUAL")
  }

  lemma OperatorClasses(v: Json)
    ensures var op := ReadOperator(v);
      && (op.Some? && Numeric(op.value) <==> Compares(v))
      && (op == Some(Exists) || op == Some(NotExists) <==> v == Str("EXISTS") || v == Str("NOT_EXISTS"))
      && (op == Some(In) || op == Some(NotIn) <==> v == Str("IN") || v == Str("NOT_IN"))
      && (op == Some(Equals) || op == Some(NotEquals) <==> v == Str("EQUALS") || v == Str("NOT_EQUALS"))
  {
    hide ReadOperator;
    OperatorTexts(v);
  }

  /** The kinds of the listed fields. */
  lemma FieldKinds(p: Purpose)
    ensures var fs := FieldsFor(p);
      if p == SignalTriage then
        && |fs| == 9
        && (forall i :: 0 <= i < |fs| ==> (fs[i].descriptor == NumberField <==> fs[i].name in {"repeatedSignalCount", "distinctSourceCount", "signalAgeSeconds"}))
        && (forall i :: 0 <= i < |fs| ==> (fs[i].descriptor == BooleanField <==> fs[i].name == "immediateDangerFlag"))
        && (forall i :: 0 <= i < |fs| ==> (fs[i].descriptor == StringField(None) <==> fs[i].name == "sourceType"))
      else
        && |fs| == 13
        && (forall i :: 0 <= i < |fs| ==> (fs[i].descriptor == NumberField <==> fs[i].name in {"signalCount", "previousEscalationCount", "evidenceCount"}))
        && (forall i :: 0 <= i < |fs| ==>
              (fs[i].descriptor == BooleanField <==>
                 fs[i].name in {"hasActiveEscalation", "hasActiveProtectionPlan", "reviewerAssigned", "immediateDangerFlag"}))
        && (forall i :: 0 <= i < |fs| ==> fs[i].descriptor != StringField(None))
  {
  }

  /** A listed name is looked up as listed; any other is unknown unless every object has it, which then reads as free text. */
  lemma FieldLookup(p: Purpose, i: nat, n: string)
    requires i < |FieldsFor(p)|
    ensures DescriptorOf(Some(p), FieldsFor(p)[i].name) == Some(FieldsFor(p)[i].descriptor)
    ensures n !in FieldNames(p) ==>
      DescriptorOf(Some(p), n) == if n in {"constructor", "__defineGetter__", "__defineSetter__", "hasOwnProperty", "__lookupGetter__",
        "__lookupSetter__", "isPrototypeOf", "propertyIsEnumerable", "toString", "valueOf", "__proto__", "toLocaleString"}
        then Some(StringField(None)) else None
    ensures DescriptorOf(None, n) == if n in INHERITED_NAMES then Some(StringField(None)) else None
  {
    hide FieldsFor, FieldNames;
    FieldNamesDistinct(p);
    EntryIffListed(p, n);
    NamesAt(p);
    EntryAt(FieldsFor(p), i);
  }

  lemma NamesAt(p: Purpose)
    ensures |FieldNames(p)| == |FieldsFor(p)| && forall i :: 0 <= i < |FieldsFor(p)| ==> FieldNames(p)[i] == FieldsFor(p)[i].name
  {
    hide FieldsFor;
  }

  lemma {:induction false} EntryAt(fs: seq<FieldEntry>, i: nat)
    requires i < |fs| && forall j, k :: 0 <= j < k < |fs| ==> fs[j].name != fs[k].name
    ensures EntryOf(fs, fs[i].name) == Some(fs[i].descriptor)
  {
    if i > 0 { EntryAt(fs[1..], i - 1); }
  }

  // ---------------------------------------------------------------- trees

  lemma OneNode(leaf: Json)
    requires !IsGroup(leaf)
    ensures Depth(leaf) == 1 && NodeCount(leaf) == 1
  {
    hide Get;
    assert Children(leaf) == [];
  }

  lemma {:induction false} FlatCount(node: Json, items: seq<Json>)
    requires forall i :: 0 <= i < |items| ==> items[i] < node && !IsGroup(items[i])
    ensures CountAll(node, items) == |items| && DepthAll(node, items) == if items == [] then 0 else 1
  {
    hide Get, Children, IsGroup, Depth, NodeCount;
    if items != [] {
      FlatCount(node, items[1..]);
      OneNode(items[0]);
    }
  }

  /** A group of n sound leaves is accepted for 1 to 19 leaves: with itself, that makes at most 20 nodes. */
  lemma FlatGroupFits(purpose: Option<Purpose>, node: Json)
    requires (Get(node, "group") == Str("ALL") || Get(node, "group") == Str("ANY")) && Get(node, "nodes").Arr?
    requires forall n :: n in Get(node, "nodes").items ==> IsObject(n) && !Get(n, "group").Str? && LeafOk(purpose, n)
    ensures ConditionOk(purpose, node) <==> 1 <= |Get(node, "nodes").items| <= 19
  {
    hide Get, LeafOk, DepthAll, CountAll, IsObject;
    var items := Get(node, "nodes").items;
    GroupIsObject(node);
    assert Children(node) == items;
    forall i | 0 <= i < |items| ensures NodesOk(purpose, items[i]) && !IsGroup(items[i]) { assert items[i] in items; }
    FlatCount(node, Children(node));
  }

  lemma GroupIsObject(node: Json)
    requires Get(node, "group").Str?
    ensures IsObject(node)
  {
  }

  /** A group of any other kind is refused. */
  lemma OtherGroupsRefused(purpose: Option<Purpose>, node: Json)
    requires Get(node, "group").Str? && Get(node, "group").s !in ["ALL", "ANY"]
    ensures !ConditionOk(purpose, node)
  {
    hide Get, Depth, NodeCount;
  }

  /** Each level counts one: a group is one deeper than its only child and has one node more. */
  lemma NestedGroup(purpose: Option<Purpose>, node: Json, child: Json)
    requires (Get(node, "group") == Str("ALL") || Get(node, "group") == Str("ANY")) && Get(node, "nodes") == Arr([child])
    ensures Depth(node) == Depth(child) + 1 && NodeCount(node) == NodeCount(child) + 1
    ensures NodesOk(purpose, node) <==> NodesOk(purpose, child)
    ensures ConditionOk(purpose, node) <==> NodesOk(purpose, child) && Depth(child) <= 4 && NodeCount(child) <= 19
  {
    hide Get, LeafOk;
    GroupIsObject(node);
    assert Children(node) == [child] && Children(node)[0] < node;
    OneChild(node, child);
  }

  lemma OneChild(node: Json, child: Json)
    requires child < node
    ensures DepthAll(node, [child]) == Depth(child) && CountAll(node, [child]) == NodeCount(child)
  {
    hide Children;
    assert [child][1..] == [];
    assert Depth(child) >= 0;
  }

  // ---------------------------------------------------------------- definitions

  lemma PurposesRead()
    ensures ReadPurpose(Str("SIGNAL_TRIAGE")) == Some(SignalTriage) && ReadPurpose(Str("INCIDENT_CLASSIFICATION")) == Some(IncidentClassification)
    ensures ReadPurpose(Str("ESCALATION")) == Some(Escalation)
  {
  }

  lemma PlanPurposesRead()
    ensures ReadPurpose(Str("PROTECTION_PLAN")) == Some(ProtectionPlan)
    ensures ReadPurpose(Str("INTERVENTION_AUTHORIZATION")) == Some(InterventionAuthorization)
    ensures ReadPurpose(Str("GUARDIAN_CONTACT_ELIGIBILITY")) == Some(GuardianContactEligibility)
  {
  }

  lemma PurposeIff(v: Json)
    ensures ReadPurpose(v).Some? <==> OneText(v, {"SIGNAL_TRIAGE", "INCIDENT_CLASSIFICATION", "ESCALATION", "PROTECTION_PLAN",
      "INTERVENTION_AUTHORIZATION", "GUARDIAN_CONTACT_ELIGIBILITY"})
  {
    PurposesRead();
    PlanPurposesRead();
  }

  lemma EffectTypeIff(v: Json)
    ensures ReadEffectType(v).Some? <==> OneText(v, EFFECT_TEXTS)
  {
    hide ReadEffectType;
    if ReadEffectType(v).Some? { EffectTexts(v); }
    IncidentTexts();
    ReviewTexts();
    ProtectionTexts();
    InterventionTexts();
    ContactTexts();
    ClosingTexts();
  }

  /** A rule in written-out terms. */
  ghost predicate SoundRule(purpose: Option<Purpose>, rule: Json) {
    && IsObject(rule) && Name(Get(rule, "id"), 64) && Get(rule, "priority").Num? && Get(rule, "enabled").Bool?
    && Name(Get(rule, "explanationCode"), 64)
    && Get(rule, "effects").Arr? && 1 <= |Get(rule, "effects").items| <= 20
    && (forall e :: e in Get(rule, "effects").items ==> EffectOk(e))
    && NodesOk(purpose, Get(rule, "condition")) && Depth(Get(rule, "condition")) <= 5 && NodeCount(Get(rule, "condition")) <= 20
  }

  lemma RuleOkIff(purpose: Option<Purpose>, rule: Json)
    ensures RuleOk(purpose, rule) <==> SoundRule(purpose, rule)
  {
    hide EffectOk, NodesOk, Depth, NodeCount, Get, ShortText, Name, IsObject;
    NameIff(Get(rule, "id"), 64);
    NameIff(Get(rule, "explanationCode"), 64);
  }

  /** A definition in written-out terms. */
  lemma AcceptedIff(def: Json)
    ensures Accepted(def) <==>
      && IsObject(def) && |CodeUnits(PlainText(def))| <= 65536 && Get(def, "schemaVersion") == Num(Decimal(1, 0))
      && OneText(Get(def, "purpose"), {"SIGNAL_TRIAGE", "INCIDENT_CLASSIFICATION", "ESCALATION", "PROTECTION_PLAN",
           "INTERVENTION_AUTHORIZATION", "GUARDIAN_CONTACT_ELIGIBILITY"})
      && OneText(Get(def, "defaultEffect"), EFFECT_TEXTS)
      && Get(def, "rules").Arr? && |Get(def, "rules").items| <= 100
      && var rules := Get(def, "rules").items;
         && (forall i :: 0 <= i < |rules| ==> SoundRule(ReadPurpose(Get(def, "purpose")), rules[i]))
         && forall i, j :: 0 <= i < j < |rules| ==> Get(rules[i], "id") != Get(rules[j], "id")
  {
    hide RuleOk, SoundRule, PlainText, UnitLength, CodeUnits, ReadPurpose, ReadEffectType, OneText, IsObject, Get;
    StrLeByUnits(PlainText(def), "");
    PurposeIff(Get(def, "purpose"));
    EffectTypeIff(Get(def, "defaultEffect"));
    forall r ensures RuleOk(ReadPurpose(Get(def, "purpose")), r) <==> SoundRule(ReadPurpose(Get(def, "purpose")), r) {
      RuleOkIff(ReadPurpose(Get(def, "purpose")), r);
    }
  }

  // ---------------------------------------------------------------- which error is reported

  lemma HeaderHas(def: Json, c: ErrorCode)
    ensures c in HeaderErrors(def) <==>
      || (c == TooLarge && UnitLength(PlainText(def)) > 65536)
      || (c == BadSchemaVersion && Get(def, "schemaVersion") != Num(Decimal(1, 0)))
      || (c == BadPurpose && ReadPurpose(Get(def, "purpose")).None?)
      || (c == BadDefaultEffect && ReadEffectType(Get(def, "defaultEffect")).None?)
  {
    hide PlainText, UnitLength, ReadPurpose, ReadEffectType, Get;
    var a, b := If(UnitLength(PlainText(def)) > MAX_BYTES, TooLarge), If(Get(def, "schemaVersion") != Num(FromInt(1)), BadSchemaVersion);
    var x, y := If(ReadPurpose(Get(def, "purpose")).None?, BadPurpose), If(ReadEffectType(Get(def, "defaultEffect")).None?, BadDefaultEffect);
    assert c in HeaderErrors(def) <==> c in a || c in b || c in x || c in y;
  }

  /** The errors about the definition as a whole. */
  lemma DefinitionErrorsAre(def: Json, c: ErrorCode)
    requires !c.InRule? && !c.DuplicateId?
    ensures c in AllErrors(def) <==>
      match c
      case NotAnObject => !IsObject(def)
      case TooLarge => IsObject(def) && |CodeUnits(PlainText(def))| > 65536
      case BadSchemaVersion => IsObject(def) && Get(def, "schemaVersion") != Num(Decimal(1, 0))
      case BadPurpose => IsObject(def) && ReadPurpose(Get(def, "purpose")).None?
      case BadDefaultEffect => IsObject(def) && ReadEffectType(Get(def, "defaultEffect")).None?
      case RulesNotArray => IsObject(def) && !Get(def, "rules").Arr?
      case TooManyRules => IsObject(def) && Get(def, "rules").Arr? && |Get(def, "rules").items| > 100
      case _ => false
  {
    hide HeaderErrors, PlainText, UnitLength, CodeUnits, ReadPurpose, ReadEffectType, IsObject, Get, RulesErrors;
    StrLeByUnits(PlainText(def), "");
    HeaderHas(def, c);
    if Get(def, "rules").Arr? { OnlyRuleErrors(ReadPurpose(Get(def, "purpose")), Rules(def), |Rules(def)|); }
  }

  lemma {:induction false} OnlyRuleErrors(purpose: Option<Purpose>, rules: seq<Json>, n: nat)
    requires n <= |rules|
    ensures forall c :: c in RulesErrors(purpose, rules, n) ==> c.InRule? || c.DuplicateId?
  {
    hide RuleFaults, HasId, Get, IsObject;
    if n > 0 { OnlyRuleErrors(purpose, rules, n - 1); }
  }

  lemma RuleErrorStep(purpose: Option<Purpose>, rules: seq<Json>, n: nat, i: nat, f: RuleFault)
    requires 0 < n <= |rules|
    ensures InRule(i, f) in RulesErrors(purpose, rules, n) <==>
      || InRule(i, f) in RulesErrors(purpose, rules, n - 1)
      || (i == n - 1 && if !IsObject(rules[i]) then f == InvalidRule else (f == BadId && !HasId(rules[i])) || f in RuleFaults(purpose, rules[i]))
  {
    hide RuleFaults, Get, SeenIds, HasId, IsObject, Lift;
    LiftHas(n - 1, RuleFaults(purpose, rules[n - 1]), i, f);
  }

  /** The errors about one rule, under its index. */
  lemma {:induction false} RuleErrorsAre(purpose: Option<Purpose>, rules: seq<Json>, n: nat, i: nat, f: RuleFault)
    requires n <= |rules|
    ensures InRule(i, f) in RulesErrors(purpose, rules, n) <==>
      i < n && if !IsObject(rules[i]) then f == InvalidRule
               else (f == BadId && !Name(Get(rules[i], "id"), 64)) || f in RuleFaults(purpose, rules[i])
  {
    hide RuleFaults, Get, IsObject, Name, HasId;
    if n == 0 {
      assert RulesErrors(purpose, rules, 0) == [];
    } else {
      hide RulesErrors;
      RuleErrorsAre(purpose, rules, n - 1, i, f);
      RuleErrorStep(purpose, rules, n, i, f);
      IdsAreTexts(rules[n - 1]);
    }
  }

  lemma LiftHas(k: nat, faults: seq<RuleFault>, i: nat, f: RuleFault)
    ensures InRule(i, f) in Lift(k, faults) <==> i == k && f in faults
    ensures forall id :: DuplicateId(id) !in Lift(k, faults)
  {
    if i == k && f in faults {
      var j :| 0 <= j < |faults| && faults[j] == f;
      assert Lift(k, faults)[j] == InRule(i, f);
    }
  }

  lemma DuplicateStep(purpose: Option<Purpose>, rules: seq<Json>, n: nat, id: string)
    requires 0 < n <= |rules|
    ensures DuplicateId(id) in RulesErrors(purpose, rules, n) <==>
      || DuplicateId(id) in RulesErrors(purpose, rules, n - 1)
      || (HasId(rules[n - 1]) && Get(rules[n - 1], "id") == Str(id) && Str(id) in SeenIds(rules, n - 1))
  {
    hide RuleFaults, Get, SeenIds, HasId, IsObject, Lift;
    LiftHas(n - 1, RuleFaults(purpose, rules[n - 1]), 0, InvalidRule);
    IdsAreTexts(rules[n - 1]);
  }

  /** An id is reported as a duplicate exactly when two well-formed rules share it. */
  lemma {:induction false} DuplicatesAre(purpose: Option<Purpose>, rules: seq<Json>, n: nat, id: string)
    requires n <= |rules|
    ensures DuplicateId(id) in RulesErrors(purpose, rules, n) <==>
      exists i, j :: 0 <= i < j < n && HasId(rules[i]) && HasId(rules[j]) && Get(rules[i], "id") == Get(rules[j], "id") == Str(id)
  {
    hide RuleFaults, Get, SeenIds, HasId, IsObject;
    if n == 0 {
      assert RulesErrors(purpose, rules, 0) == [];
    } else {
      hide RulesErrors;
      DuplicatesAre(purpose, rules, n - 1, id);
      DuplicateStep(purpose, rules, n, id);
      SeenIdsAre(rules, n - 1);
    }
  }

  lemma IdsAreTexts(rule: Json)
    ensures HasId(rule) <==> IsObject(rule) && Name(Get(rule, "id"), 64)
    ensures HasId(rule) ==> Get(rule, "id").Str?
  {
    hide Get, IsObject, Name;
    NameIff(Get(rule, "id"), 64);
  }

  /** What is reported about the parts of a rule beside its condition. */
  lemma RuleFaultsAre(purpose: Option<Purpose>, rule: Json, j: nat, g: EffectFault)
    ensures var faults, effects := RuleFaults(purpose, rule), Get(rule, "effects");
      && (BadPriority in faults <==> !Get(rule, "priority").Num?)
      && (BadEnabled in faults <==> !Get(rule, "enabled").Bool?)
      && (BadExplanation in faults <==> !Name(Get(rule, "explanationCode"), 64))
      && (NoEffects in faults <==> !effects.Arr? || effects.items == [])
      && (TooManyEffects in faults <==> effects.Arr? && |effects.items| > 20)
      && (BadEffect(j, g) in faults <==> effects.Arr? && j < |effects.items| && g in EffectFaults(effects.items[j]))
  {
    hide Get, WalkFaults, HeaderFaults, EffectListFaults, EffectFaults, Name, AboutConditions;
    WalkReports(purpose, Get(rule, "condition"), 1, 0);
    forall f: RuleFault | f in [BadPriority, BadEnabled, BadExplanation, NoEffects, TooManyEffects, BadEffect(j, g)]
      ensures f in RuleFaults(purpose, rule) <==> f in HeaderFaults(rule) || f in EffectListFaults(Get(rule, "effects"))
    {
      assert !AboutConditions(f) by { NotAboutConditions(f); }
    }
    HeaderFaultsAre(rule, j, g);
    EffectListFaultsAre(Get(rule, "effects"), j, g);
  }

  lemma NotAboutConditions(f: RuleFault)
    requires f in [BadPriority, BadEnabled, BadExplanation, NoEffects, TooManyEffects] || f.BadEffect?
    ensures !AboutConditions(f)
  {
  }

  lemma HeaderFaultsAre(rule: Json, j: nat, g: EffectFault)
    ensures var faults := HeaderFaults(rule);
      && (BadPriority in faults <==> !Get(rule, "priority").Num?)
      && (BadEnabled in faults <==> !Get(rule, "enabled").Bool?)
      && (BadExplanation in faults <==> !Name(Get(rule, "explanationCode"), 64))
      && NoEffects !in faults && TooManyEffects !in faults && BadEffect(j, g) !in faults
  {
    hide Get, ShortText, Name;
    NameIff(Get(rule, "explanationCode"), 64);
    var a, b := If(!Get(rule, "priority").Num?, BadPriority), If(!Get(rule, "enabled").Bool?, BadEnabled);
    var c := If(!ShortText(Get(rule, "explanationCode"), MAX_CODE), BadExplanation);
    assert HeaderFaults(rule) == a + b + c;
    assert forall f :: f in HeaderFaults(rule) <==> f in a || f in b || f in c;
  }

  lemma EffectListFaultsAre(effects: Json, j: nat, g: EffectFault)
    ensures var faults := EffectListFaults(effects);
      && (NoEffects in faults <==> !effects.Arr? || effects.items == [])
      && (TooManyEffects in faults <==> effects.Arr? && |effects.items| > 20)
      && (BadEffect(j, g) in faults <==> effects.Arr? && j < |effects.items| && g in EffectFaults(effects.items[j]))
      && BadPriority !in faults && BadEnabled !in faults && BadExplanation !in faults
  {
    hide EffectsFaults, EffectFaults;
    if effects.Arr? { EffectsFaultsAre(effects.items, |effects.items|, j, g); }
  }

  predicate AboutConditions(f: RuleFault) {
    f in {TooDeep, TooManyConditions, BadCondition, BadGroup, EmptyGroup, NoText, UnknownOperator, UnexpectedValue, NumericOnNonNumeric,
          BadInValue, BadInMember, BadValue} || f.UnknownField?
  }

  lemma {:induction false} WalkReports(purpose: Option<Purpose>, node: Json, depth: nat, count: nat)
    ensures forall f :: f in WalkFaults(purpose, node, depth, count).0 ==> AboutConditions(f)
    decreases node, 0
  {
    hide LeafFaults, Get, KindOk;
    LeafReports(purpose, node);
    if IsGroup(node) { BelowReports(purpose, node, Children(node), depth + 1, count + 1); }
  }

  lemma {:induction false} BelowReports(purpose: Option<Purpose>, node: Json, items: seq<Json>, depth: nat, count: nat)
    requires forall i :: 0 <= i < |items| ==> items[i] < node
    ensures forall f :: f in WalkChildren(purpose, node, items, depth, count).0 ==> AboutConditions(f)
    decreases node, 0, |items|
  {
    hide WalkFaults, AboutConditions;
    if items != [] {
      var n := |items| - 1;
      BelowReports(purpose, node, items[..n], depth, count);
      WalkReports(purpose, items[n], depth, WalkChildren(purpose, node, items[..n], depth, count).1);
    }
  }

  lemma LeafReports(purpose: Option<Purpose>, leaf: Json)
    ensures forall f :: f in LeafFaults(purpose, leaf) ==> AboutConditions(f)
  {
    hide DescriptorOf, ReadOperator, FieldName, Get, HasText, MemberFaults;
    var fd, value := DescriptorOf(purpose, FieldName(leaf)), Get(leaf, "value");
    if fd.Some? && value.Arr? { MemberFaultsAre(fd.value, value.items); }
  }

  lemma {:induction false} MemberFaultsAre(fd: Descriptor, values: seq<Json>)
    ensures forall f :: f in MemberFaults(fd, values) ==> f == BadInMember
    ensures |MemberFaults(fd, values)| <= |values|
  {
    hide ValueOk;
    if values != [] { MemberFaultsAre(fd, values[..|values| - 1]); }
  }

  lemma {:induction false} EffectsFaultsAre(effects: seq<Json>, n: nat, j: nat, g: EffectFault)
    requires n <= |effects|
    ensures BadEffect(j, g) in EffectsFaults(effects, n) <==> j < n && g in EffectFaults(effects[j])
    ensures forall f :: f in EffectsFaults(effects, n) ==> f.BadEffect?
  {
    hide EffectFaults;
    if n > 0 {
      EffectsFaultsAre(effects, n - 1, j, g);
      var faults := EffectFaults(effects[n - 1]);
      if g in faults { var k :| 0 <= k < |faults| && faults[k] == g; assert At(n - 1, faults)[k] == BadEffect(n - 1, g); }
    }
  }

  /** What is reported about a leaf's names: no text, an unknown field or an unknown operator, in this order. */
  lemma LeafNameFaultsAre(purpose: Option<Purpose>, leaf: Json, f: RuleFault)
    requires f == NoText || f.UnknownField? || f == UnknownOperator
    ensures var fd, looks := DescriptorOf(purpose, FieldName(leaf)), HasText(Get(leaf, "field"));
      f in LeafFaults(purpose, leaf) <==>
        match f
        case NoText => !looks
        case UnknownField(n) => looks && fd.None? && n == FieldName(leaf)
        case _ => looks && fd.Some? && ReadOperator(Get(leaf, "operator")).None?
  {
    hide DescriptorOf, ReadOperator, FieldName, Get, HasText, MemberFaults, ValueOk;
    var fd, value := DescriptorOf(purpose, FieldName(leaf)), Get(leaf, "value");
    if fd.Some? && value.Arr? { MemberFaultsAre(fd.value, value.items); }
  }

  predicate AsksPresence(t: Json) { t == Str("EXISTS") || t == Str("NOT_EXISTS") }

  predicate AsksMembership(t: Json) { t == Str("IN") || t == Str("NOT_IN") }

  lemma LeafFaultsByClass(purpose: Option<Purpose>, leaf: Json)
    requires HasText(Get(leaf, "field")) && DescriptorOf(purpose, FieldName(leaf)).Some? && ReadOperator(Get(leaf, "operator")).Some?
    ensures var fd, t, v := DescriptorOf(purpose, FieldName(leaf)).value, Get(leaf, "operator"), Get(leaf, "value");
      LeafFaults(purpose, leaf) ==
        if AsksPresence(t) then If(v != Undefined, UnexpectedValue)
        else
          If(Compares(t) && fd != NumberField, NumericOnNonNumeric)
          + if AsksMembership(t) then (if v.Arr? && 1 <= |v.items| <= 50 then MemberFaults(fd, v.items) else [BadInValue])
            else If(!ValueOk(fd, v), BadValue)
  {
    hide DescriptorOf, ReadOperator, FieldName, Get, HasText, MemberFaults, ValueOk, Compares;
    OperatorClasses(Get(leaf, "operator"));
  }

  lemma MemberFaultsHas(fd: Descriptor, values: seq<Json>, f: RuleFault)
    ensures f in MemberFaults(fd, values) <==> f == BadInMember && exists x :: x in values && !ValueOk(fd, x)
  {
    hide ValueOk;
    MemberFaultsAre(fd, values);
    NoMemberFaults(fd, values);
    var faults := MemberFaults(fd, values);
    if faults != [] { assert faults[0] in faults; }
  }

  lemma ClassesApart(t: Json)
    ensures AsksPresence(t) ==> !Compares(t) && !AsksMembership(t)
    ensures AsksMembership(t) ==> !Compares(t)
  {
  }

  /** What is reported about the value of a leaf with known names; only a comparison on a field that is no number field adds a second fault. */
  lemma LeafValueFaultsAre(purpose: Option<Purpose>, leaf: Json, f: RuleFault)
    requires HasText(Get(leaf, "field")) && DescriptorOf(purpose, FieldName(leaf)).Some? && ReadOperator(Get(leaf, "operator")).Some?
    ensures var fd, t, v := DescriptorOf(purpose, FieldName(leaf)).value, Get(leaf, "operator"), Get(leaf, "value");
      f in LeafFaults(purpose, leaf) <==>
        match f
        case UnexpectedValue => AsksPresence(t) && v != Undefined
        case NumericOnNonNumeric => Compares(t) && fd != NumberField
        case BadInValue => AsksMembership(t) && !(v.Arr? && 1 <= |v.items| <= 50)
        case BadInMember => AsksMembership(t) && v.Arr? && 1 <= |v.items| <= 50 && exists x :: x in v.items && !ValueOk(fd, x)
        case BadValue => !AsksPresence(t) && !AsksMembership(t) && !ValueOk(fd, v)
        case _ => false
  {
    var fd, t, v := DescriptorOf(purpose, FieldName(leaf)).value, Get(leaf, "operator"), Get(leaf, "value");
    LeafFaultsByClass(purpose, leaf);
    ClassesApart(t);
    hide DescriptorOf, ReadOperator, FieldName, Get, HasText, MemberFaults, ValueOk, Compares, AsksPresence, AsksMembership, LeafFaults;
    if v.Arr? { MemberFaultsHas(fd, v.items, f); }
  }

  lemma {:induction false} ForeignAre(keys: seq<string>, allowed: set<string>)
    ensures forall g :: g in ForeignKeys(keys, allowed) <==> g.UnknownKey? && g.key in keys && g.key !in allowed
  {
    if keys != [] {
      var n := |keys| - 1;
      ForeignAre(keys[..n], allowed);
      assert keys == keys[..n] + [keys[n]];
    }
  }

  /** The entries a payload of this type must hold, and what makes one wrong. */
  predicate WrongEntry(t: EffectType, p: Json, k: string) {
    match t
    case SetRecommendedSeverity => k == "severity" && !OneOf(Get(p, k), SEVERITIES)
    case SetRecommendedUrgency => k == "urgency" && !OneOf(Get(p, k), URGENCIES)
    case SetEscalationLevel => k == "level" && !OneOf(Get(p, k), ESCALATION_LEVELS)
    case ProposeProtectionAction =>
      || (k == "actionType" && !OneOf(Get(p, k), PROTECTION_ACTION_TYPES))
      || (k == "reasonCode" && !Name(Get(p, k), 64))
      || (k == "requiresApproval" && !Get(p, k).Bool?)
    case AllowAutomaticIntervention =>
      || (k == "interventionType" && !OneOf(Get(p, k), INTERVENTION_TYPES))
      || (k == "maxSeverity" && !OneOf(Get(p, k), SEVERITIES))
      || (k == "maxUrgency" && !OneOf(Get(p, k), URGENCIES))
      || (k == "prerequisites" && !PrerequisiteList(Get(p, k)))
    case _ => false
  }

  predicate Carries(t: EffectType) {
    t.SetRecommendedSeverity? || t.SetRecommendedUrgency? || t.SetEscalationLevel? || t.ProposeProtectionAction? || t.AllowAutomaticIntervention?
  }

  lemma ActionFaultsAre(p: Json, g: EffectFault)
    ensures g in ActionFaults(p) <==> g.BadEntry? && WrongEntry(ProposeProtectionAction, p, g.key)
  {
    hide Get, OneOf, ShortText, Name;
    NameIff(Get(p, "reasonCode"), 64);
  }

  lemma EntryFaultHas(p: Json, key: string, allowed: seq<string>, g: EffectFault)
    ensures g in EntryFault(p, key, allowed) <==> g == BadEntry(key) && !OneOf(Get(p, key), allowed)
  {
    hide Get, OneOf;
  }

  lemma InterventionFaultsAre(p: Json, g: EffectFault)
    ensures g in InterventionFaults(p) <==> g.BadEntry? && WrongEntry(AllowAutomaticIntervention, p, g.key)
  {
    hide Get, OneOf, PrerequisitesOk, PrerequisiteList, EntryFault;
    PrerequisiteListIff(Get(p, "prerequisites"));
    EntryFaultHas(p, "interventionType", INTERVENTION_TYPES, g);
    EntryFaultHas(p, "maxSeverity", SEVERITIES, g);
    EntryFaultHas(p, "maxUrgency", URGENCIES, g);
    var last := If(!PrerequisitesOk(Get(p, "prerequisites")), BadEntry("prerequisites"));
    assert g in last <==> g == BadEntry("prerequisites") && !PrerequisitesOk(Get(p, "prerequisites"));
    hide If;
  }

  lemma PayloadFaultsAre(t: EffectType, p: Json, g: EffectFault)
    ensures g in PayloadFaults(t, p) <==>
      match g
      case BadType => false
      case UnknownKey(k) => Carries(t) && k in OwnKeys(p) && k !in PayloadKeys(t)
      case PayloadNotAllowed => !Carries(t) && OwnKeys(p) != []
      case BadEntry(k) => WrongEntry(t, p, k)
  {
    hide Get, OwnKeys, PayloadKeys, OneOf, ActionFaults, InterventionFaults, Name, PrerequisiteList;
    ForeignAre(OwnKeys(p), PayloadKeys(t));
    ActionFaultsAre(p, g);
    InterventionFaultsAre(p, g);
  }

  /** What is reported about an effect: its type, else each foreign key and each wrong entry of its payload. */
  lemma EffectFaultsAre(e: Json, g: EffectFault)
    ensures g in EffectFaults(e) <==>
      if !IsObject(e) || TypeOf(e).None? then g == BadType
      else
        var t, p := TypeOf(e).value, PayloadOf(e);
        match g
        case BadType => false
        case UnknownKey(k) => Carries(t) && k in OwnKeys(p) && k !in PayloadKeys(t)
        case PayloadNotAllowed => !Carries(t) && OwnKeys(p) != []
        case BadEntry(k) => WrongEntry(t, p, k)
  {
    hide Get, ReadEffectType, OwnKeys, PayloadOf, PayloadKeys, IsObject, PayloadFaults, WrongEntry, Carries;
    if IsObject(e) && TypeOf(e).Some? { PayloadFaultsAre(TypeOf(e).value, PayloadOf(e), g); }
  }

  // ---------------------------------------------------------------- walks and the order of the errors

  /** What a walk reports at one node before it looks below: the first of depth, count and shape, and of a group its kind and whether
      it is empty. */
  lemma WalkReportsHere(purpose: Option<Purpose>, node: Json, depth: nat, count: nat)
    ensures var w := WalkFaults(purpose, node, depth, count);
      && (depth > 5 ==> w == ([TooDeep], count))
      && (depth <= 5 && count >= 20 ==> w == ([TooManyConditions], count + 1))
      && (depth <= 5 && count < 20 && !IsObject(node) ==> w == ([BadCondition], count + 1))
      && (depth <= 5 && count < 20 && IsObject(node) && !Get(node, "group").Str? ==> w == (LeafFaults(purpose, node), count + 1))
    ensures var w, g, kids := WalkFaults(purpose, node, depth, count), Get(node, "group"), Get(node, "nodes");
      depth <= 5 && count < 20 && g.Str? ==>
        && (g.s !in ["ALL", "ANY"] ==> w.0 != [] && w.0[0] == BadGroup)
        && (!kids.Arr? || kids.items == [] ==> w == ((if g.s in ["ALL", "ANY"] then [] else [BadGroup]) + [EmptyGroup], count + 1))
  {
    hide LeafFaults, Find;
  }

  /** The list is the front of all errors, at most a hundred of them. */
  lemma CapIs(s: seq<ErrorCode>)
    ensures Cap(s) <= s && |Cap(s)| == if |s| <= 100 then |s| else 100
  {
  }

  /** The turn of a fault within its rule: id, priority, enabled, code, effects one by one, condition. */
  function Turn(f: RuleFault): (nat, nat) {
    match f
    case InvalidRule => (0, 0)
    case BadId => (0, 0)
    case BadPriority => (1, 0)
    case BadEnabled => (2, 0)
    case BadExplanation => (3, 0)
    case NoEffects => (4, 0)
    case TooManyEffects => (4, 0)
    case BadEffect(j, _) => (5, j)
    case _ => (6, 0)
  }

  predicate TurnLe(f: RuleFault, g: RuleFault) {
    Turn(f).0 < Turn(g).0 || (Turn(f).0 == Turn(g).0 && Turn(f).1 <= Turn(g).1)
  }

  function Stage(c: ErrorCode): nat {
    match c
    case TooLarge => 0
    case NotAnObject => 0
    case BadSchemaVersion => 1
    case BadPurpose => 2
    case BadDefaultEffect => 3
    case RulesNotArray => 4
    case TooManyRules => 4
    case _ => 5
  }

  /** First the definition, then rule after rule, each in its turns. */
  predicate NoLater(c: ErrorCode, d: ErrorCode) {
    || Stage(c) < Stage(d)
    || (Stage(c) == Stage(d) && (c.InRule? && d.InRule? ==> c.index < d.index || (c.index == d.index && TurnLe(c.fault, d.fault))))
  }

  lemma {:induction false} EffectsFaultsInTurn(effects: seq<Json>, n: nat)
    requires n <= |effects|
    ensures Sorted(TurnLe, EffectsFaults(effects, n)) && forall f :: f in EffectsFaults(effects, n) ==> f.BadEffect? && f.index < n
  {
    hide EffectFaults;
    if n > 0 {
      EffectsFaultsInTurn(effects, n - 1);
      SortedConcat(TurnLe, EffectsFaults(effects, n - 1), At(n - 1, EffectFaults(effects[n - 1])));
    }
  }

  lemma HeaderInTurn(rule: Json)
    ensures Sorted(TurnLe, HeaderFaults(rule)) && forall f :: f in HeaderFaults(rule) ==> f == BadPriority || f == BadEnabled || f == BadExplanation
  {
    hide Get, ShortText;
    var a, b := If(!Get(rule, "priority").Num?, BadPriority), If(!Get(rule, "enabled").Bool?, BadEnabled);
    var c := If(!ShortText(Get(rule, "explanationCode"), MAX_CODE), BadExplanation);
    SortedConcat(TurnLe, a, b);
    SortedConcat(TurnLe, a + b, c);
  }

  lemma ConditionTurn(f: RuleFault)
    requires AboutConditions(f)
    ensures Turn(f) == (6, 0)
  {
  }

  lemma RuleFaultsInTurn(purpose: Option<Purpose>, rule: Json)
    ensures Sorted(TurnLe, RuleFaults(purpose, rule)) && forall f :: f in RuleFaults(purpose, rule) ==> Turn(f).0 >= 1
  {
    hide HeaderFaults, WalkFaults, EffectsFaults, Get, AboutConditions;
    var effects := Get(rule, "effects");
    var a, b, c := HeaderFaults(rule), EffectListFaults(effects), WalkFaults(purpose, Get(rule, "condition"), 1, 0).0;
    HeaderInTurn(rule);
    WalkReports(purpose, Get(rule, "condition"), 1, 0);
    if effects.Arr? && effects.items != [] {
      EffectsFaultsInTurn(effects.items, |effects.items|);
      SortedConcat(TurnLe, If(|effects.items| > MAX_EFFECTS, TooManyEffects), EffectsFaults(effects.items, |effects.items|));
    }
    assert Sorted(TurnLe, b) && forall f :: f in b ==> 4 <= Turn(f).0 <= 5;
    forall f | f in c ensures Turn(f) == (6, 0) { ConditionTurn(f); }
    SortedConcat(TurnLe, a, b);
    SortedConcat(TurnLe, a + b, c);
  }

  lemma RuleErrorsInOrder(i: nat, rule: Json, seen: set<Json>, faults: seq<RuleFault>)
    requires Sorted(TurnLe, faults) && forall f :: f in faults ==> Turn(f).0 >= 1
    ensures Sorted(NoLater, IdErrors(i, rule, seen) + Lift(i, faults))
    ensures forall c :: c in IdErrors(i, rule, seen) + Lift(i, faults) ==> c.DuplicateId? || (c.InRule? && c.index == i)
  {
    hide Get, HasId;
    assert Turn(BadId).0 == 0;
    SortedConcat(NoLater, IdErrors(i, rule, seen), Lift(i, faults));
  }

  lemma {:induction false} RulesErrorsInOrder(purpose: Option<Purpose>, rules: seq<Json>, n: nat)
    requires n <= |rules|
    ensures Sorted(NoLater, RulesErrors(purpose, rules, n))
    ensures forall c :: c in RulesErrors(purpose, rules, n) ==> c.DuplicateId? || (c.InRule? && c.index < n)
  {
    hide RuleFaults, IdErrors, SeenIds, Lift, NoLater, IsObject, Sorted;
    if n == 0 {
      NothingInOrder();
    } else {
      var rule := rules[n - 1];
      RulesErrorsInOrder(purpose, rules, n - 1);
      var before := RulesErrors(purpose, rules, n - 1);
      var here := if !IsObject(rule) then [InRule(n - 1, InvalidRule)]
                  else IdErrors(n - 1, rule, SeenIds(rules, n - 1)) + Lift(n - 1, RuleFaults(purpose, rule));
      assert RulesErrors(purpose, rules, n) == before + here;
      hide RulesErrors;
      if IsObject(rule) {
        RuleFaultsInTurn(purpose, rule);
        RuleErrorsInOrder(n - 1, rule, SeenIds(rules, n - 1), RuleFaults(purpose, rule));
      } else {
        OneInOrder(InRule(n - 1, InvalidRule));
      }
      forall c, d | c in before && d in here ensures NoLater(c, d) { EarlierRule(c, d, n - 1); }
      SortedConcat(NoLater, before, here);
    }
  }

  lemma NothingInOrder()
    ensures Sorted(NoLater, [])
  {
  }

  lemma OneInOrder(c: ErrorCode)
    ensures Sorted(NoLater, [c])
  {
  }

  lemma EarlierRule(c: ErrorCode, d: ErrorCode, n: nat)
    requires c.DuplicateId? || (c.InRule? && c.index < n)
    requires d.DuplicateId? || (d.InRule? && d.index == n)
    ensures NoLater(c, d)
  {
    hide TurnLe;
  }

  lemma HeaderErrorsInOrder(def: Json)
    ensures Sorted(NoLater, HeaderErrors(def)) && forall c :: c in HeaderErrors(def) ==> Stage(c) <= 3
  {
    hide UnitLength, PlainText, ReadPurpose, ReadEffectType, Get;
    var a, b := If(UnitLength(PlainText(def)) > MAX_BYTES, TooLarge), If(Get(def, "schemaVersion") != Num(FromInt(1)), BadSchemaVersion);
    var c, d := If(ReadPurpose(Get(def, "purpose")).None?, BadPurpose), If(ReadEffectType(Get(def, "defaultEffect")).None?, BadDefaultEffect);
    SortedConcat(NoLater, a, b);
    SortedConcat(NoLater, a + b, c);
    SortedConcat(NoLater, a + b + c, d);
  }

  /** The order in which errors are listed, which decides what the bound cuts off. */
  lemma ErrorsInOrder(def: Json)
    ensures Sorted(NoLater, AllErrors(def))
  {
    hide HeaderErrors, RulesErrors, IsObject, Get, ReadPurpose;
    HeaderErrorsInOrder(def);
    if Get(def, "rules").Arr? {
      var purpose := ReadPurpose(Get(def, "purpose"));
      RulesErrorsInOrder(purpose, Rules(def), |Rules(def)|);
      var many := If(|Rules(def)| > MAX_RULES, TooManyRules);
      SortedConcat(NoLater, HeaderErrors(def), many);
      SortedConcat(NoLater, HeaderErrors(def) + many, RulesErrors(purpose, Rules(def), |Rules(def)|));
    } else {
      SortedConcat(NoLater, HeaderErrors(def), [RulesNotArray]);
    }
  }
}
