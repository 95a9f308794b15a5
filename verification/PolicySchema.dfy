/** Child-safety policy definitions: the vocabulary and the declarative meaning of acceptance. */
module PolicySchema {
  import opened Optional
  import opened Strings
  import opened Numbers
  import opened JsonTree

  // ---------------------------------------------------------------- bounds

  const MAX_RULES := 100
  const MAX_NODES := 20
  const MAX_DEPTH := 5
  const MAX_EFFECTS := 20
  const MAX_BYTES := 65536
  const MAX_CODE := 64
  const MAX_IN_VALUES := 50
  const MAX_ERRORS := 100

  // ---------------------------------------------------------------- vocabulary

  datatype Purpose =
    SignalTriage | IncidentClassification | Escalation | ProtectionPlan | InterventionAuthorization | GuardianContactEligibility

  function PurposeName(p: Purpose): string {
    match p
    case SignalTriage => "SIGNAL_TRIAGE"
    case IncidentClassification => "INCIDENT_CLASSIFICATION"
    case Escalation => "ESCALATION"
    case ProtectionPlan => "PROTECTION_PLAN"
    case InterventionAuthorization => "INTERVENTION_AUTHORIZATION"
    case GuardianContactEligibility => "GUARDIAN_CONTACT_ELIGIBILITY"
  }

  function ReadPurpose(v: Json): Option<Purpose> {
    if v == Str("SIGNAL_TRIAGE") then Some(SignalTriage)
    else if v == Str("INCIDENT_CLASSIFICATION") then Some(IncidentClassification)
    else if v == Str("ESCALATION") then Some(Escalation)
    else if v == Str("PROTECTION_PLAN") then Some(ProtectionPlan)
    else if v == Str("INTERVENTION_AUTHORIZATION") then Some(InterventionAuthorization)
    else if v == Str("GUARDIAN_CONTACT_ELIGIBILITY") then Some(GuardianContactEligibility)
    else None
  }

  datatype Operator = Equals | NotEquals | In | NotIn | Greater | GreaterOrEqual | Less | LessOrEqual | Exists | NotExists

  function ReadOperator(v: Json): Option<Operator> {
    if v == Str("EQUALS") then Some(Equals)
    else if v == Str("NOT_EQUALS") then Some(NotEquals)
    else if v == Str("IN") then Some(In)
    else if v == Str("NOT_IN") then Some(NotIn)
    else if v == Str("GREATER_THAN") then Some(Greater)
    else if v == Str("GREATER_THAN_OR_EQUAL") then Some(GreaterOrEqual)
    else if v == Str("LESS_THAN") then Some(Less)
    else if v == Str("LESS_THAN_OR_EQUAL") then Some(LessOrEqual)
    else if v == Str("EXISTS") then Some(Exists)
    else if v == Str("NOT_EXISTS") then Some(NotExists)
    else None
  }

  predicate Numeric(op: Operator) { op.Greater? || op.GreaterOrEqual? || op.Less? || op.LessOrEqual? }

  datatype EffectType =
    | CreateIncident | UpdateIncident | SetRecommendedSeverity | SetRecommendedUrgency | RequireReview
    | RequireSupervisorReview | CreateEscalationRecommendation | SetEscalationLevel | ProposeProtectionPlan
    | ProposeProtectionAction | AllowAutomaticIntervention | RequireManualInterventionApproval
    | AllowGuardianContactConsideration | ProhibitGuardianContact | ManualOnly | NoAction

  function ReadEffectType(v: Json): Option<EffectType> {
    if v == Str("CREATE_INCIDENT") then Some(CreateIncident)
    else if v == Str("UPDATE_INCIDENT") then Some(UpdateIncident)
    else if v == Str("SET_RECOMMENDED_SEVERITY") then Some(SetRecommendedSeverity)
    else if v == Str("SET_RECOMMENDED_URGENCY") then Some(SetRecommendedUrgency)
    else if v == Str("REQUIRE_REVIEW") then Some(RequireReview)
    else if v == Str("REQUIRE_SUPERVISOR_REVIEW") then Some(RequireSupervisorReview)
    else if v == Str("CREATE_ESCALATION_RECOMMENDATION") then Some(CreateEscalationRecommendation)
    else if v == Str("SET_ESCALATION_LEVEL") then Some(SetEscalationLevel)
    else if v == Str("PROPOSE_PROTECTION_PLAN") then Some(ProposeProtectionPlan)
    else if v == Str("PROPOSE_PROTECTION_ACTION") then Some(ProposeProtectionAction)
    else if v == Str("ALLOW_AUTOMATIC_INTERVENTION") then Some(AllowAutomaticIntervention)
    else if v == Str("REQUIRE_MANUAL_INTERVENTION_APPROVAL") then Some(RequireManualInterventionApproval)
    else if v == Str("ALLOW_GUARDIAN_CONTACT_CONSIDERATION") then Some(AllowGuardianContactConsideration)
    else if v == Str("PROHIBIT_GUARDIAN_CONTACT") then Some(ProhibitGuardianContact)
    else if v == Str("MANUAL_ONLY") then Some(ManualOnly)
    else if v == Str("NO_ACTION") then Some(NoAction)
    else None
  }

  /** Ordered value sets: a later value ranks higher. */
  const SEVERITIES := ["low", "medium", "high", "critical"]
  const URGENCIES := ["routine", "elevated", "immediate"]
  const ESCALATION_LEVELS := ["none", "monitor", "internal", "urgent_internal"]

  const CONFIDENCE_BANDS := ["low", "medium", "high"]
  const RISK_FAMILIES := ["sexual", "grooming", "violence", "coercion", "scam", "bullying", "identity"]
  const INCIDENT_STATUSES := ["open", "under_review", "action_required", "monitoring", "waiting", "resolved", "dismissed", "reopened", "closed"]
  const GUARDIAN_AUTHORITY_STATES := ["none", "pending", "authorized", "revoked", "expired"]
  const AGE_BANDS := ["under_10", "age_10_12", "age_13_15", "age_16_17"]
  const SIGNAL_TYPES := ["GROOMING", "SEXUAL_SOLICITATION", "SEXTORTION", "MEETING_ATTEMPT", "CYBERBULLYING", "THREAT", "IDENTITY_MANIPULATION", "COERCION"]
  const PROTECTION_ACTION_TYPES := ["review_account_safety", "preserve_evidence", "verify_guardian_contact", "notify_authorized_guardian", "restrict_interaction", "recommend_blocking", "recommend_reporting", "escalate_internal_safety", "legal_review", "welfare_check", "follow_up_review", "custom_internal_action"]
  const INTERVENTION_TYPES := ["local_safety_guidance", "queue_for_review", "notify_authorized_guardian", "create_or_update_incident", "urgent_escalation"]

  datatype Descriptor = NumberField | BooleanField | StringField(allowed: Option<seq<string>>)

  datatype FieldEntry = FieldEntry(name: string, descriptor: Descriptor)

  const SIGNAL_FIELDS: seq<FieldEntry> := [
    FieldEntry("signalType", StringField(Some(SIGNAL_TYPES))),
    FieldEntry("riskFamily", StringField(Some(RISK_FAMILIES))),
    FieldEntry("confidenceBand", StringField(Some(CONFIDENCE_BANDS))),
    FieldEntry("sourceType", StringField(None)),
    FieldEntry("repeatedSignalCount", NumberField),
    FieldEntry("distinctSourceCount", NumberField),
    FieldEntry("signalAgeSeconds", NumberField),
    FieldEntry("immediateDangerFlag", BooleanField),
    FieldEntry("ageBand", StringField(Some(AGE_BANDS)))
  ]

  const INCIDENT_FIELDS: seq<FieldEntry> := [
    FieldEntry("severity", StringField(Some(SEVERITIES))),
    FieldEntry("urgency", StringField(Some(URGENCIES))),
    FieldEntry("incidentStatus", StringField(Some(INCIDENT_STATUSES))),
    FieldEntry("riskFamily", StringField(Some(RISK_FAMILIES))),
    FieldEntry("signalCount", NumberField),
    FieldEntry("previousEscalationCount", NumberField),
    FieldEntry("hasActiveEscalation", BooleanField),
    FieldEntry("hasActiveProtectionPlan", BooleanField),
    FieldEntry("reviewerAssigned", BooleanField),
    FieldEntry("guardianAuthorityState", StringField(Some(GUARDIAN_AUTHORITY_STATES))),
    FieldEntry("evidenceCount", NumberField),
    FieldEntry("ageBand", StringField(Some(AGE_BANDS))),
    FieldEntry("immediateDangerFlag", BooleanField)
  ]

  /** The allow-listed fields of a purpose. */
  function FieldsFor(p: Purpose): seq<FieldEntry> {
    if p == SignalTriage then SIGNAL_FIELDS else INCIDENT_FIELDS
  }

  function FieldNames(p: Purpose): seq<string> {
    seq(|FieldsFor(p)|, i requires 0 <= i < |FieldsFor(p)| => FieldsFor(p)[i].name)
  }

  function EntryOf(fields: seq<FieldEntry>, name: string): (fd: Option<Descriptor>)
    ensures fd.Some? <==> exists i :: 0 <= i < |fields| && fields[i].name == name
  {
    if fields == [] then None
    else if fields[0].name == name then Some(fields[0].descriptor)
    else
      assert forall i :: 0 <= i < |fields[1..]| ==> fields[1..][i] == fields[i + 1];
      EntryOf(fields[1..], name)
  }

  /** Names every plain object answers to without holding them. */
  const INHERITED_NAMES: set<string> := {
    "constructor", "__defineGetter__", "__defineSetter__", "hasOwnProperty", "__lookupGetter__", "__lookupSetter__",
    "isPrototypeOf", "propertyIsEnumerable", "toString", "valueOf", "__proto__", "toLocaleString"
  }

  /** The table read of the validator. An inherited name finds something that is neither a number
      nor a boolean descriptor and lists no values, so it behaves as a free text field. */
  function DescriptorOf(purpose: Option<Purpose>, name: string): Option<Descriptor> {
    var own := if purpose.Some? then EntryOf(FieldsFor(purpose.value), name) else None;
    if own.Some? then own
    else if name in INHERITED_NAMES then Some(StringField(None))
    else None
  }

  // ---------------------------------------------------------------- acceptance, declaratively

  predicate ShortText(v: Json, max: nat) { v.Str? && v.s != "" && UnitLength(v.s) <= max }

  predicate OneOf(v: Json, allowed: seq<string>) { v.Str? && v.s in allowed }

  function OwnKeys(v: Json): seq<string> {
    match v
    case Obj(fs) => Keys(fs)
    case Arr(items) => seq(|items|, i requires 0 <= i < |items| => Digits(i))
    case Str(s) => seq(UnitLength(s), i requires 0 <= i < UnitLength(s) => Digits(i))
    case _ => []
  }

  function PayloadOf(effect: Json): Json {
    var p := Get(effect, "payload");
    if p.Undefined? || p.Null? then Obj([]) else p
  }

  function PayloadKeys(t: EffectType): set<string> {
    match t
    case SetRecommendedSeverity => {"severity"}
    case SetRecommendedUrgency => {"urgency"}
    case SetEscalationLevel => {"level"}
    case ProposeProtectionAction => {"actionType", "reasonCode", "requiresApproval"}
    case AllowAutomaticIntervention => {"interventionType", "maxSeverity", "maxUrgency", "prerequisites"}
    case _ => {}
  }

  predicate PrerequisitesOk(v: Json) {
    v.Arr? && |v.items| <= 10 && forall x :: x in v.items ==> x.Str? && UnitLength(x.s) <= MAX_CODE
  }

  /** A payload has no foreign key and each of its own entries is well typed. */
  predicate PayloadOk(t: EffectType, p: Json) {
    && (forall k :: k in OwnKeys(p) ==> k in PayloadKeys(t))
    && (t.SetRecommendedSeverity? ==> OneOf(Get(p, "severity"), SEVERITIES))
    && (t.SetRecommendedUrgency? ==> OneOf(Get(p, "urgency"), URGENCIES))
    && (t.SetEscalationLevel? ==> OneOf(Get(p, "level"), ESCALATION_LEVELS))
    && (t.ProposeProtectionAction? ==>
          && OneOf(Get(p, "actionType"), PROTECTION_ACTION_TYPES)
          && ShortText(Get(p, "reasonCode"), MAX_CODE)
          && Get(p, "requiresApproval").Bool?)
    && (t.AllowAutomaticIntervention? ==>
          && OneOf(Get(p, "interventionType"), INTERVENTION_TYPES)
          && OneOf(Get(p, "maxSeverity"), SEVERITIES)
          && OneOf(Get(p, "maxUrgency"), URGENCIES)
          && PrerequisitesOk(Get(p, "prerequisites")))
  }

  predicate EffectOk(effect: Json) {
    && IsObject(effect)
    && ReadEffectType(Get(effect, "type")).Some?
    && PayloadOk(ReadEffectType(Get(effect, "type")).value, PayloadOf(effect))
  }

  predicate ValueOk(fd: Descriptor, v: Json) {
    match fd
    case NumberField => v.Num?
    case BooleanField => v.Bool?
    case StringField(allowed) => v.Str? && if allowed.Some? then v.s in allowed.value else UnitLength(v.s) <= 128
  }

  predicate IsGroup(node: Json) { Get(node, "group").Str? }

  function FieldName(leaf: Json): string { ToText(Get(leaf, "field")) }

  /** A leaf names a known field and compares it, by a known operator, with values of its type. */
  predicate LeafOk(purpose: Option<Purpose>, leaf: Json) {
    var fd := DescriptorOf(purpose, FieldName(leaf));
    var op := ReadOperator(Get(leaf, "operator"));
    var value := Get(leaf, "value");
    && HasText(Get(leaf, "field")) && fd.Some? && op.Some?
    && match op.value
       case Exists => value == Undefined
       case NotExists => value == Undefined
       case In => value.Arr? && 1 <= |value.items| <= MAX_IN_VALUES && forall x :: x in value.items ==> ValueOk(fd.value, x)
       case NotIn => value.Arr? && 1 <= |value.items| <= MAX_IN_VALUES && forall x :: x in value.items ==> ValueOk(fd.value, x)
       case Equals => ValueOk(fd.value, value)
       case NotEquals => ValueOk(fd.value, value)
       case _ => fd.value == NumberField && value.Num?
  }

  /** The nodes below a condition node. */
  function Children(node: Json): (items: seq<Json>)
    ensures forall i :: 0 <= i < |items| ==> items[i] < node
  {
    if IsGroup(node) && Get(node, "nodes").Arr? then
      var nodes := Get(node, "nodes");
      assert nodes < node;
      nodes.items
    else []
  }

  function Depth(node: Json): nat
    decreases node, 0
  {
    1 + DepthAll(node, Children(node))
  }

  function DepthAll(node: Json, items: seq<Json>): nat
    requires forall i :: 0 <= i < |items| ==> items[i] < node
    decreases node, 0, |items|
  {
    if items == [] then 0
    else var a, b := Depth(items[0]), DepthAll(node, items[1..]); if a > b then a else b
  }

  function NodeCount(node: Json): nat
    decreases node, 0
  {
    1 + CountAll(node, Children(node))
  }

  function CountAll(node: Json, items: seq<Json>): nat
    requires forall i :: 0 <= i < |items| ==> items[i] < node
    decreases node, 0, |items|
  {
    if items == [] then 0 else NodeCount(items[0]) + CountAll(node, items[1..])
  }

  predicate KindOk(node: Json) { Get(node, "group") == Str("ALL") || Get(node, "group") == Str("ANY") }

  /** Every node of the tree is a sound leaf or a non-empty ALL/ANY group. */
  predicate NodesOk(purpose: Option<Purpose>, node: Json)
    decreases node
  {
    && IsObject(node)
    && if IsGroup(node) then
         && KindOk(node)
         && Children(node) != []
         && forall i :: 0 <= i < |Children(node)| ==> NodesOk(purpose, Children(node)[i])
       else LeafOk(purpose, node)
  }

  predicate ConditionOk(purpose: Option<Purpose>, node: Json) {
    NodesOk(purpose, node) && Depth(node) <= MAX_DEPTH && NodeCount(node) <= MAX_NODES
  }

  predicate RuleOk(purpose: Option<Purpose>, rule: Json) {
    && IsObject(rule)
    && ShortText(Get(rule, "id"), MAX_CODE)
    && Get(rule, "priority").Num?
    && Get(rule, "enabled").Bool?
    && ShortText(Get(rule, "explanationCode"), MAX_CODE)
    && var effects := Get(rule, "effects");
       && effects.Arr? && 1 <= |effects.items| <= MAX_EFFECTS
       && (forall e :: e in effects.items ==> EffectOk(e))
       && ConditionOk(purpose, Get(rule, "condition"))
  }

  function Rules(def: Json): seq<Json> {
    if Get(def, "rules").Arr? then Get(def, "rules").items else []
  }

  /** The first n rules are sound and no two of them share an id. */
  predicate RulesOk(purpose: Option<Purpose>, rules: seq<Json>, n: nat)
    requires n <= |rules|
  {
    && (forall i :: 0 <= i < n ==> RuleOk(purpose, rules[i]))
    && forall i, j :: 0 <= i < j < n ==> Get(rules[i], "id") != Get(rules[j], "id")
  }

  /** What it means for a definition to be acceptable. */
  predicate Accepted(def: Json) {
    && IsObject(def)
    && UnitLength(PlainText(def)) <= MAX_BYTES
    && Get(def, "schemaVersion") == Num(FromInt(1))
    && ReadPurpose(Get(def, "purpose")).Some?
    && ReadEffectType(Get(def, "defaultEffect")).Some?
    && Get(def, "rules").Arr?
    && |Rules(def)| <= MAX_RULES
    && RulesOk(ReadPurpose(Get(def, "purpose")), Rules(def), |Rules(def)|)
  }
}
