/** Merging the effects of the matched rules into one decision: deny over allow, manual over
    automatic, the highest recommendation, one entry per proposed action. */
module PolicyMerge {
  import opened Optional
  import opened Sorting
  import opened Strings
  import opened JsonTree
  import opened PolicySchema

  datatype ProposedAction = ProposedAction(actionType: string, reasonCode: string, requiresApproval: bool)
  datatype Bound = Bound(interventionType: string, maxSeverity: string, maxUrgency: string, prerequisites: seq<string>)

  datatype Decision = Decision(
    purpose: Purpose,
    createIncident: bool,
    updateIncident: bool,
    recommendedSeverity: Option<string>,
    recommendedUrgency: Option<string>,
    requireReview: bool,
    requireSupervisorReview: bool,
    recommendEscalation: bool,
    escalationLevel: Option<string>,
    proposeProtectionPlan: bool,
    proposedActions: seq<ProposedAction>,
    allowAutomaticIntervention: bool,
    automaticInterventionBounds: seq<Bound>,
    requireManualInterventionApproval: bool,
    allowGuardianContactConsideration: bool,
    prohibitGuardianContact: bool,
    manualOnly: bool)

  function EmptyDecision(p: Purpose): Decision {
    Decision(p, false, false, None, None, false, false, false, None, false, [], false, [], false, false, false, false)
  }

  /** The collation of the runtime's locale, used to order types in the output. */
  type Collation = (string, string) -> bool

  function TypeOf(effect: Json): Option<EffectType> { ReadEffectType(Get(effect, "type")) }

  function Entry(effect: Json, key: string): Json { Get(PayloadOf(effect), key) }

  predicate Is(effect: Json, t: EffectType) { TypeOf(effect) == Some(t) }

  predicate Has(effects: seq<Json>, t: EffectType) { exists i :: 0 <= i < |effects| && Is(effects[i], t) }

  /** String(v ?? d). */
  function TextOr(v: Json, d: string): string { if v.Undefined? || v.Null? then d else ToText(v) }

  predicate Truthy(v: Json) {
    match v
    case Undefined => false
    case Null => false
    case NaN => false
    case Bool(b) => b
    case Num(n) => n.m != 0
    case Str(s) => s != ""
    case _ => true
  }

  // ---------------------------------------------------------------- highest recommendation

  function Rank(s: string, order: seq<string>): int
  {
    if order == [] then -1
    else if order[0] == s then 0
    else var r := Rank(s, order[1..]); if r < 0 then -1 else r + 1
  }

  /** Comparing rank-table reads; an inherited name reads something that compares with nothing. */
  predicate Higher(a: string, b: string, order: seq<string>) {
    a !in INHERITED_NAMES && b !in INHERITED_NAMES && Rank(a, order) > Rank(b, order)
  }

  function Better(best: Option<string>, v: Json, order: seq<string>): Option<string> {
    if v.Str? && (best.None? || Higher(v.s, best.value, order)) then Some(v.s) else best
  }

  function Highest(effects: seq<Json>, t: EffectType, key: string, order: seq<string>): Option<string> {
    if effects == [] then None
    else
      var n := |effects| - 1;
      var best := Highest(effects[..n], t, key, order);
      if Is(effects[n], t) then Better(best, Entry(effects[n], key), order) else best
  }

  // ---------------------------------------------------------------- proposed actions

  /** An insertion-ordered map, kept as its values: each value carries its key. */
  function KeysOf<T>(key: T -> string, list: seq<T>): seq<string> {
    seq(|list|, i requires 0 <= i < |list| => key(list[i]))
  }

  function Lookup<T>(key: T -> string, list: seq<T>, k: string): Option<T> {
    if list == [] then None
    else if key(list[0]) == k then Some(list[0])
    else Lookup(key, list[1..], k)
  }

  /** Writing an entry: an existing key keeps its place. */
  function Put<T>(key: T -> string, list: seq<T>, x: T): seq<T> {
    if list == [] then [x]
    else if key(list[0]) == key(x) then [x] + list[1..]
    else [list[0]] + Put(key, list[1..], x)
  }

  function ActionKey(a: ProposedAction): string { a.actionType }

  function BoundKey(b: Bound): string { b.interventionType }

  function ActionType(effect: Json): string { TextOr(Entry(effect, "actionType"), "") }

  predicate Proposes(effect: Json, at: string) { Is(effect, ProposeProtectionAction) && at != "" && ActionType(effect) == at }

  predicate Approves(effect: Json) { Truthy(Entry(effect, "requiresApproval")) }

  /** The entry after a proposal: the safer approval wins, a given reason replaces the earlier one. */
  function Proposal(existing: Option<ProposedAction>, effect: Json): ProposedAction {
    ProposedAction(
      ActionType(effect),
      TextOr(Entry(effect, "reasonCode"), if existing.Some? then existing.value.reasonCode else ""),
      Approves(effect) || (existing.Some? && existing.value.requiresApproval))
  }

  function Actions(effects: seq<Json>): seq<ProposedAction> {
    if effects == [] then []
    else
      var n := |effects| - 1;
      var actions := Actions(effects[..n]);
      var e := effects[n];
      if Is(e, ProposeProtectionAction) && ActionType(e) != ""
      then Put(ActionKey, actions, Proposal(Lookup(ActionKey, actions, ActionType(e)), e))
      else actions
  }

  // ---------------------------------------------------------------- automatic interventions

  function InterventionType(effect: Json): string { TextOr(Entry(effect, "interventionType"), "") }

  predicate Intervenes(effect: Json) { Is(effect, AllowAutomaticIntervention) && InterventionType(effect) != "" }

  function TextsOf(items: seq<Json>): seq<string> {
    seq(|items|, i requires 0 <= i < |items| => ToText(items[i]))
  }

  function BoundOf(effect: Json): Bound {
    var pre := Entry(effect, "prerequisites");
    Bound(InterventionType(effect), TextOr(Entry(effect, "maxSeverity"), "low"), TextOr(Entry(effect, "maxUrgency"), "routine"),
          if pre.Arr? then Sort(StrLe, TextsOf(pre.items)) else [])
  }

  function Bounds(effects: seq<Json>): seq<Bound> {
    if effects == [] then []
    else
      var n := |effects| - 1;
      if Intervenes(effects[n]) then Put(BoundKey, Bounds(effects[..n]), BoundOf(effects[n])) else Bounds(effects[..n])
  }

  // ---------------------------------------------------------------- the merged decision

  /** Order by key, as the locale collates. */
  function KeyOrder<T>(collate: Collation, key: T -> string): (T, T) -> bool {
    (a: T, b: T) => collate(key(a), key(b))
  }

  /** Someone has to decide by hand. */
  predicate Manual(effects: seq<Json>) { Has(effects, ManualOnly) || Has(effects, RequireManualInterventionApproval) }

  /** The decision a list of effects stands for, wherever each effect stands in the list. */
  function Merged(collate: Collation, purpose: Purpose, effects: seq<Json>): Decision {
    Decision(
      purpose,
      Has(effects, CreateIncident),
      Has(effects, UpdateIncident),
      Highest(effects, SetRecommendedSeverity, "severity", SEVERITIES),
      Highest(effects, SetRecommendedUrgency, "urgency", URGENCIES),
      Has(effects, RequireReview) || Has(effects, RequireSupervisorReview),
      Has(effects, RequireSupervisorReview),
      Has(effects, CreateEscalationRecommendation),
      Highest(effects, SetEscalationLevel, "level", ESCALATION_LEVELS),
      Has(effects, ProposeProtectionPlan),
      Sort(KeyOrder(collate, ActionKey), Actions(effects)),
      !Manual(effects) && Automatic(effects),
      if Manual(effects) then [] else Sort(KeyOrder(collate, BoundKey), Bounds(effects)),
      Has(effects, RequireManualInterventionApproval),
      Has(effects, AllowGuardianContactConsideration) && !Has(effects, ProhibitGuardianContact),
      Has(effects, ProhibitGuardianContact),
      Has(effects, ManualOnly))
  }

  /** The types that occur. */
  function Seen(effects: seq<Json>): set<EffectType> {
    if effects == [] then {}
    else
      var n := |effects| - 1;
      Seen(effects[..n]) + match TypeOf(effects[n]) case Some(t) => {t} case None => {}
  }

  predicate Automatic(effects: seq<Json>) { exists i :: 0 <= i < |effects| && Intervenes(effects[i]) }

  lemma {:induction false} SeenIffHas(effects: seq<Json>, t: EffectType)
    ensures t in Seen(effects) <==> Has(effects, t)
  {
    hide TypeOf;
    if effects != [] {
      var n := |effects| - 1;
      SeenIffHas(effects[..n], t);
      if Has(effects[..n], t) { var i :| 0 <= i < n && Is(effects[..n][i], t); assert Is(effects[i], t); }
    }
  }

  lemma AutomaticStep(effects: seq<Json>, e: Json)
    ensures Automatic(effects + [e]) <==> Automatic(effects) || Intervenes(e)
  {
    hide Intervenes;
    var s := effects + [e];
    if Automatic(effects) { var i :| 0 <= i < |effects| && Intervenes(effects[i]); assert Intervenes(s[i]); }
    if Intervenes(e) { assert Intervenes(s[|effects|]); }
  }

  lemma HighestStep(effects: seq<Json>, e: Json, t: EffectType, key: string, order: seq<string>)
    ensures Highest(effects + [e], t, key, order) ==
      (var best := Highest(effects, t, key, order); if Is(e, t) then Better(best, Entry(e, key), order) else best)
  {
    hide TypeOf, Better, Entry;
    assert (effects + [e])[..|effects|] == effects;
  }

  lemma SeenStep(effects: seq<Json>, e: Json)
    ensures Seen(effects + [e]) == Seen(effects) + (match TypeOf(e) case Some(t) => {t} case None => {})
  {
    hide TypeOf;
    assert (effects + [e])[..|effects|] == effects;
  }

  /** The decision under construction: one mutable field per flag and recommendation. */
  class Draft {
    var createIncident: bool
    var updateIncident: bool
    var recommendedSeverity: Option<string>
    var recommendedUrgency: Option<string>
    var requireReview: bool
    var requireSupervisorReview: bool
    var recommendEscalation: bool
    var escalationLevel: Option<string>
    var proposeProtectionPlan: bool
    var allowAutomaticIntervention: bool
    var requireManualInterventionApproval: bool
    var allowGuardianContactConsideration: bool
    var prohibitGuardianContact: bool
    var manualOnly: bool
    var actionMap: seq<ProposedAction>
    var boundsMap: seq<Bound>

    constructor ()
      ensures FlagsAre({}) && !allowAutomaticIntervention
      ensures recommendedSeverity == recommendedUrgency == escalationLevel == None
      ensures actionMap == [] && boundsMap == []
    {
      createIncident, updateIncident, requireReview, requireSupervisorReview := false, false, false, false;
      recommendEscalation, proposeProtectionPlan, allowAutomaticIntervention := false, false, false;
      requireManualInterventionApproval, allowGuardianContactConsideration := false, false;
      prohibitGuardianContact, manualOnly := false, false;
      recommendedSeverity, recommendedUrgency, escalationLevel := None, None, None;
      actionMap, boundsMap := [], [];
    }

    ghost predicate FlagsAre(seen: set<EffectType>)
      reads this`createIncident, this`updateIncident, this`requireReview, this`requireSupervisorReview,
            this`recommendEscalation, this`proposeProtectionPlan, this`requireManualInterventionApproval,
            this`allowGuardianContactConsideration, this`prohibitGuardianContact, this`manualOnly
    {
      ProposalsAre(seen) && ReviewsAre(seen) && GuardsAre(seen)
    }

    ghost predicate ProposalsAre(seen: set<EffectType>)
      reads this`createIncident, this`updateIncident, this`recommendEscalation, this`proposeProtectionPlan
    {
      && createIncident == (CreateIncident in seen)
      && updateIncident == (UpdateIncident in seen)
      && recommendEscalation == (CreateEscalationRecommendation in seen)
      && proposeProtectionPlan == (ProposeProtectionPlan in seen)
    }

    ghost predicate ReviewsAre(seen: set<EffectType>)
      reads this`requireReview, this`requireSupervisorReview, this`requireManualInterventionApproval
    {
      && requireReview == (RequireReview in seen || RequireSupervisorReview in seen)
      && requireSupervisorReview == (RequireSupervisorReview in seen)
      && requireManualInterventionApproval == (RequireManualInterventionApproval in seen)
    }

    ghost predicate GuardsAre(seen: set<EffectType>)
      reads this`allowGuardianContactConsideration, this`prohibitGuardianContact, this`manualOnly
    {
      && allowGuardianContactConsideration == (AllowGuardianContactConsideration in seen)
      && prohibitGuardianContact == (ProhibitGuardianContact in seen)
      && manualOnly == (ManualOnly in seen)
    }

    lemma FlagsMean(seen: set<EffectType>)
      requires FlagsAre(seen)
      ensures createIncident == (CreateIncident in seen) && updateIncident == (UpdateIncident in seen)
      ensures recommendEscalation == (CreateEscalationRecommendation in seen) && proposeProtectionPlan == (ProposeProtectionPlan in seen)
      ensures requireReview == (RequireReview in seen || RequireSupervisorReview in seen)
      ensures requireSupervisorReview == (RequireSupervisorReview in seen)
      ensures requireManualInterventionApproval == (RequireManualInterventionApproval in seen)
      ensures allowGuardianContactConsideration == (AllowGuardianContactConsideration in seen)
      ensures prohibitGuardianContact == (ProhibitGuardianContact in seen) && manualOnly == (ManualOnly in seen)
    {
    }

    method RaiseProposals(t: EffectType, ghost seen: set<EffectType>)
      requires ProposalsAre(seen)
      modifies this`createIncident, this`updateIncident, this`recommendEscalation, this`proposeProtectionPlan
      ensures ProposalsAre(seen + {t})
    {
      match t
      case CreateIncident => createIncident := true;
      case UpdateIncident => updateIncident := true;
      case CreateEscalationRecommendation => recommendEscalation := true;
      case ProposeProtectionPlan => proposeProtectionPlan := true;
      case _ =>
    }

    method RaiseReviews(t: EffectType, ghost seen: set<EffectType>)
      requires ReviewsAre(seen)
      modifies this`requireReview, this`requireSupervisorReview, this`requireManualInterventionApproval
      ensures ReviewsAre(seen + {t})
    {
      match t
      case RequireReview => requireReview := true;
      case RequireSupervisorReview => requireSupervisorReview := true; requireReview := true;
      case RequireManualInterventionApproval => requireManualInterventionApproval := true;
      case _ =>
    }

    method RaiseGuards(t: EffectType, ghost seen: set<EffectType>)
      requires GuardsAre(seen)
      modifies this`allowGuardianContactConsideration, this`prohibitGuardianContact, this`manualOnly
      ensures GuardsAre(seen + {t})
    {
      match t
      case AllowGuardianContactConsideration => allowGuardianContactConsideration := true;
      case ProhibitGuardianContact => prohibitGuardianContact := true;
      case ManualOnly => manualOnly := true;
      case _ =>
    }

    /** The effects that only raise flags. */
    method RaiseFlags(t: EffectType, ghost seen: set<EffectType>)
      requires FlagsAre(seen)
      modifies this`createIncident, this`updateIncident, this`requireReview, this`requireSupervisorReview,
               this`recommendEscalation, this`proposeProtectionPlan, this`requireManualInterventionApproval,
               this`allowGuardianContactConsideration, this`prohibitGuardianContact, this`manualOnly
      ensures FlagsAre(seen + {t})
    {
      hide ProposalsAre, ReviewsAre, GuardsAre;
      RaiseProposals(t, seen);
      RaiseReviews(t, seen);
      RaiseGuards(t, seen);
    }

    method ProposeAction(e: Json)
      modifies this`actionMap
      ensures actionMap == if ActionType(e) != ""
                           then Put(ActionKey, old(actionMap), Proposal(Lookup(ActionKey, old(actionMap), ActionType(e)), e)) else old(actionMap)
    {
      hide ActionType, Proposal, Lookup, Put;
      var at := ActionType(e);
      if at != "" { actionMap := Put(ActionKey, actionMap, Proposal(Lookup(ActionKey, actionMap, at), e)); }
    }

    method AllowIntervention(e: Json)
      modifies this`allowAutomaticIntervention, this`boundsMap
      ensures allowAutomaticIntervention == (old(allowAutomaticIntervention) || InterventionType(e) != "")
      ensures boundsMap == if InterventionType(e) != "" then Put(BoundKey, old(boundsMap), BoundOf(e)) else old(boundsMap)
    {
      hide InterventionType, BoundOf, Put;
      if InterventionType(e) != "" {
        allowAutomaticIntervention := true;
        boundsMap := Put(BoundKey, boundsMap, BoundOf(e));
      }
    }

    /** One effect, by its type. */
    method Apply(e: Json, t: EffectType, ghost seen: set<EffectType>)
      requires FlagsAre(seen)
      modifies this
      ensures FlagsAre(seen + {t})
      ensures recommendedSeverity == if t.SetRecommendedSeverity? then Better(old(recommendedSeverity), Entry(e, "severity"), SEVERITIES) else old(recommendedSeverity)
      ensures recommendedUrgency == if t.SetRecommendedUrgency? then Better(old(recommendedUrgency), Entry(e, "urgency"), URGENCIES) else old(recommendedUrgency)
      ensures escalationLevel == if t.SetEscalationLevel? then Better(old(escalationLevel), Entry(e, "level"), ESCALATION_LEVELS) else old(escalationLevel)
      ensures allowAutomaticIntervention == (old(allowAutomaticIntervention) || (t.AllowAutomaticIntervention? && InterventionType(e) != ""))
      ensures actionMap == if t.ProposeProtectionAction? && ActionType(e) != ""
                           then Put(ActionKey, old(actionMap), Proposal(Lookup(ActionKey, old(actionMap), ActionType(e)), e)) else old(actionMap)
      ensures boundsMap == if t.AllowAutomaticIntervention? && InterventionType(e) != "" then Put(BoundKey, old(boundsMap), BoundOf(e)) else old(boundsMap)
    {
      hide FlagsAre, Better, Entry, ActionType, InterventionType, Proposal, BoundOf, Lookup, Put;
      RaiseFlags(t, seen);
      match t
      case SetRecommendedSeverity => recommendedSeverity := Better(recommendedSeverity, Entry(e, "severity"), SEVERITIES);
      case SetRecommendedUrgency => recommendedUrgency := Better(recommendedUrgency, Entry(e, "urgency"), URGENCIES);
      case SetEscalationLevel => escalationLevel := Better(escalationLevel, Entry(e, "level"), ESCALATION_LEVELS);
      case ProposeProtectionAction => ProposeAction(e);
      case AllowAutomaticIntervention => AllowIntervention(e);
      case _ =>
    }
  }

  method MergeEffects(collate: Collation, purpose: Purpose, effects: seq<Json>) returns (r: Decision)
    ensures r == Merged(collate, purpose, effects)
  {
    hide Has, Highest, Entry, TypeOf, Better, ActionType, InterventionType, Proposal, BoundOf, Sort, Lookup, Put, Seen, Automatic, Draft.FlagsAre;
    var d := new Draft();
    NothingYet();
    for i := 0 to |effects|
      invariant d.FlagsAre(Seen(effects[..i])) && d.allowAutomaticIntervention == Automatic(effects[..i])
      invariant d.recommendedSeverity == Highest(effects[..i], SetRecommendedSeverity, "severity", SEVERITIES)
      invariant d.recommendedUrgency == Highest(effects[..i], SetRecommendedUrgency, "urgency", URGENCIES)
      invariant d.escalationLevel == Highest(effects[..i], SetEscalationLevel, "level", ESCALATION_LEVELS)
      invariant d.actionMap == Actions(effects[..i]) && d.boundsMap == Bounds(effects[..i])
    {
      var e := effects[i];
      ghost var before := effects[..i];
      assert effects[..i + 1] == before + [e] && effects[..i + 1][..i] == before;
      SeenStep(before, e);
      AutomaticStep(before, e);
      HighestStep(before, e, SetRecommendedSeverity, "severity", SEVERITIES);
      HighestStep(before, e, SetRecommendedUrgency, "urgency", URGENCIES);
      HighestStep(before, e, SetEscalationLevel, "level", ESCALATION_LEVELS);
      if TypeOf(e).Some? {
        d.Apply(e, TypeOf(e).value, Seen(before));
      } else {
        assert Seen(before + [e]) == Seen(before);
      }
    }
    assert effects[..|effects|] == effects;
    forall t: EffectType ensures t in Seen(effects) <==> Has(effects, t) { SeenIffHas(effects, t); }
    d.FlagsMean(Seen(effects));
    var manual := d.manualOnly || d.requireManualInterventionApproval;
    r := Decision(
      purpose, d.createIncident, d.updateIncident, d.recommendedSeverity, d.recommendedUrgency, d.requireReview,
      d.requireSupervisorReview, d.recommendEscalation, d.escalationLevel, d.proposeProtectionPlan,
      Sort(KeyOrder(collate, ActionKey), d.actionMap),
      d.allowAutomaticIntervention && !manual,
      if manual then [] else Sort(KeyOrder(collate, BoundKey), d.boundsMap),
      d.requireManualInterventionApproval,
      d.allowGuardianContactConsideration && !d.prohibitGuardianContact,
      d.prohibitGuardianContact, d.manualOnly);
  }

  lemma NothingYet()
    ensures Seen([]) == {} && !Automatic([]) && Actions([]) == [] && Bounds([]) == []
    ensures forall t, key, order :: Highest([], t, key, order) == None
  {
  }
}
