/** The strict validator: it accepts exactly the acceptable definitions, and reports a bounded list of faults. */
module PolicyValidator {
  import opened Optional
  import opened Strings
  import opened Numbers
  import opened JsonTree
  import opened PolicySchema

  datatype EffectFault = BadType | UnknownKey(key: string) | PayloadNotAllowed | BadEntry(key: string)

  datatype RuleFault =
    | InvalidRule | BadId | BadPriority | BadEnabled | BadExplanation
    | NoEffects | TooManyEffects | BadEffect(index: nat, fault: EffectFault)
    | TooDeep | TooManyConditions | BadCondition | BadGroup | EmptyGroup
    | NoText | UnknownField(name: string) | UnknownOperator | UnexpectedValue | NumericOnNonNumeric
    | BadInValue | BadInMember | BadValue

  datatype ErrorCode =
    | TooLarge | NotAnObject | BadSchemaVersion | BadPurpose | BadDefaultEffect | RulesNotArray | TooManyRules
    | DuplicateId(id: string) | InRule(index: nat, fault: RuleFault)

  datatype Result = Result(valid: bool, errors: seq<ErrorCode>, ruleCount: nat)

  /** Validation ends with a result or with an exception. */
  datatype Outcome = Threw | Done(result: Result)

  function If<T>(c: bool, x: T): seq<T> { if c then [x] else [] }

  // ---------------------------------------------------------------- faults of the parts

  function ForeignKeys(keys: seq<string>, allowed: set<string>): seq<EffectFault> {
    if keys == [] then []
    else ForeignKeys(keys[..|keys| - 1], allowed) + If(keys[|keys| - 1] !in allowed, UnknownKey(keys[|keys| - 1]))
  }

  function EntryFault(p: Json, key: string, allowed: seq<string>): seq<EffectFault> {
    If(!OneOf(Get(p, key), allowed), BadEntry(key))
  }

  function ActionFaults(p: Json): seq<EffectFault> {
    EntryFault(p, "actionType", PROTECTION_ACTION_TYPES)
    + (If(!ShortText(Get(p, "reasonCode"), MAX_CODE), BadEntry("reasonCode"))
    + If(!Get(p, "requiresApproval").Bool?, BadEntry("requiresApproval")))
  }

  function InterventionFaults(p: Json): seq<EffectFault> {
    EntryFault(p, "interventionType", INTERVENTION_TYPES)
    + (EntryFault(p, "maxSeverity", SEVERITIES)
    + (EntryFault(p, "maxUrgency", URGENCIES)
    + If(!PrerequisitesOk(Get(p, "prerequisites")), BadEntry("prerequisites"))))
  }

  function PayloadFaults(t: EffectType, p: Json): seq<EffectFault> {
    var foreign := ForeignKeys(OwnKeys(p), PayloadKeys(t));
    match t
    case SetRecommendedSeverity => foreign + EntryFault(p, "severity", SEVERITIES)
    case SetRecommendedUrgency => foreign + EntryFault(p, "urgency", URGENCIES)
    case SetEscalationLevel => foreign + EntryFault(p, "level", ESCALATION_LEVELS)
    case ProposeProtectionAction => foreign + ActionFaults(p)
    case AllowAutomaticIntervention => foreign + InterventionFaults(p)
    case _ => If(OwnKeys(p) != [], PayloadNotAllowed)
  }

  function EffectFaults(effect: Json): seq<EffectFault> {
    if !IsObject(effect) || ReadEffectType(Get(effect, "type")).None? then [BadType]
    else PayloadFaults(ReadEffectType(Get(effect, "type")).value, PayloadOf(effect))
  }

  function At(j: nat, faults: seq<EffectFault>): seq<RuleFault> {
    seq(|faults|, i requires 0 <= i < |faults| => BadEffect(j, faults[i]))
  }

  /** Faults of the first n effects. */
  function EffectsFaults(effects: seq<Json>, n: nat): seq<RuleFault>
    requires n <= |effects|
  {
    if n == 0 then [] else EffectsFaults(effects, n - 1) + At(n - 1, EffectFaults(effects[n - 1]))
  }

  function MemberFaults(fd: Descriptor, values: seq<Json>): seq<RuleFault> {
    if values == [] then []
    else MemberFaults(fd, values[..|values| - 1]) + If(!ValueOk(fd, values[|values| - 1]), BadInMember)
  }

  /** Looking up a field name that has no text raises an exception, which `NoText` stands for. */
  function LeafFaults(purpose: Option<Purpose>, leaf: Json): seq<RuleFault> {
    var fd := DescriptorOf(purpose, FieldName(leaf));
    var op := ReadOperator(Get(leaf, "operator"));
    var value := Get(leaf, "value");
    if !HasText(Get(leaf, "field")) then [NoText]
    else if fd.None? then [UnknownField(FieldName(leaf))]
    else if op.None? then [UnknownOperator]
    else if op.value.Exists? || op.value.NotExists? then If(value != Undefined, UnexpectedValue)
    else
      var numeric := If(Numeric(op.value) && fd.value != NumberField, NumericOnNonNumeric);
      if op.value.In? || op.value.NotIn? then
        if !value.Arr? || |value.items| == 0 || |value.items| > MAX_IN_VALUES then numeric + [BadInValue]
        else numeric + MemberFaults(fd.value, value.items)
      else numeric + If(!ValueOk(fd.value, value), BadValue)
  }

  /** The walk over a condition tree: its faults, and the shared node counter afterwards. */
  function WalkFaults(purpose: Option<Purpose>, node: Json, depth: nat, count: nat): (r: (seq<RuleFault>, nat))
    decreases node, 0
  {
    if depth > MAX_DEPTH then ([TooDeep], count)
    else if count + 1 > MAX_NODES then ([TooManyConditions], count + 1)
    else if !IsObject(node) then ([BadCondition], count + 1)
    else if IsGroup(node) then
      var kind := If(!KindOk(node), BadGroup);
      if Children(node) == [] then (kind + [EmptyGroup], count + 1)
      else
        var below := WalkChildren(purpose, node, Children(node), depth + 1, count + 1);
        (kind + below.0, below.1)
    else (LeafFaults(purpose, node), count + 1)
  }

  function WalkChildren(purpose: Option<Purpose>, node: Json, items: seq<Json>, depth: nat, count: nat): (r: (seq<RuleFault>, nat))
    requires forall i :: 0 <= i < |items| ==> items[i] < node
    decreases node, 0, |items|
  {
    if items == [] then ([], count)
    else
      var n := |items| - 1;
      var before := WalkChildren(purpose, node, items[..n], depth, count);
      var last := WalkFaults(purpose, items[n], depth, before.1);
      (before.0 + last.0, last.1)
  }

  function HeaderFaults(rule: Json): seq<RuleFault> {
    If(!Get(rule, "priority").Num?, BadPriority)
    + If(!Get(rule, "enabled").Bool?, BadEnabled)
    + If(!ShortText(Get(rule, "explanationCode"), MAX_CODE), BadExplanation)
  }

  function EffectListFaults(effects: Json): seq<RuleFault> {
    if !effects.Arr? || effects.items == [] then [NoEffects]
    else If(|effects.items| > MAX_EFFECTS, TooManyEffects) + EffectsFaults(effects.items, |effects.items|)
  }

  function RuleFaults(purpose: Option<Purpose>, rule: Json): seq<RuleFault> {
    HeaderFaults(rule) + EffectListFaults(Get(rule, "effects")) + WalkFaults(purpose, Get(rule, "condition"), 1, 0).0
  }

  function Lift(i: nat, faults: seq<RuleFault>): (r: seq<ErrorCode>)
    ensures |r| == |faults|
  {
    seq(|faults|, k requires 0 <= k < |faults| => InRule(i, faults[k]))
  }

  predicate HasId(rule: Json) { IsObject(rule) && ShortText(Get(rule, "id"), MAX_CODE) }

  /** Ids seen among the first n rules. */
  function SeenIds(rules: seq<Json>, n: nat): set<Json>
    requires n <= |rules|
  {
    if n == 0 then {} else SeenIds(rules, n - 1) + (if HasId(rules[n - 1]) then {Get(rules[n - 1], "id")} else {})
  }

  function IdErrors(i: nat, rule: Json, seen: set<Json>): seq<ErrorCode> {
    if !HasId(rule) then [InRule(i, BadId)]
    else If(Get(rule, "id") in seen, DuplicateId(Get(rule, "id").s))
  }

  function RulesErrors(purpose: Option<Purpose>, rules: seq<Json>, n: nat): seq<ErrorCode>
    requires n <= |rules|
  {
    if n == 0 then []
    else
      var rule := rules[n - 1];
      RulesErrors(purpose, rules, n - 1)
      + if !IsObject(rule) then [InRule(n - 1, InvalidRule)]
        else IdErrors(n - 1, rule, SeenIds(rules, n - 1)) + Lift(n - 1, RuleFaults(purpose, rule))
  }

  function HeaderErrors(def: Json): seq<ErrorCode> {
    If(UnitLength(PlainText(def)) > MAX_BYTES, TooLarge)
    + If(Get(def, "schemaVersion") != Num(FromInt(1)), BadSchemaVersion)
    + If(ReadPurpose(Get(def, "purpose")).None?, BadPurpose)
    + If(ReadEffectType(Get(def, "defaultEffect")).None?, BadDefaultEffect)
  }

  /** Every error the validator raises, before the list is cut to its bound. */
  function AllErrors(def: Json): seq<ErrorCode> {
    if !IsObject(def) then [NotAnObject]
    else if !Get(def, "rules").Arr? then HeaderErrors(def) + [RulesNotArray]
    else
      HeaderErrors(def) + If(|Rules(def)| > MAX_RULES, TooManyRules)
      + RulesErrors(ReadPurpose(Get(def, "purpose")), Rules(def), |Rules(def)|)
  }

  function Cap(s: seq<ErrorCode>): seq<ErrorCode> { if |s| <= MAX_ERRORS then s else s[..MAX_ERRORS] }

  // ---------------------------------------------------------------- no error means acceptable

  lemma {:induction false} NoForeignKeys(keys: seq<string>, allowed: set<string>)
    ensures ForeignKeys(keys, allowed) == [] <==> forall k :: k in keys ==> k in allowed
  {
    if keys != [] {
      NoForeignKeys(keys[..|keys| - 1], allowed);
      assert keys == keys[..|keys| - 1] + [keys[|keys| - 1]];
    }
  }

  lemma NoPayloadFaults(t: EffectType, p: Json)
    ensures PayloadFaults(t, p) == [] <==> PayloadOk(t, p)
  {
    hide OwnKeys, PayloadKeys, Get, ShortText, PrerequisitesOk, OneOf, ActionFaults, InterventionFaults;
    NoForeignKeys(OwnKeys(p), PayloadKeys(t));
    NoKeysAllowed(t);
    NoActionFaults(p);
    NoInterventionFaults(p);
    if OwnKeys(p) != [] { assert OwnKeys(p)[0] in OwnKeys(p); }
  }

  lemma NoActionFaults(p: Json)
    ensures ActionFaults(p) == [] <==>
      OneOf(Get(p, "actionType"), PROTECTION_ACTION_TYPES) && ShortText(Get(p, "reasonCode"), MAX_CODE) && Get(p, "requiresApproval").Bool?
  {
    hide Get, ShortText, OneOf;
  }

  lemma NoInterventionFaults(p: Json)
    ensures InterventionFaults(p) == [] <==>
      OneOf(Get(p, "interventionType"), INTERVENTION_TYPES) && OneOf(Get(p, "maxSeverity"), SEVERITIES)
      && OneOf(Get(p, "maxUrgency"), URGENCIES) && PrerequisitesOk(Get(p, "prerequisites"))
  {
    hide Get, PrerequisitesOk, OneOf;
  }

  lemma NoKeysAllowed(t: EffectType)
    ensures PayloadKeys(t) == {} <==>
      !(t.SetRecommendedSeverity? || t.SetRecommendedUrgency? || t.SetEscalationLevel? || t.ProposeProtectionAction? || t.AllowAutomaticIntervention?)
  {
    if PayloadKeys(t) != {} { var k :| k in PayloadKeys(t); }
  }

  lemma NoEffectFault(e: Json)
    ensures EffectFaults(e) == [] <==> EffectOk(e)
  {
    hide PayloadFaults, PayloadOk, ReadEffectType, PayloadOf, Get;
    if IsObject(e) && ReadEffectType(Get(e, "type")).Some? {
      NoPayloadFaults(ReadEffectType(Get(e, "type")).value, PayloadOf(e));
    }
  }

  lemma {:induction false} NoEffectFaults(effects: seq<Json>, n: nat)
    requires n <= |effects|
    ensures EffectsFaults(effects, n) == [] <==> forall i :: 0 <= i < n ==> EffectOk(effects[i])
  {
    hide EffectFaults, EffectOk;
    if n > 0 {
      var e := effects[n - 1];
      NoEffectFaults(effects, n - 1);
      NoEffectFault(e);
      assert |At(n - 1, EffectFaults(e))| == |EffectFaults(e)|;
    }
  }

  lemma {:induction false} NoMemberFaults(fd: Descriptor, values: seq<Json>)
    ensures MemberFaults(fd, values) == [] <==> forall x :: x in values ==> ValueOk(fd, x)
  {
    if values != [] {
      NoMemberFaults(fd, values[..|values| - 1]);
      assert values == values[..|values| - 1] + [values[|values| - 1]];
    }
  }

  lemma NoLeafFaults(purpose: Option<Purpose>, leaf: Json)
    ensures LeafFaults(purpose, leaf) == [] <==> LeafOk(purpose, leaf)
  {
    hide DescriptorOf, ReadOperator, FieldName, Get, MemberFaults, HasText;
    var fd := DescriptorOf(purpose, FieldName(leaf));
    var value := Get(leaf, "value");
    if fd.Some? && value.Arr? { NoMemberFaults(fd.value, value.items); }
  }

  lemma {:induction false} CountSplit(node: Json, items: seq<Json>, n: nat)
    requires n < |items| && forall i :: 0 <= i < |items| ==> items[i] < node
    ensures CountAll(node, items[..n + 1]) == CountAll(node, items[..n]) + NodeCount(items[n])
    decreases n
  {
    hide NodeCount;
    var a, b := items[..n + 1], items[..n];
    if n == 0 {
      assert a == [items[0]] && b == [];
      assert a[1..] == [];
    } else {
      CountSplit(node, items[1..], n - 1);
      assert a[1..] == items[1..][..n] && b[1..] == items[1..][..n - 1];
    }
  }

  lemma {:induction false} DepthBound(node: Json, items: seq<Json>, d: int)
    requires forall i :: 0 <= i < |items| ==> items[i] < node
    ensures DepthAll(node, items) <= d <==> (d >= 0 && forall i :: 0 <= i < |items| ==> Depth(items[i]) <= d)
    decreases |items|
  {
    if items != [] {
      DepthBound(node, items[1..], d);
      assert items == [items[0]] + items[1..];
    }
  }

  /** The walk is silent exactly on sound trees that fit the depth and what is left of the node
      budget; and when it is silent it has counted every node once. */
  lemma {:induction false} SilentWalk(purpose: Option<Purpose>, node: Json, depth: nat, count: nat)
    requires depth >= 1
    ensures var w := WalkFaults(purpose, node, depth, count);
      && (w.0 == [] <==> NodesOk(purpose, node) && depth - 1 + Depth(node) <= MAX_DEPTH && count + NodeCount(node) <= MAX_NODES)
      && (w.0 == [] ==> w.1 == count + NodeCount(node))
    decreases node, 1
  {
    if IsGroup(node) && Children(node) != [] {
      SilentGroup(purpose, node, depth, count);
    } else {
      SilentLeaf(purpose, node, depth, count);
    }
  }

  lemma SilentLeaf(purpose: Option<Purpose>, node: Json, depth: nat, count: nat)
    requires depth >= 1 && (!IsGroup(node) || Children(node) == [])
    ensures var w := WalkFaults(purpose, node, depth, count);
      && (w.0 == [] <==> NodesOk(purpose, node) && depth - 1 + Depth(node) <= MAX_DEPTH && count + NodeCount(node) <= MAX_NODES)
      && (w.0 == [] ==> w.1 == count + NodeCount(node))
  {
    hide LeafFaults, LeafOk, Get;
    NoLeafFaults(purpose, node);
  }

  lemma {:induction false} SilentGroup(purpose: Option<Purpose>, node: Json, depth: nat, count: nat)
    requires depth >= 1 && IsGroup(node) && Children(node) != []
    ensures var w := WalkFaults(purpose, node, depth, count);
      && (w.0 == [] <==> NodesOk(purpose, node) && depth - 1 + Depth(node) <= MAX_DEPTH && count + NodeCount(node) <= MAX_NODES)
      && (w.0 == [] ==> w.1 == count + NodeCount(node))
    decreases node, 0, |Children(node)| + 1
  {
    hide NodesOk, Depth, NodeCount, DepthAll, CountAll, WalkFaults, WalkChildren, Children, IsGroup, IsObject, Get;
    var items := Children(node);
    UnfoldGroup(purpose, node, depth, count);
    SilentChildren(purpose, node, items, depth + 1, count + 1, |items|);
    assert items[..|items|] == items;
    DepthBound(node, items, MAX_DEPTH - depth);
    OneChildAtLeast(node);
  }

  lemma UnfoldGroup(purpose: Option<Purpose>, node: Json, depth: nat, count: nat)
    requires IsGroup(node) && Children(node) != []
    ensures Depth(node) == 1 + DepthAll(node, Children(node)) && NodeCount(node) == 1 + CountAll(node, Children(node))
    ensures NodesOk(purpose, node) <==>
      KindOk(node) && forall i :: 0 <= i < |Children(node)| ==> NodesOk(purpose, Children(node)[i])
    ensures var below := WalkChildren(purpose, node, Children(node), depth + 1, count + 1);
      WalkFaults(purpose, node, depth, count) ==
        if depth > MAX_DEPTH then ([TooDeep], count)
        else if count + 1 > MAX_NODES then ([TooManyConditions], count + 1)
        else (If(!KindOk(node), BadGroup) + below.0, below.1)
  {
    hide LeafFaults, LeafOk;
  }

  lemma OneChildAtLeast(node: Json)
    requires Children(node) != []
    ensures DepthAll(node, Children(node)) >= 1 && CountAll(node, Children(node)) >= 1
  {
    hide Children;
  }

  lemma {:induction false} SilentChildren(purpose: Option<Purpose>, node: Json, items: seq<Json>, depth: nat, count: nat, n: nat)
    requires depth >= 1 && n <= |items| && forall i :: 0 <= i < |items| ==> items[i] < node
    ensures var w := WalkChildren(purpose, node, items[..n], depth, count);
      && (w.0 == [] <==>
            && (forall i :: 0 <= i < n ==> NodesOk(purpose, items[i]) && depth - 1 + Depth(items[i]) <= MAX_DEPTH)
            && (n > 0 ==> count + CountAll(node, items[..n]) <= MAX_NODES))
      && (w.0 == [] ==> w.1 == count + CountAll(node, items[..n]))
    decreases node, 0, n
  {
    hide LeafFaults, LeafOk, Get, IsGroup, IsObject, NodesOk, Depth, NodeCount, WalkFaults;
    if n > 0 {
      SilentChildren(purpose, node, items, depth, count, n - 1);
      CountSplit(node, items, n - 1);
      assert items[..n][..n - 1] == items[..n - 1];
      var before := WalkChildren(purpose, node, items[..n - 1], depth, count);
      SilentWalk(purpose, items[n - 1], depth, before.1);
    }
  }

  lemma NoRuleFaults(purpose: Option<Purpose>, rule: Json)
    ensures IsObject(rule) && HasId(rule) && RuleFaults(purpose, rule) == [] <==> RuleOk(purpose, rule)
  {
    hide EffectOk, WalkFaults, NodesOk, Depth, NodeCount, ShortText, Get, EffectsFaults;
    var effects := Get(rule, "effects");
    if effects.Arr? { NoEffectFaults(effects.items, |effects.items|); }
    SilentWalk(purpose, Get(rule, "condition"), 1, 0);
  }

  lemma {:induction false} SeenIdsAre(rules: seq<Json>, n: nat)
    requires n <= |rules|
    ensures forall id :: id in SeenIds(rules, n) <==> exists i :: 0 <= i < n && HasId(rules[i]) && Get(rules[i], "id") == id
  {
    if n > 0 { SeenIdsAre(rules, n - 1); }
  }

  lemma NoErrorStep(purpose: Option<Purpose>, rules: seq<Json>, n: nat)
    requires n <= |rules|
    ensures if n == 0 then RulesErrors(purpose, rules, n) == [] else
      (RulesErrors(purpose, rules, n) == [] <==>
        && RulesErrors(purpose, rules, n - 1) == []
        && IsObject(rules[n - 1]) && HasId(rules[n - 1])
        && Get(rules[n - 1], "id") !in SeenIds(rules, n - 1)
        && RuleFaults(purpose, rules[n - 1]) == [])
  {
    hide RuleFaults, Get, ShortText;
  }

  lemma {:induction false} NoRulesErrors(purpose: Option<Purpose>, rules: seq<Json>, n: nat)
    requires n <= |rules|
    ensures RulesErrors(purpose, rules, n) == [] <==> RulesOk(purpose, rules, n)
  {
    hide RulesErrors, RuleFaults, RuleOk, HasId, IsObject, SeenIds, Get;
    NoErrorStep(purpose, rules, n);
    if n > 0 {
      NoRulesErrors(purpose, rules, n - 1);
      SeenIdsAre(rules, n - 1);
      forall i | 0 <= i < n
        ensures IsObject(rules[i]) && HasId(rules[i]) && RuleFaults(purpose, rules[i]) == [] <==> RuleOk(purpose, rules[i])
      {
        NoRuleFaults(purpose, rules[i]);
      }
    }
  }

  /** The validator's errors are empty exactly on the acceptable definitions. */
  lemma NoErrorsIffAccepted(def: Json)
    ensures AllErrors(def) == [] <==> Accepted(def)
    ensures Cap(AllErrors(def)) == [] <==> Accepted(def)
  {
    hide ReadPurpose, ReadEffectType, PlainText, Get, RulesOk, RulesErrors, FromInt, UnitLength;
    NoRulesErrors(ReadPurpose(Get(def, "purpose")), Rules(def), |Rules(def)|);
  }

  // ---------------------------------------------------------------- when validation completes

  predicate Raises(faults: seq<RuleFault>) { NoText in faults }

  /** The validator comes to a leaf whose field name has no text. */
  ghost predicate Raised(errors: seq<ErrorCode>) { exists i :: InRule(i, NoText) in errors }

  /** A leaf whose field name has no text. */
  predicate TextlessLeaf(node: Json) { IsObject(node) && !IsGroup(node) && !HasText(Get(node, "field")) }

  /** The nodes no deeper than the limit, in the order in which a walk comes to them. */
  function Visits(node: Json, depth: nat): seq<Json>
    decreases node, 0
  {
    if depth > MAX_DEPTH then [] else [node] + VisitsAll(node, Children(node), depth + 1)
  }

  function VisitsAll(node: Json, items: seq<Json>, depth: nat): seq<Json>
    requires forall i :: 0 <= i < |items| ==> items[i] < node
    decreases node, 0, |items|
  {
    if items == [] then [] else VisitsAll(node, items[..|items| - 1], depth) + Visits(items[|items| - 1], depth)
  }

  /** One of the first `room` nodes is a textless leaf. */
  ghost predicate TextlessAmong(nodes: seq<Json>, room: int) {
    exists k :: 0 <= k < |nodes| && k < room && TextlessLeaf(nodes[k])
  }

  lemma AmongConcat(a: seq<Json>, b: seq<Json>, room: int)
    ensures TextlessAmong(a + b, room) <==> TextlessAmong(a, room) || TextlessAmong(b, room - |a|)
  {
    hide TextlessLeaf;
    var s := a + b;
    if TextlessAmong(s, room) {
      var k :| 0 <= k < |s| && k < room && TextlessLeaf(s[k]);
      if k >= |a| { assert TextlessLeaf(b[k - |a|]); } else { assert TextlessLeaf(a[k]); }
    }
    if k :| 0 <= k < |a| && k < room && TextlessLeaf(a[k]) { assert TextlessLeaf(s[k]); }
    if k :| 0 <= k < |b| && k < room - |a| && TextlessLeaf(b[k]) { assert TextlessLeaf(s[|a| + k]); }
  }

  /** A walk that came over these nodes with this counter: it raised exactly if a textless leaf is among
      those the counter leaves room for, and it counted the nodes up to the limit. */
  ghost predicate Walked(w: (seq<RuleFault>, nat), nodes: seq<Json>, count: nat) {
    && (Raises(w.0) <==> TextlessAmong(nodes, MAX_NODES - count))
    && w.1 >= count && (if count + |nodes| <= MAX_NODES then w.1 == count + |nodes| else w.1 >= MAX_NODES)
  }

  /** Exactly when a walk raises, whatever the tree: when one of the nodes that depth and counter let it
      visit is a leaf whose field name has no text. */
  lemma {:induction false} WalkRaisesIff(purpose: Option<Purpose>, node: Json, depth: nat, count: nat)
    ensures Walked(WalkFaults(purpose, node, depth, count), Visits(node, depth), count)
    decreases node, 1
  {
    hide LeafFaults, HasText, Get, IsObject, Walked, Children, KindOk;
    if IsGroup(node) && Children(node) != [] {
      GroupRaisesIff(purpose, node, depth, count);
    } else {
      LeafRaisesIff(purpose, node, depth, count);
    }
  }

  lemma LeafRaisesIff(purpose: Option<Purpose>, node: Json, depth: nat, count: nat)
    requires !IsGroup(node) || Children(node) == []
    ensures Walked(WalkFaults(purpose, node, depth, count), Visits(node, depth), count)
  {
    hide LeafFaults, Get, HasText;
    LeafRaises(purpose, node);
    NoChildren(node);
    if depth <= MAX_DEPTH {
      assert Visits(node, depth) == [node];
      assert TextlessLeaf([node][0]) <==> TextlessLeaf(node);
    }
  }

  lemma NoChildren(node: Json)
    ensures !IsGroup(node) ==> Children(node) == []
  {
  }

  lemma {:induction false} MembersDoNotRaise(purpose: Option<Purpose>, leaf: Json, values: seq<Json>)
    ensures forall fd :: !Raises(MemberFaults(fd, values))
  {
    hide ValueOk;
    if values != [] { MembersDoNotRaise(purpose, leaf, values[..|values| - 1]); }
  }

  lemma {:induction false} GroupRaisesIff(purpose: Option<Purpose>, node: Json, depth: nat, count: nat)
    requires IsGroup(node) && Children(node) != []
    ensures Walked(WalkFaults(purpose, node, depth, count), Visits(node, depth), count)
    decreases node, 0, |Children(node)| + 1
  {
    hide NodesOk, Depth, NodeCount, DepthAll, CountAll, WalkFaults, WalkChildren, Children, IsGroup, Get, KindOk, VisitsAll;
    var items := Children(node);
    UnfoldGroup(purpose, node, depth, count);
    ChildrenRaiseIff(purpose, node, items, depth + 1, count + 1, |items|);
    assert items[..|items|] == items;
    AmongConcat([node], VisitsAll(node, items, depth + 1), MAX_NODES - count);
    assert !TextlessLeaf([node][0]);
  }

  lemma {:induction false} ChildrenRaiseIff(purpose: Option<Purpose>, node: Json, items: seq<Json>, depth: nat, count: nat, n: nat)
    requires n <= |items| && forall i :: 0 <= i < |items| ==> items[i] < node
    ensures Walked(WalkChildren(purpose, node, items[..n], depth, count), VisitsAll(node, items[..n], depth), count)
    decreases node, 0, n
  {
    hide Visits, WalkFaults, TextlessAmong;
    if n == 0 {
      NoneAmong(MAX_NODES - count);
    } else {
      ChildrenRaiseIff(purpose, node, items, depth, count, n - 1);
      assert items[..n][..n - 1] == items[..n - 1];
      var before := WalkChildren(purpose, node, items[..n - 1], depth, count);
      var a, b := VisitsAll(node, items[..n - 1], depth), Visits(items[n - 1], depth);
      WalkRaisesIff(purpose, items[n - 1], depth, before.1);
      AmongConcat(a, b, MAX_NODES - count);
      NoRoom(b, MAX_NODES - before.1);
      NoRoom(b, MAX_NODES - count - |a|);
    }
  }

  lemma NoneAmong(room: int)
    ensures !TextlessAmong([], room)
  {
  }

  lemma NoRoom(nodes: seq<Json>, room: int)
    ensures room <= 0 ==> !TextlessAmong(nodes, room)
  {
  }

  /** A condition whose one leaf is named by an object that owns a key toString. */
  const UNNAMEABLE := Obj([Field("field", Obj([Field("toString", Str("x"))])), Field("operator", Str("EXISTS"))])

  /** Whatever else the rule says, validating a definition with that condition raises. */
  lemma OwnToStringRaises(def: Json, i: nat)
    requires IsObject(def) && Get(def, "rules").Arr? && i < |Rules(def)| && IsObject(Rules(def)[i]) && Get(Rules(def)[i], "condition") == UNNAMEABLE
    ensures Raised(AllErrors(def))
  {
    hide Get, HeaderErrors, RulesErrors, LeafFaults, PlainText;
    var purpose, rules := ReadPurpose(Get(def, "purpose")), Rules(def);
    UnnameableRaises(purpose);
    RuleRaises(purpose, rules, i, |rules|);
  }

  lemma UnnameableReads()
    ensures Get(UNNAMEABLE, "field") == Obj([Field("toString", Str("x"))]) && !IsGroup(UNNAMEABLE)
  {
    var fs := UNNAMEABLE.fields;
    assert fs[1..] == [Field("operator", Str("EXISTS"))] && fs[1..][1..] == [];
  }

  lemma UnnameableRaises(purpose: Option<Purpose>)
    ensures Raises(WalkFaults(purpose, UNNAMEABLE, 1, 0).0)
  {
    hide DescriptorOf, ReadOperator, FieldName;
    UnnameableReads();
    assert Keys([Field("toString", Str("x"))])[0] == "toString";
    hide Get;
    assert LeafFaults(purpose, UNNAMEABLE) == [NoText];
  }

  /** A rule whose walk raises makes the whole validation raise. */
  lemma RuleRaises(purpose: Option<Purpose>, rules: seq<Json>, i: nat, n: nat)
    requires i < n <= |rules| && IsObject(rules[i]) && Raises(WalkFaults(purpose, Get(rules[i], "condition"), 1, 0).0)
    ensures Raised(RulesErrors(purpose, rules, n))
  {
    hide WalkFaults, RuleFaults, RulesErrors, Raised, Get;
    OnlyWalkRaises(purpose, rules[i]);
    RulesRaise(purpose, rules, i);
    RulesStayRaised(purpose, rules, i + 1, n);
  }

  lemma LiftRaises(i: nat, faults: seq<RuleFault>)
    ensures Raised(Lift(i, faults)) <==> Raises(faults)
    ensures Raises(faults) ==> InRule(i, NoText) in Lift(i, faults)
  {
    if Raises(faults) { var k :| 0 <= k < |faults| && faults[k] == NoText; assert Lift(i, faults)[k] == InRule(i, NoText); }
    if j :| InRule(j, NoText) in Lift(i, faults) {
      var k :| 0 <= k < |faults| && Lift(i, faults)[k] == InRule(j, NoText);
      assert faults[k] == NoText;
    }
  }

  /** Acceptable definitions never raise. */
  lemma AcceptedDoesNotRaise(def: Json)
    ensures Accepted(def) ==> !Raised(AllErrors(def))
  {
    hide Accepted, AllErrors;
    NoErrorsIffAccepted(def);
  }

  // ---------------------------------------------------------------- the validator itself

  lemma LiftConcat(i: nat, a: seq<RuleFault>, b: seq<RuleFault>)
    ensures Lift(i, a + b) == Lift(i, a) + Lift(i, b)
  {
  }

  /** One validation run: the bounded error list and the node counter shared by the walk. */
  class Validation {
    var errors: seq<ErrorCode>
    var nodeCount: nat
    /** Everything reported so far; the error list is its bounded front. */
    ghost var log: seq<ErrorCode>

    ghost predicate Valid() reads this { errors == Cap(log) }

    constructor ()
      ensures Valid() && log == []
    {
      errors, nodeCount, log := [], 0, [];
    }

    method Err(c: ErrorCode)
      requires Valid()
      modifies this`errors, this`log
      ensures Valid() && log == old(log) + [c]
    {
      if |errors| < MAX_ERRORS { errors := errors + [c]; }
      log := log + [c];
    }

    method ReportAll(errs: seq<ErrorCode>)
      requires Valid()
      modifies this`errors, this`log
      ensures Valid() && log == old(log) + errs
    {
      for k := 0 to |errs|
        invariant Valid() && log == old(log) + errs[..k]
      {
        Err(errs[k]);
      }
    }

    method Report(i: nat, faults: seq<RuleFault>)
      requires Valid()
      modifies this`errors, this`log
      ensures Valid() && log == old(log) + Lift(i, faults)
    {
      ReportAll(Lift(i, faults));
    }

    /** Walks the tree; true means that an exception ended the walk. */
    method Walk(purpose: Option<Purpose>, i: nat, node: Json, depth: nat) returns (threw: bool)
      requires Valid()
      modifies this
      ensures threw <==> Raises(WalkFaults(purpose, node, depth, old(nodeCount)).0)
      ensures !threw ==> Valid() && log == old(log) + Lift(i, WalkFaults(purpose, node, depth, old(nodeCount)).0)
      ensures !threw ==> nodeCount == WalkFaults(purpose, node, depth, old(nodeCount)).1
      decreases node, 1
    {
      hide LeafFaults, Get, IsGroup, IsObject, WalkChildren, Lift, HasText;
      threw := false;
      if depth > MAX_DEPTH { Report(i, [TooDeep]); return; }
      nodeCount := nodeCount + 1;
      if nodeCount > MAX_NODES { Report(i, [TooManyConditions]); return; }
      if !IsObject(node) { Report(i, [BadCondition]); return; }
      if IsGroup(node) {
        var kind := If(!KindOk(node), BadGroup);
        Report(i, kind);
        var items := Children(node);
        if items == [] {
          Report(i, [EmptyGroup]);
          LiftConcat(i, kind, [EmptyGroup]);
        } else {
          threw := WalkBelow(purpose, i, node, items, depth + 1);
          LiftConcat(i, kind, WalkChildren(purpose, node, items, depth + 1, old(nodeCount) + 1).0);
        }
      } else {
        LeafRaises(purpose, node);
        if !HasText(Get(node, "field")) { return true; }
        Report(i, LeafFaults(purpose, node));
      }
    }

    method WalkBelow(purpose: Option<Purpose>, i: nat, node: Json, items: seq<Json>, depth: nat) returns (threw: bool)
      requires Valid() && forall k :: 0 <= k < |items| ==> items[k] < node
      modifies this
      ensures threw <==> Raises(WalkChildren(purpose, node, items, depth, old(nodeCount)).0)
      ensures !threw ==> Valid() && log == old(log) + Lift(i, WalkChildren(purpose, node, items, depth, old(nodeCount)).0)
      ensures !threw ==> nodeCount == WalkChildren(purpose, node, items, depth, old(nodeCount)).1
      decreases node, 0
    {
      hide WalkFaults, Lift;
      ghost var count := nodeCount;
      for k := 0 to |items|
        invariant Valid() && !Raises(WalkChildren(purpose, node, items[..k], depth, count).0)
        invariant log == old(log) + Lift(i, WalkChildren(purpose, node, items[..k], depth, count).0)
        invariant nodeCount == WalkChildren(purpose, node, items[..k], depth, count).1
      {
        ghost var before := WalkChildren(purpose, node, items[..k], depth, count);
        assert items[..k + 1][..k] == items[..k];
        threw := Walk(purpose, i, items[k], depth);
        if threw {
          ChildrenRaise(purpose, node, items, depth, count, k + 1);
          return;
        }
        LiftConcat(i, before.0, WalkFaults(purpose, items[k], depth, before.1).0);
      }
      assert items[..|items|] == items;
      threw := false;
    }

    method CheckEffects(i: nat, effects: seq<Json>)
      requires Valid()
      modifies this`errors, this`log
      ensures Valid() && log == old(log) + Lift(i, EffectsFaults(effects, |effects|))
    {
      hide EffectFaults, Lift, At;
      for j := 0 to |effects|
        invariant Valid() && log == old(log) + Lift(i, EffectsFaults(effects, j))
      {
        LiftConcat(i, EffectsFaults(effects, j), At(j, EffectFaults(effects[j])));
        Report(i, At(j, EffectFaults(effects[j])));
      }
    }

    method CheckEffectList(i: nat, effects: Json)
      requires Valid()
      modifies this`errors, this`log
      ensures Valid() && log == old(log) + Lift(i, EffectListFaults(effects))
    {
      hide EffectsFaults, Lift;
      if !effects.Arr? || effects.items == [] {
        Report(i, [NoEffects]);
      } else {
        var many := If(|effects.items| > MAX_EFFECTS, TooManyEffects);
        Report(i, many);
        CheckEffects(i, effects.items);
        LiftConcat(i, many, EffectsFaults(effects.items, |effects.items|));
      }
    }

    method CheckRule(purpose: Option<Purpose>, i: nat, rule: Json) returns (threw: bool)
      requires Valid()
      modifies this
      ensures threw <==> Raises(RuleFaults(purpose, rule))
      ensures !threw ==> Valid() && log == old(log) + Lift(i, RuleFaults(purpose, rule))
    {
      hide Get, HeaderFaults, EffectListFaults, WalkFaults, Lift;
      Report(i, HeaderFaults(rule));
      CheckEffectList(i, Get(rule, "effects"));
      nodeCount := 0;
      threw := Walk(purpose, i, Get(rule, "condition"), 1);
      OnlyWalkRaises(purpose, rule);
      LiftConcat(i, HeaderFaults(rule), EffectListFaults(Get(rule, "effects")));
      LiftConcat(i, HeaderFaults(rule) + EffectListFaults(Get(rule, "effects")), WalkFaults(purpose, Get(rule, "condition"), 1, 0).0);
    }

    method CheckRules(purpose: Option<Purpose>, rules: seq<Json>) returns (threw: bool)
      requires Valid()
      modifies this
      ensures threw <==> Raised(RulesErrors(purpose, rules, |rules|))
      ensures !threw ==> Valid() && log == old(log) + RulesErrors(purpose, rules, |rules|)
    {
      hide RuleFaults, ShortText, Get, Lift, IdErrors, Raised;
      var seen: set<Json> := {};
      RaisedParts([], []);
      for i := 0 to |rules|
        invariant Valid() && seen == SeenIds(rules, i) && log == old(log) + RulesErrors(purpose, rules, i)
        invariant !Raised(RulesErrors(purpose, rules, i))
      {
        var rule := rules[i];
        RulesRaise(purpose, rules, i);
        if !IsObject(rule) {
          Err(InRule(i, InvalidRule));
        } else {
          ReportAll(IdErrors(i, rule, seen));
          if HasId(rule) { seen := seen + {Get(rule, "id")}; }
          threw := CheckRule(purpose, i, rule);
          if threw {
            RulesStayRaised(purpose, rules, i + 1, |rules|);
            return;
          }
        }
      }
      threw := false;
    }
  }

  lemma LeafRaises(purpose: Option<Purpose>, leaf: Json)
    ensures Raises(LeafFaults(purpose, leaf)) <==> !HasText(Get(leaf, "field"))
  {
    hide DescriptorOf, ReadOperator, FieldName, Get, HasText, MemberFaults;
    var value := Get(leaf, "value");
    if value.Arr? { MembersDoNotRaise(purpose, leaf, value.items); }
  }

  lemma {:induction false} ChildrenRaise(purpose: Option<Purpose>, node: Json, items: seq<Json>, depth: nat, count: nat, n: nat)
    requires n <= |items| && forall i :: 0 <= i < |items| ==> items[i] < node
    requires Raises(WalkChildren(purpose, node, items[..n], depth, count).0)
    ensures Raises(WalkChildren(purpose, node, items, depth, count).0)
    decreases |items| - n
  {
    hide WalkFaults;
    if n < |items| {
      assert items[..n + 1][..n] == items[..n];
      ChildrenRaise(purpose, node, items, depth, count, n + 1);
    } else {
      assert items[..n] == items;
    }
  }

  lemma {:induction false} EffectsDoNotRaise(effects: seq<Json>, n: nat)
    requires n <= |effects|
    ensures !Raises(EffectsFaults(effects, n))
  {
    hide EffectFaults;
    if n > 0 { EffectsDoNotRaise(effects, n - 1); }
  }

  lemma OnlyWalkRaises(purpose: Option<Purpose>, rule: Json)
    ensures Raises(RuleFaults(purpose, rule)) <==> Raises(WalkFaults(purpose, Get(rule, "condition"), 1, 0).0)
  {
    hide Get, ShortText, WalkFaults, EffectsFaults;
    var effects := Get(rule, "effects");
    if effects.Arr? { EffectsDoNotRaise(effects.items, |effects.items|); }
  }

  lemma RaisedParts(a: seq<ErrorCode>, b: seq<ErrorCode>)
    ensures Raised(a + b) <==> Raised(a) || Raised(b)
    ensures !Raised([])
  {
    if Raised(a) { var i :| InRule(i, NoText) in a; assert InRule(i, NoText) in a + b; }
    if Raised(b) { var i :| InRule(i, NoText) in b; assert InRule(i, NoText) in a + b; }
  }

  lemma RulesRaise(purpose: Option<Purpose>, rules: seq<Json>, i: nat)
    requires i < |rules|
    ensures Raised(RulesErrors(purpose, rules, i + 1)) <==>
      Raised(RulesErrors(purpose, rules, i)) || (IsObject(rules[i]) && Raises(RuleFaults(purpose, rules[i])))
  {
    hide RuleFaults, Lift, Raised;
    var before, rule := RulesErrors(purpose, rules, i), rules[i];
    if !IsObject(rule) {
      RaisedParts(before, [InRule(i, InvalidRule)]);
      OthersDoNotRaise(i, rule, {});
    } else {
      var ids, lifted := IdErrors(i, rule, SeenIds(rules, i)), Lift(i, RuleFaults(purpose, rule));
      OthersDoNotRaise(i, rule, SeenIds(rules, i));
      RaisedParts(before, ids + lifted);
      RaisedParts(ids, lifted);
      LiftRaises(i, RuleFaults(purpose, rule));
    }
  }

  lemma OthersDoNotRaise(i: nat, rule: Json, seen: set<Json>)
    ensures !Raised([InRule(i, InvalidRule)]) && !Raised(IdErrors(i, rule, seen))
  {
    hide Get, ShortText;
  }

  lemma {:induction false} RulesStayRaised(purpose: Option<Purpose>, rules: seq<Json>, i: nat, n: nat)
    requires i <= n <= |rules| && Raised(RulesErrors(purpose, rules, i))
    ensures Raised(RulesErrors(purpose, rules, n))
  {
    hide RulesErrors, RuleFaults, Raised;
    if i < n {
      RulesStayRaised(purpose, rules, i, n - 1);
      RulesRaise(purpose, rules, n - 1);
    }
  }

  lemma OnlyRulesRaise(def: Json)
    ensures Raised(AllErrors(def)) <==>
      IsObject(def) && Get(def, "rules").Arr? && Raised(RulesErrors(ReadPurpose(Get(def, "purpose")), Rules(def), |Rules(def)|))
  {
    hide PlainText, Get, ReadPurpose, ReadEffectType, RulesErrors, FromInt, UnitLength, Raised;
    HeadersDoNotRaise(def);
    if IsObject(def) && Get(def, "rules").Arr? {
      var many, errors := If(|Rules(def)| > MAX_RULES, TooManyRules), RulesErrors(ReadPurpose(Get(def, "purpose")), Rules(def), |Rules(def)|);
      RaisedParts(HeaderErrors(def) + many, errors);
      RaisedParts(HeaderErrors(def), many);
    }
  }

  lemma HeadersDoNotRaise(def: Json)
    ensures !Raised(HeaderErrors(def)) && !Raised(HeaderErrors(def) + [RulesNotArray]) && !Raised([NotAnObject])
    ensures !Raised(If(|Rules(def)| > MAX_RULES, TooManyRules))
  {
    hide PlainText, Get, ReadPurpose, ReadEffectType, FromInt, UnitLength, Rules;
  }

  /** Validating the rule comes to a textless leaf: one of the first 20 nodes of its condition no deeper than 5. */
  ghost predicate StopsAt(rule: Json) { IsObject(rule) && TextlessAmong(Visits(Get(rule, "condition"), 1), MAX_NODES) }

  ghost predicate Stops(def: Json) { IsObject(def) && exists i :: 0 <= i < |Rules(def)| && StopsAt(Rules(def)[i]) }

  /** Validation ends in an exception if and only if some rule that is an object has, among the first 20
      nodes of its condition no deeper than 5, a leaf whose field name has no text. */
  lemma RaisedIff(def: Json)
    ensures Raised(AllErrors(def)) <==> Stops(def)
  {
    hide AllErrors, Get, ReadPurpose, Raised, WalkFaults, TextlessAmong, Visits, Rules;
    OnlyRulesRaise(def);
    NoRulesWithoutList(def);
    var purpose, rules := ReadPurpose(Get(def, "purpose")), Rules(def);
    if Raised(AllErrors(def)) {
      var i := RaisingRule(purpose, rules, |rules|);
      WalkRaisesIff(purpose, Get(rules[i], "condition"), 1, 0);
    }
    if i :| 0 <= i < |rules| && StopsAt(rules[i]) {
      WalkRaisesIff(purpose, Get(rules[i], "condition"), 1, 0);
      RuleRaises(purpose, rules, i, |rules|);
    }
  }

  lemma {:induction false} RaisingRule(purpose: Option<Purpose>, rules: seq<Json>, n: nat) returns (i: nat)
    requires n <= |rules| && Raised(RulesErrors(purpose, rules, n))
    ensures i < n && IsObject(rules[i]) && Raises(WalkFaults(purpose, Get(rules[i], "condition"), 1, 0).0)
  {
    hide RulesErrors, RuleFaults, WalkFaults, Get, Raised;
    if n == 0 {
      NoRulesDoNotRaise(purpose, rules);
      assert false;
    }
    RulesRaise(purpose, rules, n - 1);
    if Raised(RulesErrors(purpose, rules, n - 1)) {
      i := RaisingRule(purpose, rules, n - 1);
    } else {
      i := n - 1;
      OnlyWalkRaises(purpose, rules[i]);
    }
  }

  lemma NoRulesDoNotRaise(purpose: Option<Purpose>, rules: seq<Json>)
    ensures !Raised(RulesErrors(purpose, rules, 0))
  {
  }

  lemma NoRulesWithoutList(def: Json)
    ensures !IsObject(def) || !Get(def, "rules").Arr? ==> Rules(def) == []
  {
  }

  /** A definition is valid exactly when it is acceptable; the error list is what the checks raise, cut at
      its bound, which never hides a rejection. No result comes back if and only if a leaf is reached whose
      field name has no text. */
  method Validate(def: Json) returns (r: Outcome)
    ensures r.Threw? <==> Stops(def)
    ensures r.Done? && r.result.valid <==> Accepted(def)
    ensures r.Done? ==> r.result.errors == Cap(AllErrors(def)) && |r.result.errors| <= MAX_ERRORS && r.result.ruleCount == |Rules(def)|
  {
    hide Get, Rules, ReadPurpose, HeaderErrors, RulesErrors, Accepted, Raised, Stops;
    RaisedIff(def);
    NoErrorsIffAccepted(def);
    AcceptedDoesNotRaise(def);
    OnlyRulesRaise(def);
    NoRulesWithoutList(def);
    if !IsObject(def) { return Done(Result(false, [NotAnObject], 0)); }
    var run := new Validation();
    run.ReportAll(HeaderErrors(def));
    if !Get(def, "rules").Arr? {
      run.Err(RulesNotArray);
      return Done(Result(false, run.errors, 0));
    }
    run.ReportAll(If(|Rules(def)| > MAX_RULES, TooManyRules));
    var threw := run.CheckRules(ReadPurpose(Get(def, "purpose")), Rules(def));
    if threw { return Threw; }
    r := Done(Result(run.errors == [], run.errors, |Rules(def)|));
  }
}
