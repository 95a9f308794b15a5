/** Exactly when a merged decision depends on nothing but which effects there are. */
module PolicyMergeOrder {
  import opened Optional
  import opened Sorting
  import opened JsonTree
  import opened PolicySchema
  import opened PolicyMerge
  import opened PolicyMergeFacts

  /** The same effects, in any order and any number of times. */
  ghost predicate SameEffects(effects: seq<Json>, effects': seq<Json>) { forall e :: e in effects <==> e in effects' }

  function ReasonOf(e: Json): string { TextOr(Entry(e, "reasonCode"), "") }

  /** Proposals of one action type give one reason. */
  ghost predicate OneReason(effects: seq<Json>) {
    forall e, e', at :: e in effects && e' in effects && Proposes(e, at) && Proposes(e', at) ==> ReasonOf(e) == ReasonOf(e')
  }

  /** Allowances of one intervention type set the same bounds. */
  ghost predicate OneBound(effects: seq<Json>) {
    forall e, e' :: e in effects && e' in effects && Intervenes(e) && Intervenes(e') && InterventionType(e) == InterventionType(e')
      ==> BoundOf(e) == BoundOf(e')
  }

  ghost predicate Unanimous(effects: seq<Json>) { OneReason(effects) && (Manual(effects) || OneBound(effects)) }

  /** Nothing but membership matters to the merge. */
  ghost predicate ForgetsList(collate: Collation, purpose: Purpose, effects: seq<Json>) {
    forall other :: SameEffects(effects, other) ==> Merged(collate, purpose, other) == Merged(collate, purpose, effects)
  }

  /** Duplicates de-duplicate, and order is forgotten, if and only if proposals of one action type share
      their reason and either a human decides anyway or allowances of one intervention type share their bounds. */
  lemma ForgetsListIff(collate: Collation, purpose: Purpose, effects: seq<Json>)
    requires TotalOrder(collate) && EffectsOk(effects)
    ensures ForgetsList(collate, purpose, effects) <==> Unanimous(effects)
  {
    hide Merged, OneReason, OneBound, Manual, EffectsOk, SameEffects;
    if Unanimous(effects) {
      forall other | SameEffects(effects, other) ensures Merged(collate, purpose, other) == Merged(collate, purpose, effects) {
        UnanimousForgets(collate, purpose, effects, other);
      }
    }
    if ForgetsList(collate, purpose, effects) {
      ForgetsOneReason(collate, purpose, effects);
      if !Manual(effects) { ForgetsOneBound(collate, purpose, effects); }
    }
  }

  // ---------------------------------------------------------------- unanimous effects

  lemma UnanimousForgets(collate: Collation, purpose: Purpose, effects: seq<Json>, other: seq<Json>)
    requires TotalOrder(collate) && EffectsOk(effects) && SameEffects(effects, other) && Unanimous(effects)
    ensures Merged(collate, purpose, other) == Merged(collate, purpose, effects)
  {
    hide Merged, OneReason, OneBound, Manual, EffectsOk;
    MergeForgetsOrder(collate, purpose, effects, other);
    SameActions(collate, purpose, effects, other);
    SameManual(effects, other);
    if Manual(effects) {
      BoundsListed(collate, purpose, effects, "");
      BoundsListed(collate, purpose, other, "");
    } else {
      SameBounds(collate, purpose, effects, other);
    }
  }

  ghost predicate LastProposal(effects: seq<Json>, at: string, k: int) {
    0 <= k < |effects| && Proposes(effects[k], at) && forall j :: k < j < |effects| ==> !Proposes(effects[j], at)
  }

  /** Valid proposals all give a reason, so the last one gives the reason. */
  lemma ReasonOfLast(effects: seq<Json>, at: string, reason: string) returns (k: nat)
    requires EffectsOk(effects) && Proposed(effects, at) && ReasonSaid(reason, effects, at)
    ensures LastProposal(effects, at, k) && reason == ReasonOf(effects[k])
  {
    hide EffectOk, Proposes, Entry, ToText;
    forall i | 0 <= i < |effects| ensures Reasons(effects[i], at) <==> Proposes(effects[i], at) {
      assert effects[i] in effects;
      ValidReasons(effects[i], at);
    }
    var i :| 0 <= i < |effects| && Proposes(effects[i], at);
    assert Reasons(effects[i], at);
    k :| LastReasoned(effects, at, k) && reason == ToText(Entry(effects[k], "reasonCode"));
  }

  lemma ValidReasons(e: Json, at: string)
    requires EffectOk(e)
    ensures Reasons(e, at) <==> Proposes(e, at)
  {
    hide EffectOk, Proposes, Entry;
    if Proposes(e, at) { ReasonIsText(e, at); }
  }

  /** The reason listed for an action is that of some effect proposing it. */
  lemma ReasonListed(collate: Collation, purpose: Purpose, effects: seq<Json>, i: nat) returns (k: nat)
    requires TotalPreorder(collate) && EffectsOk(effects)
    requires i < |Merged(collate, purpose, effects).proposedActions|
    ensures var a := Merged(collate, purpose, effects).proposedActions[i];
      LastProposal(effects, a.actionType, k) && a.reasonCode == ReasonOf(effects[k])
  {
    hide Merged, Proposed, EffectsOk, NeedsApproval, ReasonSaid, LastProposal, ReasonOf;
    var l := Merged(collate, purpose, effects).proposedActions;
    var at := l[i].actionType;
    ActionsListed(collate, purpose, effects, at);
    assert KeysOf(ActionKey, l)[i] == at && at in KeysOf(ActionKey, l);
    LookupMember(ActionKey, l, l[i]);
    k := ReasonOfLast(effects, at, l[i].reasonCode);
  }

  lemma ReasonIsText(e: Json, at: string)
    requires EffectOk(e) && Proposes(e, at)
    ensures Entry(e, "reasonCode").Str?
  {
    hide ReadEffectType, Get, OwnKeys, PayloadOf, ActionType;
  }

  lemma SameActions(collate: Collation, purpose: Purpose, effects: seq<Json>, other: seq<Json>)
    requires TotalOrder(collate) && EffectsOk(effects) && SameEffects(effects, other) && OneReason(effects)
    ensures Merged(collate, purpose, other).proposedActions == Merged(collate, purpose, effects).proposedActions
  {
    hide Merged, EffectOk, ReasonOf, Proposes;
    var l, l' := Merged(collate, purpose, effects).proposedActions, Merged(collate, purpose, other).proposedActions;
    SameAsks(collate, purpose, effects, other);
    OkTransfers(effects, other);
    assert |Asks(l)| == |l| && |Asks(l')| == |l'|;
    forall i | 0 <= i < |l| ensures l[i] == l'[i] {
      assert Asks(l)[i] == Asks(l')[i];
      var k := ReasonListed(collate, purpose, effects, i);
      var k' := ReasonListed(collate, purpose, other, i);
      assert effects[k] in effects && other[k'] in effects;
    }
  }

  lemma SameBounds(collate: Collation, purpose: Purpose, effects: seq<Json>, other: seq<Json>)
    requires TotalOrder(collate) && SameEffects(effects, other) && OneBound(effects) && !Manual(effects)
    ensures Merged(collate, purpose, other).automaticInterventionBounds == Merged(collate, purpose, effects).automaticInterventionBounds
  {
    hide Merged, Manual, Intervenes, InterventionType, BoundOf;
    var l, l' := Merged(collate, purpose, effects).automaticInterventionBounds, Merged(collate, purpose, other).automaticInterventionBounds;
    SameBoundKeys(collate, purpose, effects, other);
    SameManual(effects, other);
    assert |KeysOf(BoundKey, l)| == |l| && |KeysOf(BoundKey, l')| == |l'|;
    forall i | 0 <= i < |l| ensures l[i] == l'[i] {
      assert KeysOf(BoundKey, l)[i] == KeysOf(BoundKey, l')[i];
      var k := BoundListed(collate, purpose, effects, i);
      var k' := BoundListed(collate, purpose, other, i);
      assert effects[k] in effects && other[k'] in effects;
    }
  }

  /** The bounds listed for an intervention are those of an effect allowing it. */
  lemma BoundListed(collate: Collation, purpose: Purpose, effects: seq<Json>, i: nat) returns (k: nat)
    requires TotalPreorder(collate) && !Manual(effects)
    requires i < |Merged(collate, purpose, effects).automaticInterventionBounds|
    ensures var b := Merged(collate, purpose, effects).automaticInterventionBounds[i];
      LastIntervention(effects, BoundKey(b), k) && b == BoundOf(effects[k])
  {
    hide Merged, Manual, BoundOf;
    var l := Merged(collate, purpose, effects).automaticInterventionBounds;
    var it := BoundKey(l[i]);
    assert KeysOf(BoundKey, l)[i] == it && it in KeysOf(BoundKey, l);
    BoundsListed(collate, purpose, effects, it);
    LookupMember(BoundKey, l, l[i]);
    k :| LastIntervention(effects, it, k);
  }

  // ---------------------------------------------------------------- and only those

  /** Repeating an effect at the end changes nothing about which effects there are, but makes it the last of its type. */
  lemma RepeatedLast(effects: seq<Json>, e: Json)
    requires e in effects
    ensures SameEffects(effects, effects + [e])
    ensures forall at, k :: Proposes(e, at) && LastProposal(effects + [e], at, k) ==> (effects + [e])[k] == e
    ensures forall it :: Intervenes(e) && InterventionType(e) == it ==> LastIntervention(effects + [e], it, |effects|)
  {
    hide Proposes, Intervenes, InterventionType;
    var u := effects + [e];
    assert u[|effects|] == e;
  }

  /** The reason of the proposal repeated at the end is the one listed. */
  lemma LastReason(collate: Collation, purpose: Purpose, effects: seq<Json>, e: Json, at: string)
    requires TotalPreorder(collate) && EffectsOk(effects) && e in effects && Proposes(e, at)
    ensures var l := Merged(collate, purpose, effects + [e]).proposedActions;
      Lookup(ActionKey, l, at).Some? && Lookup(ActionKey, l, at).value.reasonCode == ReasonOf(e)
  {
    hide Merged, EffectOk, NeedsApproval, Proposes, ReasonSaid, ReasonOf;
    var u := effects + [e];
    RepeatedLast(effects, e);
    ActionsListed(collate, purpose, u, at);
    assert u[|effects|] == e;
    var l := Merged(collate, purpose, u).proposedActions;
    LookupFinds(ActionKey, l, at);
    var k := ReasonOfLast(u, at, Lookup(ActionKey, l, at).value.reasonCode);
  }

  lemma ForgetsOneReason(collate: Collation, purpose: Purpose, effects: seq<Json>)
    requires TotalPreorder(collate) && EffectsOk(effects) && ForgetsList(collate, purpose, effects)
    ensures OneReason(effects)
  {
    hide Merged, EffectsOk, ReasonOf, Proposes, SameEffects;
    forall e, e', at | e in effects && e' in effects && Proposes(e, at) && Proposes(e', at) ensures ReasonOf(e) == ReasonOf(e') {
      RepeatedLast(effects, e);
      RepeatedLast(effects, e');
      LastReason(collate, purpose, effects, e, at);
      LastReason(collate, purpose, effects, e', at);
    }
  }

  lemma LastBound(collate: Collation, purpose: Purpose, effects: seq<Json>, e: Json)
    requires TotalPreorder(collate) && e in effects && Intervenes(e) && !Manual(effects)
    ensures Lookup(BoundKey, Merged(collate, purpose, effects + [e]).automaticInterventionBounds, InterventionType(e)) == Some(BoundOf(e))
  {
    hide Merged, Manual, LastIntervention, Intervenes, InterventionType, BoundOf;
    RepeatedLast(effects, e);
    SameManual(effects, effects + [e]);
    BoundsListed(collate, purpose, effects + [e], InterventionType(e));
    assert (effects + [e])[|effects|] == e;
  }

  lemma ForgetsOneBound(collate: Collation, purpose: Purpose, effects: seq<Json>)
    requires TotalPreorder(collate) && !Manual(effects) && ForgetsList(collate, purpose, effects)
    ensures OneBound(effects)
  {
    hide Merged, Manual, Intervenes, InterventionType, BoundOf, SameEffects;
    forall e, e' | e in effects && e' in effects && Intervenes(e) && Intervenes(e') && InterventionType(e) == InterventionType(e')
      ensures BoundOf(e) == BoundOf(e')
    {
      RepeatedLast(effects, e);
      RepeatedLast(effects, e');
      LastBound(collate, purpose, effects, e);
      LastBound(collate, purpose, effects, e');
    }
  }

  // ---------------------------------------------------------------- a duplicate that shows

  /** A proposal of one action type for the given reason. */
  function Blocking(reason: string): Json {
    Obj([Field("type", Str("PROPOSE_PROTECTION_ACTION")), Field("payload", Obj(BlockingPayload(reason)))])
  }

  lemma BlockingReads(reason: string)
    ensures IsObject(Blocking(reason)) && ReadEffectType(Get(Blocking(reason), "type")) == Some(ProposeProtectionAction)
    ensures var p := PayloadOf(Blocking(reason));
      && p.Obj? && Keys(p.fields) == ["actionType", "reasonCode", "requiresApproval"]
      && Get(p, "actionType") == Str("recommend_blocking") && Get(p, "reasonCode") == Str(reason) && Get(p, "requiresApproval") == Bool(true)
  {
    hide ReadEffectType, Keys, Find, BlockingPayload;
    ProposalReads();
    FindTwo(Field("type", Str("PROPOSE_PROTECTION_ACTION")), Field("payload", Obj(BlockingPayload(reason))));
    PayloadReads(reason);
  }

  lemma FindTwo(f: Field, g: Field)
    requires f.key != g.key
    ensures Find([f, g], f.key) == f.val && Find([f, g], g.key) == g.val
  {
    assert [f, g][1..] == [g];
  }

  function BlockingPayload(reason: string): seq<Field> {
    [Field("actionType", Str("recommend_blocking")), Field("reasonCode", Str(reason)), Field("requiresApproval", Bool(true))]
  }

  lemma PayloadReads(reason: string)
    ensures var p := Obj(BlockingPayload(reason));
      && Keys(p.fields) == ["actionType", "reasonCode", "requiresApproval"]
      && Get(p, "actionType") == Str("recommend_blocking") && Get(p, "reasonCode") == Str(reason) && Get(p, "requiresApproval") == Bool(true)
  {
    var p := BlockingPayload(reason);
    assert p[1..][0] == p[1] && p[1..][1..][0] == p[2];
  }

  lemma ProposalReads()
    ensures ReadEffectType(Str("PROPOSE_PROTECTION_ACTION")) == Some(ProposeProtectionAction)
  {
  }

  lemma BlockingOk(reason: string)
    requires ShortText(Str(reason), MAX_CODE)
    ensures EffectOk(Blocking(reason)) && Proposes(Blocking(reason), "recommend_blocking") && ReasonOf(Blocking(reason)) == reason
  {
    BlockingReads(reason);
    hide Blocking, Get, PayloadOf, ReadEffectType;
    assert PROTECTION_ACTION_TYPES[5] == "recommend_blocking";
    assert OwnKeys(PayloadOf(Blocking(reason))) == ["actionType", "reasonCode", "requiresApproval"];
  }

  /** Two valid proposals for different reasons: repeating the first one after the second changes the decision. */
  lemma DuplicateShows(collate: Collation, purpose: Purpose, reason: string, reason': string)
    requires TotalPreorder(collate) && ShortText(Str(reason), MAX_CODE) && ShortText(Str(reason'), MAX_CODE) && reason != reason'
    ensures var a, a' := Blocking(reason), Blocking(reason');
      EffectsOk([a, a']) && Merged(collate, purpose, [a, a', a]) != Merged(collate, purpose, [a, a'])
  {
    hide Blocking, EffectOk, Merged, Proposes, ReasonOf, ShortText, Lookup;
    var a, a' := Blocking(reason), Blocking(reason');
    BlockingOk(reason);
    BlockingOk(reason');
    var effects := [a, a'];
    LastReason(collate, purpose, effects, a, "recommend_blocking");
    LastReason(collate, purpose, effects, a', "recommend_blocking");
    assert effects + [a] == [a, a', a];
    EndsAlike(collate, purpose, a, a', reason');
  }

  /** The reason listed for two proposals is the second one's. */
  lemma EndsAlike(collate: Collation, purpose: Purpose, a: Json, a': Json, reason': string)
    requires TotalPreorder(collate) && EffectOk(a) && EffectOk(a') && ReasonOf(a') == reason'
    requires Proposes(a, "recommend_blocking") && Proposes(a', "recommend_blocking")
    ensures var l := Merged(collate, purpose, [a, a']).proposedActions;
      Lookup(ActionKey, l, "recommend_blocking").Some? && Lookup(ActionKey, l, "recommend_blocking").value.reasonCode == reason'
  {
    hide EffectOk, Merged, Proposes, NeedsApproval, ReasonSaid, ReasonOf;
    var at, u := "recommend_blocking", [a, a'];
    ActionsListed(collate, purpose, u, at);
    assert u[1] == a';
    var l := Merged(collate, purpose, u).proposedActions;
    LookupFinds(ActionKey, l, at);
    var k := ReasonOfLast(u, at, Lookup(ActionKey, l, at).value.reasonCode);
    assert k == 1;
  }
}
