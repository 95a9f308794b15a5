/** What merging promises: maxima, one entry per action with the safer approval, and independence
    from where an effect stands in the list. */
module PolicyMergeFacts {
  import opened Optional
  import opened Sorting
  import opened Strings
  import opened JsonTree
  import opened PolicySchema
  import opened PolicyMerge

  ghost predicate EffectsOk(effects: seq<Json>) { forall e :: e in effects ==> EffectOk(e) }

  // ---------------------------------------------------------------- the highest recommendation

  predicate Recommends(effect: Json, t: EffectType, key: string, s: string) {
    Is(effect, t) && Entry(effect, key) == Str(s)
  }

  /** What effects of type t recommend under `key` is in the ordered set. */
  ghost predicate Ranked(effects: seq<Json>, t: EffectType, key: string, order: seq<string>) {
    && (forall s :: s in order ==> s !in INHERITED_NAMES)
    && forall i, s :: 0 <= i < |effects| && Recommends(effects[i], t, key, s) ==> s in order
  }

  ghost predicate Recommended(effects: seq<Json>, t: EffectType, key: string, s: string) {
    exists i :: 0 <= i < |effects| && Recommends(effects[i], t, key, s)
  }

  /** v is the greatest value recommended; None means nothing is recommended. */
  ghost predicate IsGreatest(v: Option<string>, effects: seq<Json>, t: EffectType, key: string, order: seq<string>) {
    && (v.Some? ==> Recommended(effects, t, key, v.value))
    && forall s :: Recommended(effects, t, key, s) ==> v.Some? && Rank(s, order) <= Rank(v.value, order)
  }

  lemma RecommendedStep(effects: seq<Json>, e: Json, t: EffectType, key: string, s: string)
    ensures Recommended(effects + [e], t, key, s) <==> Recommended(effects, t, key, s) || Recommends(e, t, key, s)
  {
    hide Recommends;
    var u := effects + [e];
    if Recommended(effects, t, key, s) { var i :| 0 <= i < |effects| && Recommends(effects[i], t, key, s); assert Recommends(u[i], t, key, s); }
    if Recommends(e, t, key, s) { assert Recommends(u[|effects|], t, key, s); }
  }

  lemma {:induction false} HighestIsGreatest(effects: seq<Json>, t: EffectType, key: string, order: seq<string>)
    requires Ranked(effects, t, key, order)
    ensures IsGreatest(Highest(effects, t, key, order), effects, t, key, order)
  {
    hide Recommended, Rank;
    if effects == [] {
      forall s ensures !Recommended(effects, t, key, s) { NothingRecommended(t, key, s); }
    } else {
      var n := |effects| - 1;
      var init, e := effects[..n], effects[n];
      assert effects == init + [e];
      assert forall i :: 0 <= i < n ==> init[i] == effects[i];
      HighestIsGreatest(init, t, key, order);
      forall s ensures Recommended(effects, t, key, s) <==> Recommended(init, t, key, s) || Recommends(e, t, key, s) {
        RecommendedStep(init, e, t, key, s);
      }
      BetterIsGreatest(init, e, effects, t, key, order);
    }
  }

  lemma NothingRecommended(t: EffectType, key: string, s: string)
    ensures !Recommended([], t, key, s)
  {
  }

  lemma BetterIsGreatest(init: seq<Json>, e: Json, effects: seq<Json>, t: EffectType, key: string, order: seq<string>)
    requires effects == init + [e] && Ranked(effects, t, key, order)
    requires IsGreatest(Highest(init, t, key, order), init, t, key, order)
    requires forall s :: Recommended(effects, t, key, s) <==> Recommended(init, t, key, s) || Recommends(e, t, key, s)
    ensures IsGreatest(Highest(effects, t, key, order), effects, t, key, order)
  {
    hide Rank, TypeOf, Entry;
    HighestStep(init, e, t, key, order);
    var best := Highest(init, t, key, order);
    hide Highest;
    if best.Some? { RankedMember(effects, t, key, order, best.value); }
    if Is(e, t) && Entry(e, key).Str? {
      var s := Entry(e, key).s;
      assert Recommends(effects[|init|], t, key, s);
    }
  }

  lemma RankedMember(effects: seq<Json>, t: EffectType, key: string, order: seq<string>, s: string)
    requires Ranked(effects, t, key, order) && Recommended(effects, t, key, s)
    ensures s in order && s !in INHERITED_NAMES
  {
  }

  lemma {:induction false} RankPlaces(s: string, order: seq<string>)
    ensures s in order ==> 0 <= Rank(s, order) < |order| && order[Rank(s, order)] == s
  {
    if order != [] && order[0] != s { RankPlaces(s, order[1..]); }
  }

  /** The greatest value does not depend on the order of the effects. */
  lemma GreatestUnique(v: Option<string>, w: Option<string>, effects: seq<Json>, effects': seq<Json>, t: EffectType, key: string, order: seq<string>)
    requires forall e :: e in effects <==> e in effects'
    requires Ranked(effects, t, key, order)
    requires IsGreatest(v, effects, t, key, order) && IsGreatest(w, effects', t, key, order)
    ensures v == w
  {
    hide Rank, Recommended;
    forall s ensures Recommended(effects, t, key, s) <==> Recommended(effects', t, key, s) { SameRecommended(effects, effects', t, key, s); }
    if v.Some? {
      RankedMember(effects, t, key, order, v.value);
      RankedMember(effects, t, key, order, w.value);
      RankPlaces(v.value, order);
      RankPlaces(w.value, order);
    }
  }

  lemma SameRecommended(effects: seq<Json>, effects': seq<Json>, t: EffectType, key: string, s: string)
    requires forall e :: e in effects <==> e in effects'
    ensures Recommended(effects, t, key, s) <==> Recommended(effects', t, key, s)
  {
    hide Recommends;
    if Recommended(effects, t, key, s) { var i :| 0 <= i < |effects| && Recommends(effects[i], t, key, s); assert effects[i] in effects'; }
    if Recommended(effects', t, key, s) { var i :| 0 <= i < |effects'| && Recommends(effects'[i], t, key, s); assert effects'[i] in effects; }
  }

  lemma SameHas(effects: seq<Json>, effects': seq<Json>, t: EffectType)
    requires forall e :: e in effects <==> e in effects'
    ensures Has(effects, t) <==> Has(effects', t)
  {
    hide Is;
    if Has(effects, t) { var i :| 0 <= i < |effects| && Is(effects[i], t); assert effects[i] in effects'; }
    if Has(effects', t) { var i :| 0 <= i < |effects'| && Is(effects'[i], t); assert effects'[i] in effects; }
  }

  // ---------------------------------------------------------------- proposed actions

  lemma {:induction false} PutKeys<T>(key: T -> string, list: seq<T>, x: T)
    ensures KeysOf(key, Put(key, list, x)) == if key(x) in KeysOf(key, list) then KeysOf(key, list) else KeysOf(key, list) + [key(x)]
  {
    if list != [] {
      var ks := KeysOf(key, list);
      assert ks == [key(list[0])] + KeysOf(key, list[1..]);
      if key(list[0]) == key(x) {
        assert KeysOf(key, [x] + list[1..]) == ks;
      } else {
        PutKeys(key, list[1..], x);
        var rest := Put(key, list[1..], x);
        assert KeysOf(key, [list[0]] + rest) == [key(list[0])] + KeysOf(key, rest);
      }
    }
  }

  lemma {:induction false} PutLookup<T>(key: T -> string, list: seq<T>, x: T, k: string)
    ensures Lookup(key, Put(key, list, x), k) == if k == key(x) then Some(x) else Lookup(key, list, k)
  {
    if list != [] {
      if key(list[0]) == key(x) {
        assert ([x] + list[1..])[1..] == list[1..];
      } else {
        PutLookup(key, list[1..], x, k);
        var rest := Put(key, list[1..], x);
        assert ([list[0]] + rest)[1..] == rest;
      }
    }
  }

  lemma {:induction false} LookupMember<T>(key: T -> string, list: seq<T>, x: T)
    requires Distinct(KeysOf(key, list)) && x in list
    ensures Lookup(key, list, key(x)) == Some(x)
  {
    var ks := KeysOf(key, list);
    assert ks == [key(list[0])] + KeysOf(key, list[1..]);
    if x != list[0] {
      var i :| 1 <= i < |list| && list[i] == x;
      assert ks[i] != ks[0];
      assert list[1..][i - 1] == x;
      assert ks[1..] == KeysOf(key, list[1..]);
      LookupMember(key, list[1..], x);
    }
  }

  lemma {:induction false} LookupFinds<T>(key: T -> string, list: seq<T>, k: string)
    ensures Lookup(key, list, k).Some? <==> k in KeysOf(key, list)
    ensures Lookup(key, list, k).Some? ==> Lookup(key, list, k).value in list && key(Lookup(key, list, k).value) == k
  {
    if list != [] {
      assert KeysOf(key, list) == [key(list[0])] + KeysOf(key, list[1..]);
      LookupFinds(key, list[1..], k);
    }
  }

  /** Sorting by key keeps the keys distinct and what each key leads to. */
  lemma SortedByKey<T(!new)>(collate: Collation, key: T -> string, list: seq<T>)
    requires TotalPreorder(collate) && Distinct(KeysOf(key, list))
    ensures var s := Sort(KeyOrder(collate, key), list);
      Sorted(collate, KeysOf(key, s)) && Distinct(KeysOf(key, s)) && forall k :: Lookup(key, s, k) == Lookup(key, list, k)
  {
    var s := Sort(KeyOrder(collate, key), list);
    SortPermutes(KeyOrder(collate, key), list);
    KeyOrderTotal(collate, key);
    SortSorts(KeyOrder(collate, key), list);
    forall i, j | 0 <= i < j < |list| ensures list[i] != list[j] { assert KeysOf(key, list)[i] != KeysOf(key, list)[j]; }
    DistinctFromMultiset(list, s);
    forall i, j | 0 <= i < j < |s| ensures KeysOf(key, s)[i] != KeysOf(key, s)[j] {
      assert s[i] in list && s[j] in list;
      LookupMember(key, list, s[i]);
      LookupMember(key, list, s[j]);
    }
    forall k ensures Lookup(key, s, k) == Lookup(key, list, k) {
      LookupFinds(key, s, k);
      LookupFinds(key, list, k);
      if Lookup(key, s, k).Some? {
        LookupMember(key, list, Lookup(key, s, k).value);
      } else if Lookup(key, list, k).Some? {
        LookupMember(key, s, Lookup(key, list, k).value);
      }
    }
  }

  lemma KeyOrderTotal<T(!new)>(collate: Collation, key: T -> string)
    requires TotalPreorder(collate)
    ensures TotalPreorder(KeyOrder(collate, key))
  {
  }

  lemma {:induction false} ActionsDistinct(effects: seq<Json>)
    ensures Distinct(KeysOf(ActionKey, Actions(effects)))
  {
    hide Is, ActionType, Proposal;
    if effects != [] {
      var n := |effects| - 1;
      ActionsDistinct(effects[..n]);
      var a := Proposal(Lookup(ActionKey, Actions(effects[..n]), ActionType(effects[n])), effects[n]);
      PutKeys(ActionKey, Actions(effects[..n]), a);
    }
  }

  /** a is what the effects say about actions of type `at`: some effect proposes it, approval is needed
      if any of them asks for it, and the last of them that gives a reason gives the reason. */
  ghost predicate SaysOf(a: ProposedAction, effects: seq<Json>, at: string) {
    a.actionType == at && (a.requiresApproval <==> NeedsApproval(effects, at)) && ReasonSaid(a.reasonCode, effects, at)
  }

  /** A proposal of this type that gives a reason. */
  predicate Reasons(e: Json, at: string) {
    Proposes(e, at) && !Entry(e, "reasonCode").Undefined? && !Entry(e, "reasonCode").Null?
  }

  ghost predicate LastReasoned(effects: seq<Json>, at: string, k: int) {
    0 <= k < |effects| && Reasons(effects[k], at) && forall j :: k < j < |effects| ==> !Reasons(effects[j], at)
  }

  /** The reason is that of the last proposal giving one, and empty if none does. */
  ghost predicate ReasonSaid(reason: string, effects: seq<Json>, at: string) {
    if exists i :: 0 <= i < |effects| && Reasons(effects[i], at)
    then exists k :: LastReasoned(effects, at, k) && reason == ToText(Entry(effects[k], "reasonCode"))
    else reason == ""
  }

  lemma ReasonKept(init: seq<Json>, e: Json, at: string, reason: string)
    requires ReasonSaid(reason, init, at) && !Reasons(e, at)
    ensures ReasonSaid(reason, init + [e], at)
  {
    hide Reasons, Entry, ToText;
    var s := init + [e];
    if i :| 0 <= i < |s| && Reasons(s[i], at) {
      assert Reasons(init[i], at);
      var k :| LastReasoned(init, at, k) && reason == ToText(Entry(init[k], "reasonCode"));
      assert LastReasoned(s, at, k) && s[k] == init[k];
    } else {
      forall i | 0 <= i < |init| ensures !Reasons(init[i], at) { assert s[i] == init[i]; }
    }
  }

  lemma ReasonReplaced(init: seq<Json>, e: Json, at: string)
    requires Reasons(e, at)
    ensures ReasonSaid(ToText(Entry(e, "reasonCode")), init + [e], at)
  {
    hide Reasons, Entry, ToText;
    var s := init + [e];
    assert s[|init|] == e && Reasons(s[|init|], at) && LastReasoned(s, at, |init|);
  }

  predicate Proposed(effects: seq<Json>, at: string) { exists i :: 0 <= i < |effects| && Proposes(effects[i], at) }

  lemma {:induction false} ActionPerType(effects: seq<Json>, at: string)
    ensures Lookup(ActionKey, Actions(effects), at).Some? <==> Proposed(effects, at)
    ensures Proposed(effects, at) ==> SaysOf(Lookup(ActionKey, Actions(effects), at).value, effects, at)
  {
    hide Is, ActionType, Approves, Entry, TextOr, SaysOf;
    if effects != [] {
      var n := |effects| - 1;
      var init, e := effects[..n], effects[n];
      assert forall i :: 0 <= i < n ==> init[i] == effects[i];
      ActionPerType(init, at);
      if Proposes(e, at) {
        ProposalSays(effects, at);
      } else {
        KeepsEarlier(effects, at);
      }
    }
  }

  lemma ProposalSays(effects: seq<Json>, at: string)
    requires effects != [] && Proposes(effects[|effects| - 1], at)
    requires var init := effects[..|effects| - 1];
      && (Lookup(ActionKey, Actions(init), at).Some? <==> Proposed(init, at))
      && (Proposed(init, at) ==> SaysOf(Lookup(ActionKey, Actions(init), at).value, init, at))
    ensures Lookup(ActionKey, Actions(effects), at).Some? && Proposed(effects, at)
    ensures SaysOf(Lookup(ActionKey, Actions(effects), at).value, effects, at)
  {
    hide Is, ActionType, Approves, Entry, Proposes, ReasonSaid, ToText;
    var n := |effects| - 1;
    var init, e := effects[..n], effects[n];
    assert effects == init + [e];
    var existing := Lookup(ActionKey, Actions(init), at);
    ProposalNeedsType(e, at);
    PutLookup(ActionKey, Actions(init), Proposal(existing, e), at);
    ApprovalStep(init, e, at);
    NothingSaid(init, at);
    if Reasons(e, at) { ReasonReplaced(init, e, at); } else { ReasonKept(init, e, at, if existing.Some? then existing.value.reasonCode else ""); }
  }

  lemma NothingSaid(effects: seq<Json>, at: string)
    ensures !Proposed(effects, at) ==> ReasonSaid("", effects, at)
  {
    hide Proposes, Entry;
  }

  /** Some proposal of this type asks for approval. */
  ghost predicate NeedsApproval(effects: seq<Json>, at: string) {
    exists i :: 0 <= i < |effects| && Proposes(effects[i], at) && Approves(effects[i])
  }

  lemma ApprovalStep(init: seq<Json>, e: Json, at: string)
    ensures NeedsApproval(init + [e], at) <==> NeedsApproval(init, at) || (Proposes(e, at) && Approves(e))
    ensures NeedsApproval(init, at) ==> Proposed(init, at)
  {
    hide Proposes, Approves;
    var s := init + [e];
    if NeedsApproval(init, at) { var i :| 0 <= i < |init| && Proposes(init[i], at) && Approves(init[i]); assert Proposes(s[i], at) && Approves(s[i]); }
    if Proposes(e, at) && Approves(e) { assert Proposes(s[|init|], at) && Approves(s[|init|]); }
  }

  lemma ProposalNeedsType(e: Json, at: string)
    requires Proposes(e, at)
    ensures Is(e, ProposeProtectionAction) && ActionType(e) == at && at != ""
  {
  }

  lemma KeepsEarlier(effects: seq<Json>, at: string)
    requires effects != [] && !Proposes(effects[|effects| - 1], at)
    requires var init := effects[..|effects| - 1];
      && (Lookup(ActionKey, Actions(init), at).Some? <==> Proposed(init, at))
      && (Proposed(init, at) ==> SaysOf(Lookup(ActionKey, Actions(init), at).value, init, at))
    ensures Lookup(ActionKey, Actions(effects), at).Some? <==> Proposed(effects, at)
    ensures Proposed(effects, at) ==> SaysOf(Lookup(ActionKey, Actions(effects), at).value, effects, at)
  {
    hide Is, ActionType, Approves, Entry, TextOr, NeedsApproval, ReasonSaid;
    var n := |effects| - 1;
    var init, e := effects[..n], effects[n];
    assert effects == init + [e];
    PutLookup(ActionKey, Actions(init), Proposal(Lookup(ActionKey, Actions(init), ActionType(e)), e), at);
    ApprovalStep(init, e, at);
    if Proposed(effects, at) {
      var i :| 0 <= i < |effects| && Proposes(effects[i], at);
      assert Proposes(init[i], at);
      ReasonKept(init, e, at, Lookup(ActionKey, Actions(init), at).value.reasonCode);
    }
    if Proposed(init, at) { var i :| 0 <= i < n && Proposes(init[i], at); assert Proposes(effects[i], at); }
  }

  /** The proposed actions of a decision: in collation order, one entry per type that some effect
      proposes, each saying what the effects say of its type. */
  lemma ActionsListed(collate: Collation, purpose: Purpose, effects: seq<Json>, at: string)
    requires TotalPreorder(collate)
    ensures var list := Merged(collate, purpose, effects).proposedActions;
      && Sorted(collate, KeysOf(ActionKey, list)) && Distinct(KeysOf(ActionKey, list))
      && (at in KeysOf(ActionKey, list) <==> Proposed(effects, at))
      && (Lookup(ActionKey, list, at).Some? ==> SaysOf(Lookup(ActionKey, list, at).value, effects, at))
  {
    hide Proposed, SaysOf, Highest, Has;
    ActionsDistinct(effects);
    SortedByKey(collate, ActionKey, Actions(effects));
    ActionPerType(effects, at);
    LookupFinds(ActionKey, Merged(collate, purpose, effects).proposedActions, at);
  }

  // ---------------------------------------------------------------- automatic interventions

  ghost predicate LastIntervention(effects: seq<Json>, it: string, k: int) {
    0 <= k < |effects| && Intervenes(effects[k]) && InterventionType(effects[k]) == it
    && forall j :: k < j < |effects| && Intervenes(effects[j]) ==> InterventionType(effects[j]) != it
  }

  lemma {:induction false} BoundsDistinct(effects: seq<Json>)
    ensures Distinct(KeysOf(BoundKey, Bounds(effects)))
  {
    hide Intervenes, BoundOf;
    if effects != [] {
      var n := |effects| - 1;
      BoundsDistinct(effects[..n]);
      PutKeys(BoundKey, Bounds(effects[..n]), BoundOf(effects[n]));
    }
  }

  /** Per intervention type, the bounds are those of the last effect that allows it. */
  lemma {:induction false} BoundPerType(effects: seq<Json>, it: string)
    ensures Lookup(BoundKey, Bounds(effects), it).Some? ==>
      exists k :: LastIntervention(effects, it, k) && Lookup(BoundKey, Bounds(effects), it) == Some(BoundOf(effects[k]))
    ensures Lookup(BoundKey, Bounds(effects), it).None? ==>
      forall i :: 0 <= i < |effects| && Intervenes(effects[i]) ==> InterventionType(effects[i]) != it
  {
    hide Intervenes, InterventionType, BoundOf;
    if effects != [] {
      var n := |effects| - 1;
      var init, e := effects[..n], effects[n];
      assert forall i :: 0 <= i < n ==> init[i] == effects[i];
      BoundPerType(init, it);
      PutLookup(BoundKey, Bounds(init), BoundOf(e), it);
      BoundOfType(e);
      if Intervenes(e) && InterventionType(e) == it {
        assert LastIntervention(effects, it, n);
      } else if Lookup(BoundKey, Bounds(init), it).Some? {
        var k :| LastIntervention(init, it, k) && Lookup(BoundKey, Bounds(init), it) == Some(BoundOf(init[k]));
        assert LastIntervention(effects, it, k);
      }
    }
  }

  lemma BoundOfType(e: Json)
    ensures BoundKey(BoundOf(e)) == InterventionType(e)
  {
    hide InterventionType;
  }

  /** The bounds of a decision: none when a human must decide; otherwise in collation order, one per
      intervention type some effect allows, taken from the last effect that allows it. */
  lemma BoundsListed(collate: Collation, purpose: Purpose, effects: seq<Json>, it: string)
    requires TotalPreorder(collate)
    ensures var d := Merged(collate, purpose, effects);
      && Sorted(collate, KeysOf(BoundKey, d.automaticInterventionBounds)) && Distinct(KeysOf(BoundKey, d.automaticInterventionBounds))
      && (Manual(effects) ==> d.automaticInterventionBounds == [] && !d.allowAutomaticIntervention)
      && (!Manual(effects) ==>
            && (it in KeysOf(BoundKey, d.automaticInterventionBounds) <==> exists k :: LastIntervention(effects, it, k))
            && forall k :: LastIntervention(effects, it, k) ==> Lookup(BoundKey, d.automaticInterventionBounds, it) == Some(BoundOf(effects[k])))
  {
    hide Highest, Has, Intervenes, InterventionType, BoundOf, Sort, Lookup;
    BoundsDistinct(effects);
    SortedByKey(collate, BoundKey, Bounds(effects));
    BoundPerType(effects, it);
    LookupFinds(BoundKey, Merged(collate, purpose, effects).automaticInterventionBounds, it);
  }

  // ---------------------------------------------------------------- order of the effects

  lemma LevelsAreNotInherited(s: string)
    requires s in SEVERITIES || s in URGENCIES || s in ESCALATION_LEVELS
    ensures s !in INHERITED_NAMES
  {
  }

  /** Valid payloads recommend only ranked values. */
  lemma ValidEffectsRanked(effects: seq<Json>)
    requires EffectsOk(effects)
    ensures Ranked(effects, SetRecommendedSeverity, "severity", SEVERITIES)
    ensures Ranked(effects, SetRecommendedUrgency, "urgency", URGENCIES)
    ensures Ranked(effects, SetEscalationLevel, "level", ESCALATION_LEVELS)
  {
    hide Recommends, EffectOk;
    forall s | s in SEVERITIES || s in URGENCIES || s in ESCALATION_LEVELS ensures s !in INHERITED_NAMES { LevelsAreNotInherited(s); }
    forall i, s | 0 <= i < |effects|
      ensures Recommends(effects[i], SetRecommendedSeverity, "severity", s) ==> s in SEVERITIES
      ensures Recommends(effects[i], SetRecommendedUrgency, "urgency", s) ==> s in URGENCIES
      ensures Recommends(effects[i], SetEscalationLevel, "level", s) ==> s in ESCALATION_LEVELS
    {
      assert effects[i] in effects;
      ValidRecommendation(effects[i], s);
    }
  }

  /** The recommended severity, urgency and escalation level are the highest that valid effects name. */
  lemma RecommendationsAreGreatest(collate: Collation, purpose: Purpose, effects: seq<Json>)
    requires EffectsOk(effects)
    ensures var d := Merged(collate, purpose, effects);
      && IsGreatest(d.recommendedSeverity, effects, SetRecommendedSeverity, "severity", SEVERITIES)
      && IsGreatest(d.recommendedUrgency, effects, SetRecommendedUrgency, "urgency", URGENCIES)
      && IsGreatest(d.escalationLevel, effects, SetEscalationLevel, "level", ESCALATION_LEVELS)
  {
    hide Ranked, IsGreatest, Highest, EffectsOk, Has, Automatic, Sort;
    ValidEffectsRanked(effects);
    HighestIsGreatest(effects, SetRecommendedSeverity, "severity", SEVERITIES);
    HighestIsGreatest(effects, SetRecommendedUrgency, "urgency", URGENCIES);
    HighestIsGreatest(effects, SetEscalationLevel, "level", ESCALATION_LEVELS);
  }

  lemma ValidRecommendation(e: Json, s: string)
    requires EffectOk(e)
    ensures Recommends(e, SetRecommendedSeverity, "severity", s) ==> s in SEVERITIES
    ensures Recommends(e, SetRecommendedUrgency, "urgency", s) ==> s in URGENCIES
    ensures Recommends(e, SetEscalationLevel, "level", s) ==> s in ESCALATION_LEVELS
  {
    hide ReadEffectType, PayloadOf, Get, OwnKeys;
  }

  /** Every entry of a valid effect that the merge converts to text has one. */
  lemma ValidEntriesHaveText(e: Json)
    requires EffectOk(e)
    ensures Is(e, ProposeProtectionAction) ==> HasText(Entry(e, "actionType")) && HasText(Entry(e, "reasonCode"))
    ensures Is(e, AllowAutomaticIntervention) ==>
      && HasText(Entry(e, "interventionType")) && HasText(Entry(e, "maxSeverity")) && HasText(Entry(e, "maxUrgency"))
      && (Entry(e, "prerequisites").Arr? ==> forall x :: x in Entry(e, "prerequisites").items ==> HasText(x))
  {
    hide ReadEffectType, PayloadOf, Get, OwnKeys;
  }

  /** What a proposed action asks for, apart from its reason. */
  function Asks(actions: seq<ProposedAction>): seq<(string, bool)> {
    seq(|actions|, i requires 0 <= i < |actions| => (actions[i].actionType, actions[i].requiresApproval))
  }

  /** Two decisions that recommend and authorize the same, up to reasons and intervention bounds. */
  ghost predicate SameVerdict(d: Decision, d': Decision) {
    && d.(proposedActions := [], automaticInterventionBounds := []) == d'.(proposedActions := [], automaticInterventionBounds := [])
    && Asks(d.proposedActions) == Asks(d'.proposedActions)
    && KeysOf(BoundKey, d.automaticInterventionBounds) == KeysOf(BoundKey, d'.automaticInterventionBounds)
  }

  lemma SameNeeds(effects: seq<Json>, effects': seq<Json>, at: string)
    requires forall e :: e in effects <==> e in effects'
    ensures Proposed(effects, at) <==> Proposed(effects', at)
    ensures NeedsApproval(effects, at) <==> NeedsApproval(effects', at)
  {
    hide Proposes, Approves;
    if Proposed(effects, at) { var i :| 0 <= i < |effects| && Proposes(effects[i], at); assert effects[i] in effects'; }
    if Proposed(effects', at) { var i :| 0 <= i < |effects'| && Proposes(effects'[i], at); assert effects'[i] in effects; }
    if NeedsApproval(effects, at) { var i :| 0 <= i < |effects| && Proposes(effects[i], at) && Approves(effects[i]); assert effects[i] in effects'; }
    if NeedsApproval(effects', at) { var i :| 0 <= i < |effects'| && Proposes(effects'[i], at) && Approves(effects'[i]); assert effects'[i] in effects; }
  }

  ghost predicate Allowed(effects: seq<Json>, it: string) {
    exists i :: 0 <= i < |effects| && Intervenes(effects[i]) && InterventionType(effects[i]) == it
  }

  lemma SameAllowed(effects: seq<Json>, effects': seq<Json>, it: string)
    requires forall e :: e in effects <==> e in effects'
    ensures Allowed(effects, it) <==> Allowed(effects', it)
    ensures Automatic(effects) <==> Automatic(effects')
  {
    hide Intervenes, InterventionType;
    if Allowed(effects, it) { var i :| 0 <= i < |effects| && Intervenes(effects[i]) && InterventionType(effects[i]) == it; assert effects[i] in effects'; }
    if Allowed(effects', it) { var i :| 0 <= i < |effects'| && Intervenes(effects'[i]) && InterventionType(effects'[i]) == it; assert effects'[i] in effects; }
    if Automatic(effects) { var i :| 0 <= i < |effects| && Intervenes(effects[i]); assert effects[i] in effects'; }
    if Automatic(effects') { var i :| 0 <= i < |effects'| && Intervenes(effects'[i]); assert effects'[i] in effects; }
  }

  lemma SameSortedKeys(collate: Collation, ks: seq<string>, ls: seq<string>)
    requires TotalOrder(collate) && Sorted(collate, ks) && Sorted(collate, ls) && Distinct(ks) && Distinct(ls)
    requires forall k :: k in ks <==> k in ls
    ensures ks == ls
  {
    SameMembers(ks, ls);
    SortedUnique(collate, ks, ls);
  }

  lemma SameAsks(collate: Collation, purpose: Purpose, effects: seq<Json>, effects': seq<Json>)
    requires TotalOrder(collate) && forall e :: e in effects <==> e in effects'
    ensures Asks(Merged(collate, purpose, effects).proposedActions) == Asks(Merged(collate, purpose, effects').proposedActions)
  {
    hide Proposed, NeedsApproval, Highest, Has, ReasonSaid, Merged;
    var l, l' := Merged(collate, purpose, effects).proposedActions, Merged(collate, purpose, effects').proposedActions;
    var ks, ks' := KeysOf(ActionKey, l), KeysOf(ActionKey, l');
    ActionsListed(collate, purpose, effects, "");
    ActionsListed(collate, purpose, effects', "");
    forall at ensures at in ks <==> at in ks' {
      ActionsListed(collate, purpose, effects, at);
      ActionsListed(collate, purpose, effects', at);
      SameNeeds(effects, effects', at);
    }
    SameSortedKeys(collate, ks, ks');
    forall i | 0 <= i < |l| ensures l[i].actionType == l'[i].actionType && l[i].requiresApproval == l'[i].requiresApproval {
      assert ks[i] == ks'[i];
      LookupMember(ActionKey, l, l[i]);
      LookupMember(ActionKey, l', l'[i]);
      ActionsListed(collate, purpose, effects, ks[i]);
      ActionsListed(collate, purpose, effects', ks[i]);
      SameNeeds(effects, effects', ks[i]);
    }
  }

  lemma SameBoundKeys(collate: Collation, purpose: Purpose, effects: seq<Json>, effects': seq<Json>)
    requires TotalOrder(collate) && forall e :: e in effects <==> e in effects'
    ensures KeysOf(BoundKey, Merged(collate, purpose, effects).automaticInterventionBounds)
         == KeysOf(BoundKey, Merged(collate, purpose, effects').automaticInterventionBounds)
  {
    hide Manual, Allowed, Merged, LastIntervention;
    var ks, ks' := KeysOf(BoundKey, Merged(collate, purpose, effects).automaticInterventionBounds),
                   KeysOf(BoundKey, Merged(collate, purpose, effects').automaticInterventionBounds);
    SameManual(effects, effects');
    BoundsListed(collate, purpose, effects, "");
    BoundsListed(collate, purpose, effects', "");
    forall it ensures it in ks <==> it in ks' {
      BoundsListed(collate, purpose, effects, it);
      BoundsListed(collate, purpose, effects', it);
      SameAllowed(effects, effects', it);
      LastExists(effects, it, |effects|);
      LastExists(effects', it, |effects'|);
    }
    SameSortedKeys(collate, ks, ks');
  }

  lemma SameManual(effects: seq<Json>, effects': seq<Json>)
    requires forall e :: e in effects <==> e in effects'
    ensures Manual(effects) <==> Manual(effects')
  {
    SameHas(effects, effects', ManualOnly);
    SameHas(effects, effects', RequireManualInterventionApproval);
  }

  lemma {:induction false} LastExists(effects: seq<Json>, it: string, n: nat)
    requires n <= |effects|
    requires forall j :: n <= j < |effects| && Intervenes(effects[j]) ==> InterventionType(effects[j]) != it
    ensures Allowed(effects, it) <==> exists k :: LastIntervention(effects, it, k)
  {
    hide Intervenes, InterventionType;
    if n > 0 {
      if Intervenes(effects[n - 1]) && InterventionType(effects[n - 1]) == it {
        assert LastIntervention(effects, it, n - 1);
      } else {
        LastExists(effects, it, n - 1);
      }
    }
  }

  /** Whatever order valid effects come in, the decision recommends and authorizes the same, up to reasons and bounds. */
  lemma MergeForgetsOrder(collate: Collation, purpose: Purpose, effects: seq<Json>, effects': seq<Json>)
    requires TotalOrder(collate) && EffectsOk(effects) && forall e :: e in effects <==> e in effects'
    ensures SameVerdict(Merged(collate, purpose, effects), Merged(collate, purpose, effects'))
  {
    hide Has, Highest, Automatic, Asks, Sort, Actions, Bounds, Ranked, IsGreatest, EffectsOk;
    SameAsks(collate, purpose, effects, effects');
    SameBoundKeys(collate, purpose, effects, effects');
    SameAllowed(effects, effects', "");
    forall t: EffectType ensures Has(effects, t) <==> Has(effects', t) { SameHas(effects, effects', t); }
    assert EffectsOk(effects') by { OkTransfers(effects, effects'); }
    ValidEffectsRanked(effects);
    ValidEffectsRanked(effects');
    SameHighest(effects, effects', SetRecommendedSeverity, "severity", SEVERITIES);
    SameHighest(effects, effects', SetRecommendedUrgency, "urgency", URGENCIES);
    SameHighest(effects, effects', SetEscalationLevel, "level", ESCALATION_LEVELS);
  }

  lemma OkTransfers(effects: seq<Json>, effects': seq<Json>)
    requires EffectsOk(effects) && forall e :: e in effects <==> e in effects'
    ensures EffectsOk(effects')
  {
    hide EffectOk;
  }

  lemma SameHighest(effects: seq<Json>, effects': seq<Json>, t: EffectType, key: string, order: seq<string>)
    requires forall e :: e in effects <==> e in effects'
    requires Ranked(effects, t, key, order) && Ranked(effects', t, key, order)
    ensures Highest(effects, t, key, order) == Highest(effects', t, key, order)
  {
    hide Ranked, IsGreatest;
    HighestIsGreatest(effects, t, key, order);
    HighestIsGreatest(effects', t, key, order);
    GreatestUnique(Highest(effects, t, key, order), Highest(effects', t, key, order), effects, effects', t, key, order);
  }
}
