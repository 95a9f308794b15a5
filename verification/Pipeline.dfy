/** The evidence-gate section of the hybrid classifier, and its agreement with what customers and queries later see. */
module Pipeline {
  import opened Optional
  import opened Sorting
  import opened JsonTree
  import opened EvidenceSpans
  import opened EvidenceGate
  import opened Reputation

  /** The rules verdict after brand memory, with the text it analyzed and the spans it found. */
  datatype RulesVerdict = RulesVerdict(level: string, categories: seq<string>, confidence: real, action: string, analyzedText: string, evidence: seq<Span>)

  /** The provider's part: not consulted, no usable answer, or a classification of any content. */
  datatype Provider = NotConsulted | Unusable | Answered(level: string, categories: seq<string>, confidence: real, action: string)

  datatype Hybrid = Hybrid(
    level: string, confidence: real, categories: seq<string>, decisions: seq<Decision>,
    confirmed: seq<string>, review: seq<string>, rejected: seq<string>,
    requiresReview: bool, approvalRequired: bool, action: string, proposed: string, severity: Severity)

  /** Set union in insertion order. */
  function AddDistinct(acc: seq<string>, cs: seq<string>): seq<string> {
    if cs == [] then acc
    else var n := |cs| - 1; var r := AddDistinct(acc, cs[..n]); if cs[n] in r then r else r + [cs[n]]
  }

  function Union(a: seq<string>, b: seq<string>): seq<string> { AddDistinct(AddDistinct([], a), b) }

  /** Every category claimed by the rules or the provider. */
  function Claimed(r: RulesVerdict, p: Provider): seq<string> {
    if p.Answered? && p.categories != [] then Union(r.categories, p.categories) else r.categories
  }

  function Confidence(r: RulesVerdict, p: Provider): real {
    if p.Answered? && p.confidence > r.confidence then p.confidence else r.confidence
  }

  function ClaimFor(r: RulesVerdict, p: Provider, c: string): Claim {
    Claim(c, |ValidFor(r.analyzedText, r.evidence, c)|, c in r.categories, p.Answered? && c in p.categories, Confidence(r, p), !p.Unusable?)
  }

  function DecisionsFor(r: RulesVerdict, p: Provider, cs: seq<string>): seq<Decision> {
    seq(|cs|, i requires 0 <= i < |cs| => Decide(ClaimFor(r, p, cs[i])))
  }

  function WithVerdict(ds: seq<Decision>, v: Verdict): seq<string> {
    if ds == [] then [] else (if ds[0].verdict == v then [ds[0].category] else []) + WithVerdict(ds[1..], v)
  }

  /** The gate as a function of what the rules and the provider said. */
  function Gate(r: RulesVerdict, p: Provider): Hybrid {
    var proposed := if p.Answered? then p.level else r.level;
    var decisions := DecisionsFor(r, p, Claimed(r, p));
    var severity := SeverityFor(r.level, proposed, decisions);
    var confirmed, review := WithVerdict(decisions, Confirmed), WithVerdict(decisions, ReviewRequired);
    var action := if p.Answered? && p.action != "none" then p.action else r.action;
    Hybrid(
      severity.level, Confidence(r, p),
      if confirmed != [] then confirmed else [if "positive" in r.categories then "positive" else "neutral"],
      decisions, confirmed, review, WithVerdict(decisions, Rejected), review != [],
      Rank(r.level) >= HIGH || Rank(severity.level) >= HIGH || review != [],
      if review != [] && action == "none" then "review" else action,
      proposed, severity)
  }

  method ClassifyGate(rules: RulesVerdict, provider: Provider) returns (h: Hybrid)
    ensures h == Gate(rules, provider)
  {
    hide Decide, SeverityFor, ValidFor, Union, WithVerdict, Rank;
    var level, confidence, categories, action := rules.level, rules.confidence, rules.categories, rules.action;
    var approvalRequired := Rank(level) >= HIGH;
    var proposedLevel := level;
    var aiCategories: seq<string> := [];
    var parserOk := true;
    match provider {
      case NotConsulted =>
      case Answered(l, cs, c, a) =>
        proposedLevel := l;
        aiCategories := cs;
        if c > confidence { confidence := c; }
        if cs != [] { categories := Union(categories, cs); }
        if a != "none" { action := a; }
      case Unusable => parserOk := false;
    }
    assert categories == Claimed(rules, provider) && confidence == Confidence(rules, provider);
    var decisions: seq<Decision> := [];
    for i := 0 to |categories|
      invariant decisions == DecisionsFor(rules, provider, categories)[..i]
    {
      var c := categories[i];
      var spans := ValidFor(rules.analyzedText, rules.evidence, c);
      decisions := decisions + [Decide(Claim(c, |spans|, c in rules.categories, c in aiCategories, confidence, parserOk))];
    }
    assert decisions == DecisionsFor(rules, provider, categories);
    var severity := SeverityFor(level, proposedLevel, decisions);
    level := severity.level;
    var confirmed := WithVerdict(decisions, Confirmed);
    var review := WithVerdict(decisions, ReviewRequired);
    var rejected := WithVerdict(decisions, Rejected);
    categories := if confirmed != [] then confirmed else [if "positive" in rules.categories then "positive" else "neutral"];
    var requiresReview := review != [];
    approvalRequired := approvalRequired || Rank(level) >= HIGH || requiresReview;
    if requiresReview && action == "none" { action := "review"; }
    h := Hybrid(level, confidence, categories, decisions, confirmed, review, rejected, requiresReview, approvalRequired, action, proposedLevel, severity);
  }

  // ---------------------------------------------------------------- what the gate guarantees

  lemma {:induction false} WithVerdictIs(ds: seq<Decision>, v: Verdict, c: string)
    ensures c in WithVerdict(ds, v) <==> exists i :: 0 <= i < |ds| && ds[i].category == c && ds[i].verdict == v
  {
    if ds != [] {
      WithVerdictIs(ds[1..], v, c);
      assert forall i :: 0 <= i < |ds[1..]| ==> ds[1..][i] == ds[i + 1];
    }
  }

  /** The span names the category and shows exactly the stretch of the text that it points at. */
  predicate Shows(text: string, s: Span, c: string) {
    s.category == c && c != "" && 0 <= s.start < s.end <= |text| && text[s.start..s.end] == s.text
  }

  /** Some span of the analyzed text supports the category. */
  predicate Evidenced(r: RulesVerdict, c: string) {
    exists s :: s in r.evidence && Shows(r.analyzedText, s, c)
  }

  lemma ShowsIff(text: string, s: Span, c: string)
    ensures Shows(text, s, c) <==> s.category == c && Validates(text, s)
  {
  }

  lemma CountsEvidence(r: RulesVerdict, c: string)
    ensures |ValidFor(r.analyzedText, r.evidence, c)| > 0 <==> Evidenced(r, c)
  {
    hide Shows, Validates;
    ValidForAre(r.analyzedText, r.evidence, c);
    forall s ensures Shows(r.analyzedText, s, c) <==> s.category == c && Validates(r.analyzedText, s) { ShowsIff(r.analyzedText, s, c); }
    var valid := ValidFor(r.analyzedText, r.evidence, c);
    if |valid| > 0 { assert valid[0] in valid; }
  }

  lemma ClaimedHasDecision(r: RulesVerdict, p: Provider, c: string) returns (i: nat)
    requires c in Claimed(r, p)
    ensures i < |Gate(r, p).decisions| && Gate(r, p).decisions[i] == Decide(ClaimFor(r, p, c))
  {
    hide Claimed, Decide, ClaimFor, SeverityFor, WithVerdict;
    i :| 0 <= i < |Claimed(r, p)| && Claimed(r, p)[i] == c;
  }

  lemma DecisionHasClaim(r: RulesVerdict, p: Provider, i: nat) returns (c: string)
    requires i < |Gate(r, p).decisions|
    ensures c in Claimed(r, p) && Gate(r, p).decisions[i] == Decide(ClaimFor(r, p, c)) && Gate(r, p).decisions[i].category == c
  {
    hide Claimed, SeverityFor, WithVerdict, ValidFor, Threshold, Accusatory;
    c := Claimed(r, p)[i];
  }

  /** The rules are confident enough, or a provider that answered is. */
  predicate Reaches(r: RulesVerdict, p: Provider, bar: real) { r.confidence >= bar || (p.Answered? && p.confidence >= bar) }

  /** The provider can only raise the confidence: it is the greater of the two numbers. */
  lemma ConfidenceIsGreatest(r: RulesVerdict, p: Provider)
    ensures var h := Gate(r, p);
      && h.confidence >= r.confidence && (p.Answered? ==> h.confidence >= p.confidence)
      && (h.confidence == r.confidence || (p.Answered? && h.confidence == p.confidence))
    ensures forall bar :: Reaches(r, p, bar) <==> Confidence(r, p) >= bar
  {
    hide Decide, SeverityFor, ValidFor, Union, WithVerdict, Rank;
  }

  /** A claimed accusation is held for review when it has evidence but neither confidence suffices, or has no
      evidence and the rules did not make it. */
  predicate Held(r: RulesVerdict, p: Provider, c: string) {
    && Accusatory(c) && (c in r.categories || (p.Answered? && c in p.categories))
    && if Evidenced(r, c) then r.confidence < Threshold(c) && (p.Answered? ==> p.confidence < Threshold(c)) else c !in r.categories
  }

  /** The verdict on one claim. */
  lemma ClaimVerdict(r: RulesVerdict, p: Provider, c: string)
    requires c in Claimed(r, p)
    ensures var d := Decide(ClaimFor(r, p, c));
      && d.category == c
      && (d.verdict.Confirmed? <==> !Accusatory(c) || (Evidenced(r, c) && Reaches(r, p, Threshold(c))))
      && (d.verdict.ReviewRequired? <==> Held(r, p, c))
      && (d.verdict.Rejected? <==> Accusatory(c) && c in r.categories && !Evidenced(r, c))
      && (d.reason == "not_evidence_gated" <==> !Accusatory(c))
      && (d.reason == "evidence_validated" <==> Accusatory(c) && Evidenced(r, c) && !Held(r, p, c))
      && (d.reason == "below_category_threshold" <==> Evidenced(r, c) && Held(r, p, c))
      && (d.reason == "ai_claim_without_evidence" <==> !Evidenced(r, c) && Held(r, p, c))
      && (d.reason == "no_valid_evidence_span" <==> d.verdict.Rejected?)
  {
    hide ValidFor, Threshold, Confidence, Accusatory, Evidenced, Claimed;
    UnusableClaims(r, p);
    CountsEvidence(r, c);
    ConfidenceIsGreatest(r, p);
    assert Reaches(r, p, Threshold(c)) <==> Confidence(r, p) >= Threshold(c);
  }

  /** An accusation is shown exactly when the rules or the provider claim it, some validated span supports it, and the
      rules' confidence or the provider's reaches its threshold; every other claim is shown as it
      stands, and what is shown without a claim is neutral or positive. */
  lemma ShownIff(r: RulesVerdict, p: Provider, c: string)
    ensures Accusatory(c) ==>
      (c in Gate(r, p).categories <==>
         && (c in r.categories || (p.Answered? && c in p.categories))
         && Evidenced(r, c)
         && (r.confidence >= Threshold(c) || (p.Answered? && p.confidence >= Threshold(c))))
    ensures !Accusatory(c) && (c in r.categories || (p.Answered? && c in p.categories)) ==> c in Gate(r, p).categories
    ensures c in Gate(r, p).categories ==> c in r.categories || (p.Answered? && c in p.categories) || c == "positive" || c == "neutral"
  {
    hide Threshold, Accusatory, Evidenced, SeverityFor, Decide, ClaimFor, Claimed, Held;
    var h := Gate(r, p);
    DefaultsDoNotAccuse();
    WithVerdictIs(h.decisions, Confirmed, c);
    UnusableClaims(r, p);
    if c in Claimed(r, p) {
      var i := ClaimedHasDecision(r, p, c);
      ClaimVerdict(r, p, c);
    }
    if c in h.confirmed {
      var i :| 0 <= i < |h.decisions| && h.decisions[i].category == c && h.decisions[i].verdict == Confirmed;
      var d := DecisionHasClaim(r, p, i);
    }
  }

  lemma UnusableClaims(r: RulesVerdict, p: Provider)
    ensures p.Unusable? ==> Claimed(r, p) == r.categories
    ensures forall c :: c in Claimed(r, p) <==> c in r.categories || (p.Answered? && c in p.categories)
  {
    if p.Answered? && p.categories != [] {
      forall c ensures c in Union(r.categories, p.categories) <==> c in r.categories || c in p.categories { UnionIs(r.categories, p.categories, c); }
    }
  }

  lemma UnionIs(a: seq<string>, b: seq<string>, c: string)
    ensures c in Union(a, b) <==> c in a || c in b
  {
    AddDistinctIs([], a, c);
    AddDistinctIs(AddDistinct([], a), b, c);
  }

  lemma {:induction false} AddDistinctIs(acc: seq<string>, cs: seq<string>, c: string)
    ensures c in AddDistinct(acc, cs) <==> c in acc || c in cs
  {
    if cs != [] {
      var n := |cs| - 1;
      AddDistinctIs(acc, cs[..n], c);
      assert cs == cs[..n] + [cs[n]];
    }
  }

  /** Review is required exactly when some claimed accusation is held. */
  lemma ReviewIffHeld(r: RulesVerdict, p: Provider)
    ensures Gate(r, p).requiresReview <==> exists c :: Held(r, p, c)
  {
    hide ValidFor, Threshold, Confidence, Accusatory, Evidenced, SeverityFor, Claimed, Gate, Decide, Held, ClaimFor;
    ReviewIffSome(r, p);
    if Gate(r, p).requiresReview {
      var i :| 0 <= i < |Gate(r, p).decisions| && Gate(r, p).decisions[i].verdict.ReviewRequired?;
      var c := DecisionHasClaim(r, p, i);
      ClaimVerdict(r, p, c);
    }
    if c :| Held(r, p, c) {
      HeldIsClaimed(r, p, c);
      var i := ClaimedHasDecision(r, p, c);
      ClaimVerdict(r, p, c);
    }
  }

  lemma HeldIsClaimed(r: RulesVerdict, p: Provider, c: string)
    requires Held(r, p, c)
    ensures c in Claimed(r, p)
  {
    hide Evidenced, Claimed, Threshold;
    UnusableClaims(r, p);
  }

  /** The lists beside the shown categories: what is held, and what the rules claimed without evidence. */
  lemma HeldAndRejected(r: RulesVerdict, p: Provider, c: string)
    ensures c in Gate(r, p).review <==> Held(r, p, c)
    ensures c in Gate(r, p).rejected <==> Accusatory(c) && c in r.categories && !Evidenced(r, c)
  {
    hide Evidenced, Claimed, Threshold, Decide, Accusatory, Held, SeverityFor, ClaimFor;
    var h := Gate(r, p);
    UnusableClaims(r, p);
    WithVerdictIs(h.decisions, ReviewRequired, c);
    WithVerdictIs(h.decisions, Rejected, c);
    if Held(r, p, c) { HeldIsClaimed(r, p, c); }
    if c in Claimed(r, p) {
      var i := ClaimedHasDecision(r, p, c);
      ClaimVerdict(r, p, c);
    }
    if c in h.review {
      var i :| 0 <= i < |h.decisions| && h.decisions[i].category == c && h.decisions[i].verdict == ReviewRequired;
      var d := DecisionHasClaim(r, p, i);
    }
    if c in h.rejected {
      var i :| 0 <= i < |h.decisions| && h.decisions[i].category == c && h.decisions[i].verdict == Rejected;
      var d := DecisionHasClaim(r, p, i);
    }
  }

  /** The remaining fields: what is proposed, who has to approve, and what is recommended. */
  lemma OutcomeFields(r: RulesVerdict, p: Provider)
    ensures var h := Gate(r, p);
      var action := if p.Answered? && p.action != "none" then p.action else r.action;
      && h.proposed == (if p.Answered? then p.level else r.level)
      && (h.requiresReview <==> h.review != [])
      && (h.approvalRequired <==> r.level in ["high", "critical"] || h.level in ["high", "critical"] || h.requiresReview)
      && (h.requiresReview && action == "none" ==> h.action == "review")
      && (!h.requiresReview || action != "none" ==> h.action == action)
      && (h.confirmed != [] ==> h.categories == h.confirmed)
      && (h.confirmed == [] ==> h.categories == [if "positive" in r.categories then "positive" else "neutral"])
  {
    hide Decide, SeverityFor, ValidFor, Union, WithVerdict;
  }

  lemma ClaimedOrder(r: RulesVerdict, p: Provider)
    ensures !p.Answered? || p.categories == [] ==> Claimed(r, p) == r.categories
    ensures p.Answered? && p.categories != [] && Distinct(r.categories + p.categories) ==> Claimed(r, p) == r.categories + p.categories
    ensures p.Answered? && p.categories != [] ==> Distinct(Claimed(r, p))
  {
    hide AddDistinct;
    if p.Answered? {
      var a, b := r.categories, p.categories;
      AddDistinctNew([], a);
      AddDistinctNew(AddDistinct([], a), b);
      assert [] + a == a;
      if Distinct(a + b) { DistinctFront(a, b); }
    }
  }

  lemma DistinctFront(a: seq<string>, b: seq<string>)
    requires Distinct(a + b)
    ensures Distinct(a)
  {
    forall i, j | 0 <= i < j < |a| ensures a[i] != a[j] { assert (a + b)[i] != (a + b)[j]; }
  }

  /** Claims are decided in the order made: the rules' first, then what only the provider adds. */
  lemma ClaimOrder(r: RulesVerdict, p: Provider)
    ensures var ds := Gate(r, p).decisions;
      && (!p.Answered? || p.categories == [] ==> |ds| == |r.categories| && forall i :: 0 <= i < |ds| ==> ds[i].category == r.categories[i])
      && (p.Answered? && p.categories != [] && Distinct(r.categories + p.categories) ==>
            |ds| == |r.categories + p.categories| && forall i :: 0 <= i < |ds| ==> ds[i].category == (r.categories + p.categories)[i])
      && (p.Answered? && p.categories != [] ==> forall i, j :: 0 <= i < j < |ds| ==> ds[i].category != ds[j].category)
  {
    hide Claimed, SeverityFor, WithVerdict, ValidFor, Threshold, Accusatory, Confidence;
    ClaimedOrder(r, p);
    assert forall i :: 0 <= i < |Claimed(r, p)| ==> Gate(r, p).decisions[i].category == Claimed(r, p)[i];
    assert |Gate(r, p).decisions| == |Claimed(r, p)|;
    hide Gate;
  }

  lemma {:induction false} AddDistinctNew(acc: seq<string>, cs: seq<string>)
    requires Distinct(acc)
    ensures Distinct(AddDistinct(acc, cs)) && acc <= AddDistinct(acc, cs)
    ensures Distinct(acc + cs) ==> AddDistinct(acc, cs) == acc + cs
  {
    if cs != [] {
      var n := |cs| - 1;
      AddDistinctNew(acc, cs[..n]);
      if Distinct(acc + cs) {
        var all := acc + cs;
        forall i, j | 0 <= i < j < |acc + cs[..n]| ensures (acc + cs[..n])[i] != (acc + cs[..n])[j] { assert all[i] != all[j]; }
        forall i | 0 <= i < |acc + cs[..n]| ensures (acc + cs[..n])[i] != cs[n] { assert all[i] != all[|all| - 1]; }
        assert acc + cs == acc + cs[..n] + [cs[n]];
      }
    }
  }

  lemma DefaultsDoNotAccuse()
    ensures !Accusatory("positive") && !Accusatory("neutral")
  {
  }

  /** The rules' level is a floor; only a confirmed accusation, shown with its evidence, raises it. */
  lemma SeverityNeedsEvidence(r: RulesVerdict, p: Provider)
    ensures var h := Gate(r, p);
      && Rank(h.level) >= Rank(r.level)
      && h.level == (if p.Answered? && Rank(p.level) > Rank(r.level) && exists c :: c in h.categories && Accusatory(c) then p.level else r.level)
      && (h.severity.capped <==> p.Answered? && Rank(p.level) > Rank(r.level) && forall c :: c in h.categories ==> !Accusatory(c))
  {
    hide Decide, Claimed, Rank, Accusatory;
    var h := Gate(r, p);
    DefaultsDoNotAccuse();
    forall c ensures c in h.confirmed <==> exists i :: 0 <= i < |h.decisions| && h.decisions[i].category == c && h.decisions[i].verdict == Confirmed {
      WithVerdictIs(h.decisions, Confirmed, c);
    }
    if d :| d in h.decisions && ConfirmedAccusation(d) { assert d.category in h.confirmed; }
    if c :| c in h.categories && Accusatory(c) {
      var i :| 0 <= i < |h.decisions| && h.decisions[i].category == c && h.decisions[i].verdict == Confirmed;
      assert h.decisions[i] in h.decisions && ConfirmedAccusation(h.decisions[i]);
    }
  }

  // ---------------------------------------------------------------- the stored diagnostics

  function DecisionJson(d: Decision): Json {
    Obj([Field("category", Str(d.category)), Field("verdict", Str(VerdictText(d.verdict))), Field("reason", Str(d.reason))])
  }

  function DecisionsJson(ds: seq<Decision>): seq<Json> {
    seq(|ds|, i requires 0 <= i < |ds| => DecisionJson(ds[i]))
  }

  function SeverityJson(h: Hybrid): Json {
    Obj([Field("proposed", Str(h.proposed)), Field("applied", Str(h.level)), Field("capped", Bool(h.severity.capped)), Field("reason", Str(h.severity.reason))])
  }

  /** The diagnostics snapshot: other sections, then the gate. */
  function Diagnostics(others: seq<Field>, h: Hybrid): Json {
    Obj(others + [Field("evidenceGate", Obj([
      Field("decisions", Arr(DecisionsJson(h.decisions))),
      Field("severity", SeverityJson(h))]))])
  }

  /** The row stored for a classification. */
  function StoredFor(h: Hybrid, diagnostics: Json, ap: Option<AutoProtect>): StoredRow {
    StoredRow(h.level, Some(h.categories), diagnostics, ap)
  }

  lemma {:induction false} FindLast(others: seq<Field>, f: Field)
    requires f.key !in Keys(others)
    ensures Find(others + [f], f.key) == f.val
  {
    SetFieldNew(others, f.key, f.val);
    SetFieldFind(others, f.key, f.val, f.key);
  }

  lemma DecisionReads(d: Decision)
    ensures ReadEntry(DecisionJson(d)) == if d.category != "" then [EntryFor(d)] else []
  {
    var fs := DecisionJson(d).fields;
    assert fs[1..][0] == Field("verdict", Str(VerdictText(d.verdict)));
    assert VerdictText(d.verdict) != "";
  }

  function EntryFor(d: Decision): Entry { Entry(d.category, VerdictText(d.verdict)) }

  /** What storage keeps of the decisions: their categories and verdicts in order, save those on the empty category. */
  function Stored(ds: seq<Decision>): seq<Entry> {
    if ds == [] then [] else Stored(ds[..|ds| - 1]) + if ds[|ds| - 1].category != "" then [EntryFor(ds[|ds| - 1])] else []
  }

  lemma {:induction false} EntriesRead(ds: seq<Decision>)
    ensures ReadEntries(DecisionsJson(ds)) == Stored(ds)
  {
    hide DecisionJson, ReadEntry;
    if ds != [] {
      var n := |ds| - 1;
      EntriesRead(ds[..n]);
      DecisionReads(ds[n]);
      assert DecisionsJson(ds)[..n] == DecisionsJson(ds[..n]);
    }
  }

  lemma {:induction false} StoredHas(ds: seq<Decision>, e: Entry)
    ensures e in Stored(ds) <==> exists i :: 0 <= i < |ds| && ds[i].category != "" && e == EntryFor(ds[i])
  {
    if ds != [] {
      var n := |ds| - 1;
      StoredHas(ds[..n], e);
      assert forall i :: 0 <= i < n ==> ds[..n][i] == ds[i];
    }
  }

  /** Writing the diagnostics and reading them back gives the decisions in order, save those on the empty category. */
  lemma DiagnosticsRoundTrip(others: seq<Field>, h: Hybrid)
    requires "evidenceGate" !in Keys(others)
    ensures ReadGate(Diagnostics(others, h)) == Stored(h.decisions)
  {
    hide DecisionsJson, ReadEntries;
    var v := Diagnostics(others, h);
    FindLast(others, v.fields[|others|]);
    EntriesRead(h.decisions);
  }

  lemma VerdictTexts(v: Verdict)
    ensures VerdictText(v) == "confirmed" <==> v.Confirmed?
    ensures VerdictText(v) == "review_required" <==> v.ReviewRequired?
    ensures VerdictText(v) == "rejected" <==> v.Rejected?
  {
  }

  /** What the diagnostics hold of a decision. */
  lemma DecisionFields(d: Decision)
    ensures var j := DecisionJson(d);
      Get(j, "category") == Str(d.category) && Get(j, "verdict") == Str(VerdictText(d.verdict)) && Get(j, "reason") == Str(d.reason)
  {
    hide VerdictText;
    var fs := DecisionJson(d).fields;
    assert fs[1..][0] == fs[1] && fs[1..][1..][0] == fs[2];
  }

  lemma GateFields(h: Hybrid)
    ensures var gate := Obj([Field("decisions", Arr(DecisionsJson(h.decisions))), Field("severity", SeverityJson(h))]);
      Get(gate, "decisions") == Arr(DecisionsJson(h.decisions)) && Get(gate, "severity") == SeverityJson(h)
  {
    hide DecisionsJson, SeverityJson;
    var fs := [Field("decisions", Arr(DecisionsJson(h.decisions))), Field("severity", SeverityJson(h))];
    assert fs[1..][0] == fs[1];
  }

  lemma SeverityHolds(h: Hybrid)
    ensures var s := SeverityJson(h);
      && Get(s, "proposed") == Str(h.proposed) && Get(s, "applied") == Str(h.level)
      && Get(s, "capped") == Bool(h.severity.capped) && Get(s, "reason") == Str(h.severity.reason)
  {
    hide Find;
    var fs := SeverityJson(h).fields;
    assert Distinct(Keys(fs));
    FindAt(fs, 0);
    FindAt(fs, 1);
    FindAt(fs, 2);
    FindAt(fs, 3);
  }

  /** And of the severity. */
  lemma SeverityFields(others: seq<Field>, h: Hybrid)
    requires "evidenceGate" !in Keys(others)
    ensures var s := Get(Get(Diagnostics(others, h), "evidenceGate"), "severity");
      && Get(s, "proposed") == Str(h.proposed) && Get(s, "applied") == Str(h.level)
      && Get(s, "capped") == Bool(h.severity.capped) && Get(s, "reason") == Str(h.severity.reason)
  {
    hide SeverityJson, DecisionsJson, Find;
    SeverityHolds(h);
    GateFields(h);
    FindLast(others, Diagnostics(others, h).fields[|others|]);
  }

  lemma OnlyAccusationsReviewed(r: RulesVerdict, p: Provider, i: nat)
    requires i < |Gate(r, p).decisions|
    ensures Gate(r, p).decisions[i].verdict.ReviewRequired? ==> Gate(r, p).decisions[i].category != ""
  {
    hide Claimed, ValidFor;
    EmptyDoesNotAccuse();
  }

  lemma EmptyDoesNotAccuse()
    ensures !Accusatory("")
  {
  }

  /** The stored gate awaits review exactly when the classifier asked for it. */
  lemma ReviewSurvivesStorage(r: RulesVerdict, p: Provider, others: seq<Field>)
    requires "evidenceGate" !in Keys(others)
    ensures AwaitsReview(ReadGate(Diagnostics(others, Gate(r, p)))) <==> Gate(r, p).requiresReview
  {
    hide Gate, ReadGate, Diagnostics;
    var h := Gate(r, p);
    var entries := ReadGate(Diagnostics(others, h));
    ReviewIffSome(r, p);
    if AwaitsReview(entries) {
      var e :| e in entries && e.verdict == "review_required";
      DiagnosticsRoundTrip(others, h);
      StoredHas(h.decisions, e);
      var i :| 0 <= i < |h.decisions| && h.decisions[i].category != "" && e == EntryFor(h.decisions[i]);
      VerdictTexts(h.decisions[i].verdict);
    }
    if i :| 0 <= i < |h.decisions| && h.decisions[i].verdict.ReviewRequired? {
      OnlyAccusationsReviewed(r, p, i);
      var e := Entry(h.decisions[i].category, "review_required");
      VerdictTexts(h.decisions[i].verdict);
      DiagnosticsRoundTrip(others, h);
      StoredHas(h.decisions, e);
    }
  }

  lemma ReviewIffSome(r: RulesVerdict, p: Provider)
    ensures Gate(r, p).requiresReview <==> exists i :: 0 <= i < |Gate(r, p).decisions| && Gate(r, p).decisions[i].verdict.ReviewRequired?
  {
    hide Decide, Claimed;
    var h := Gate(r, p);
    if h.review != [] {
      var c := h.review[0];
      WithVerdictIs(h.decisions, ReviewRequired, c);
    }
    if i :| 0 <= i < |h.decisions| && h.decisions[i].verdict.ReviewRequired? {
      WithVerdictIs(h.decisions, ReviewRequired, h.decisions[i].category);
    }
  }

  /** Every shown accusation is backed by the stored gate. */
  lemma ShownIsBacked(r: RulesVerdict, p: Provider, others: seq<Field>)
    requires "evidenceGate" !in Keys(others)
    ensures !Unbacked(Gate(r, p).categories, ReadGate(Diagnostics(others, Gate(r, p))))
  {
    hide Decide, Claimed, ReadGate, Diagnostics, Accusatory;
    var h := Gate(r, p);
    DefaultsDoNotAccuse();
    EmptyDoesNotAccuse();
    forall c | c in h.categories && Accusatory(c) ensures ConfirmedIn(ReadGate(Diagnostics(others, h)), c) {
      WithVerdictIs(h.decisions, Confirmed, c);
      var i :| 0 <= i < |h.decisions| && h.decisions[i].category == c && h.decisions[i].verdict == Confirmed;
      var e := Entry(c, "confirmed");
      VerdictTexts(h.decisions[i].verdict);
      DiagnosticsRoundTrip(others, h);
      StoredHas(h.decisions, e);
      assert EntryConfirms(e, c);
    }
  }

  /** Gate, projection and query agree: with diagnostics stored, the row is projected to review, and
      selected by the review filter, exactly when the classifier required review. Without them it is
      so exactly when an accusation is shown. */
  lemma GateAndProjectionAgree(r: RulesVerdict, p: Provider, others: seq<Field>, ap: Option<AutoProtect>, row: DbRow, missing: Json)
    requires "evidenceGate" !in Keys(others) && (missing.Null? || missing.Undefined?)
    ensures var h := Gate(r, p);
      Project(StoredFor(h, Diagnostics(others, h), ap)).state.StateReview? <==> h.requiresReview
    ensures var stored := StoredFor(Gate(r, p), Diagnostics(others, Gate(r, p)), ap);
      row.customer == PersistedAfterClassification(stored) ==>
        (Selects(RequiresReviewWhere(PROJECTION_VERSION), row) <==> Gate(r, p).requiresReview)
    ensures var h := Gate(r, p);
      Project(StoredFor(h, missing, ap)).state.StateReview? <==> exists c :: c in h.categories && Accusatory(c)
  {
    hide Gate, Project, ReadGate, Diagnostics, Accusatory, Selects, RequiresReviewWhere, Unbacked, AwaitsReview;
    var h := Gate(r, p);
    var stored := StoredFor(h, Diagnostics(others, h), ap);
    ReviewSurvivesStorage(r, p, others);
    ShownIsBacked(r, p, others);
    ProjectionState(stored);
    if row.customer == PersistedAfterClassification(stored) { FiltersMatchProjection(stored, row); }
    ProjectionState(StoredFor(h, missing, ap));
    NoDiagnostics(missing, h.categories);
  }

  lemma NoDiagnostics(missing: Json, cs: seq<string>)
    requires missing.Null? || missing.Undefined?
    ensures !AwaitsReview(ReadGate(missing))
    ensures Unbacked(cs, ReadGate(missing)) <==> exists c :: c in cs && Accusatory(c)
  {
    hide Accusatory;
    assert ReadGate(missing) == [];
  }
}
