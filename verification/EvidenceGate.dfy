/** The evidence gate: what one category claim is worth, the severity it may raise, and the one
    customer-visible reading of a stored verdict. */
module EvidenceGate {
  import opened Optional
  import opened JsonTree

  // ---------------------------------------------------------------- categories and levels

  /** Categories that accuse: shown as fact only with evidence. */
  const EVIDENCE_REQUIRED: set<string> := {
    "profanity", "hate_speech", "racism", "harassment", "personal_attack",
    "threat", "violence", "terrorism_extremism", "sexual_vulgarity", "scam", "phishing"
  }

  const THRESHOLDS: map<string, real> := map[
    "profanity" := 0.8, "hate_speech" := 0.85, "racism" := 0.85, "harassment" := 0.8, "personal_attack" := 0.8,
    "threat" := 0.85, "violence" := 0.85, "terrorism_extremism" := 0.9, "sexual_vulgarity" := 0.85,
    "scam" := 0.8, "phishing" := 0.8
  ]

  function Threshold(category: string): real { if category in THRESHOLDS then THRESHOLDS[category] else 0.7 }

  predicate Accusatory(c: string) { c in EVIDENCE_REQUIRED }

  predicate NonAccusatory(c: string) { c == "neutral" || c == "positive" }

  /** Position in none < low < medium < high < critical; an unknown level counts as none. */
  function Rank(level: string): nat {
    if level == "low" then 1 else if level == "medium" then 2 else if level == "high" then 3 else if level == "critical" then 4 else 0
  }

  const HIGH := 3

  // ---------------------------------------------------------------- one claim

  datatype Verdict = Confirmed | ReviewRequired | Rejected

  function VerdictText(v: Verdict): string {
    match v case Confirmed => "confirmed" case ReviewRequired => "review_required" case Rejected => "rejected"
  }

  datatype Claim = Claim(category: string, validEvidence: nat, rulesAgree: bool, aiClaimed: bool, confidence: real, parserOk: bool)

  datatype Decision = Decision(category: string, verdict: Verdict, reason: string)

  function Decide(c: Claim): Decision {
    if !Accusatory(c.category) then Decision(c.category, Confirmed, "not_evidence_gated")
    else if !c.parserOk && !c.rulesAgree then Decision(c.category, ReviewRequired, "provider_output_ambiguous")
    else if c.validEvidence == 0 then
      if c.aiClaimed && !c.rulesAgree then Decision(c.category, ReviewRequired, "ai_claim_without_evidence")
      else Decision(c.category, Rejected, "no_valid_evidence_span")
    else if c.confidence < Threshold(c.category) then Decision(c.category, ReviewRequired, "below_category_threshold")
    else Decision(c.category, Confirmed, "evidence_validated")
  }

  datatype Severity = Severity(level: string, capped: bool, reason: string)

  predicate ConfirmedAccusation(d: Decision) { d.verdict.Confirmed? && Accusatory(d.category) }

  function SeverityFor(base: string, proposed: string, decisions: seq<Decision>): Severity {
    if Rank(proposed) <= Rank(base) then Severity(base, false, "no_escalation_proposed")
    else if exists d :: d in decisions && ConfirmedAccusation(d) then Severity(proposed, false, "confirmed_harm")
    else Severity(base, true, "escalation_without_confirmed_evidence")
  }

  // ---------------------------------------------------------------- the customer-visible display

  /** A gate decision as stored. */
  datatype Entry = Entry(category: string, verdict: string)

  predicate EntryConfirms(e: Entry, c: string) { e.category == c && e.verdict == "confirmed" }

  predicate ConfirmedIn(entries: seq<Entry>, c: string) { exists e :: e in entries && EntryConfirms(e, c) }

  predicate AwaitsReview(entries: seq<Entry>) { exists e :: e in entries && e.verdict == "review_required" }

  datatype Display = ConfirmedCategory(category: string) | NeedsReview(legacy: bool) | NoIssue

  function Select(keep: string -> bool, cs: seq<string>): (r: seq<string>)
    ensures forall c :: c in r <==> c in cs && keep(c)
  {
    if cs == [] then []
    else
      assert cs == [cs[0]] + cs[1..];
      (if keep(cs[0]) then [cs[0]] else []) + Select(keep, cs[1..])
  }

  function DisplayOf(stored: seq<string>, entries: seq<Entry>): Display {
    var categories := Select((c: string) => !NonAccusatory(c), stored);
    var accusatory := Select(Accusatory, categories);
    if AwaitsReview(entries) then NeedsReview(false)
    else if accusatory != [] then
      if Select((c: string) => !ConfirmedIn(entries, c), accusatory) != [] then NeedsReview(entries == [])
      else ConfirmedCategory(accusatory[0])
    else if categories == [] then NoIssue
    else ConfirmedCategory(categories[0])
  }

  function VisibleLevel(level: string, display: Display): string {
    if display.ConfirmedCategory? then level else if Rank(level) >= HIGH then "medium" else level
  }

  // ---------------------------------------------------------------- reading stored diagnostics

  function ReadEntry(v: Json): seq<Entry> {
    var c, d := Get(v, "category"), Get(v, "verdict");
    if IsObject(v) && c.Str? && d.Str? && c.s != "" && d.s != "" then [Entry(c.s, d.s)] else []
  }

  function ReadEntries(items: seq<Json>): seq<Entry> {
    if items == [] then [] else ReadEntries(items[..|items| - 1]) + ReadEntry(items[|items| - 1])
  }

  /** Anything that is not a gate with a list of decisions reads as no gate. */
  function DecisionList(diagnostics: Json): seq<Json> {
    var gate := Get(diagnostics, "evidenceGate");
    var raw := Get(gate, "decisions");
    if raw.Arr? then raw.items else []
  }

  function ReadGate(diagnostics: Json): seq<Entry> { ReadEntries(DecisionList(diagnostics)) }

  /** The item is an object that carries exactly this category and this verdict, neither of them empty. */
  predicate Carries(item: Json, e: Entry) {
    item.Obj? && Get(item, "category") == Str(e.category) && Get(item, "verdict") == Str(e.verdict) && e.category != "" && e.verdict != ""
  }

  /** From any stored value whatever, the reader yields exactly what some item of evidenceGate.decisions
      carries, when that is a list, and nothing otherwise. */
  lemma ReadGateIff(diagnostics: Json, e: Entry)
    ensures e in ReadGate(diagnostics) <==>
      (var raw := Get(Get(diagnostics, "evidenceGate"), "decisions"); raw.Arr? && exists d :: d in raw.items && Carries(d, e))
  {
    hide Get;
    EntriesIff(DecisionList(diagnostics), e);
  }

  lemma {:induction false} EntriesIff(items: seq<Json>, e: Entry)
    ensures e in ReadEntries(items) <==> exists d :: d in items && Carries(d, e)
  {
    hide Carries, ReadEntry;
    if items != [] {
      var n := |items| - 1;
      EntriesIff(items[..n], e);
      assert items == items[..n] + [items[n]];
      EntryIff(items[n], e);
    }
  }

  lemma EntryIff(item: Json, e: Entry)
    ensures e in ReadEntry(item) <==> Carries(item, e)
  {
    hide Find;
  }

  method ReadEvidenceGateDecisions(diagnostics: Json) returns (out: seq<Entry>)
    ensures out == ReadGate(diagnostics)
  {
    if !diagnostics.Obj? { return []; }
    var gate := Get(diagnostics, "evidenceGate");
    if !gate.Obj? { return []; }
    var raw := Get(gate, "decisions");
    if !raw.Arr? { return []; }
    out := [];
    for i := 0 to |raw.items|
      invariant out == ReadEntries(raw.items[..i])
    {
      var d := raw.items[i];
      assert raw.items[..i + 1][..i] == raw.items[..i];
      if !IsObject(d) { continue; }
      var category, verdict := Get(d, "category"), Get(d, "verdict");
      if !category.Str? || !verdict.Str? { continue; }
      if category.s == "" || verdict.s == "" { continue; }
      out := out + [Entry(category.s, verdict.s)];
    }
    assert raw.items[..|raw.items|] == raw.items;
  }

  // ---------------------------------------------------------------- projecting a stored row

  datatype AutoProtect = AutoProtect(decision: string, matchedCategory: string)

  datatype StoredRow = StoredRow(riskLevel: string, riskCategories: Option<seq<string>>, diagnostics: Json, autoProtect: Option<AutoProtect>)

  datatype State = StateConfirmed | StateReview | StateNoIssue

  datatype AutoState = AutoConfirmed | AutoStale | AutoNone

  datatype AutoView = AutoView(state: AutoState, decision: Option<string>, matchedCategory: Option<string>, countsTowardWouldAutoHide: bool, requiresReanalysis: bool)

  datatype Projection = Projection(
    state: State, categories: seq<string>, riskLevel: string, legacyUnverified: bool, requiresReview: bool,
    eligibleForCategoryTotals: bool, eligibleForSeverityTotals: bool, autoProtect: AutoView,
    storedLevel: string, storedCategories: seq<string>)

  function StoredCategories(row: StoredRow): seq<string> { if row.riskCategories.Some? then row.riskCategories.value else [] }

  function StateOf(display: Display): State {
    match display case ConfirmedCategory(_) => StateConfirmed case NeedsReview(_) => StateReview case NoIssue => StateNoIssue
  }

  /** The categories the gate stands behind, or the descriptive ones. */
  function ShownCategories(stored: seq<string>, entries: seq<Entry>): seq<string> {
    Select((c: string) => !NonAccusatory(c) && (!Accusatory(c) || ConfirmedIn(entries, c)), stored)
  }

  function AutoViewOf(ap: Option<AutoProtect>, state: State): AutoView {
    if ap.None? then AutoView(AutoNone, None, None, false, false)
    else
      var currentNoIssue := state.StateNoIssue? && ap.value.matchedCategory == "normal_criticism"
        && (ap.value.decision == "no_action" || ap.value.decision == "monitor" || ap.value.decision == "blocked_by_safety");
      if state.StateConfirmed? || currentNoIssue
      then AutoView(AutoConfirmed, Some(ap.value.decision), Some(ap.value.matchedCategory), ap.value.decision == "would_auto_hide", false)
      else AutoView(AutoStale, None, None, false, true)
  }

  function Project(row: StoredRow): Projection {
    var stored := StoredCategories(row);
    var entries := ReadGate(row.diagnostics);
    var display := DisplayOf(stored, entries);
    var state := StateOf(display);
    Projection(
      state,
      if state.StateConfirmed? then ShownCategories(stored, entries) else [],
      VisibleLevel(row.riskLevel, display),
      (exists c :: c in stored && Accusatory(c)) && entries == [],
      state.StateReview?,
      state.StateConfirmed?,
      state.StateConfirmed? && (row.riskLevel == "high" || row.riskLevel == "critical"),
      AutoViewOf(row.autoProtect, state),
      row.riskLevel, stored)
  }

  /** Some stored accusation lacks a confirmation of exactly that category. */
  predicate Unbacked(stored: seq<string>, entries: seq<Entry>) {
    exists c :: c in stored && Accusatory(c) && !ConfirmedIn(entries, c)
  }

  /** The state of a row, from the row: review while anything awaits review or any accusation is
      unbacked; otherwise confirmed when something is left to show. */
  lemma ProjectionState(row: StoredRow)
    ensures var stored, entries := StoredCategories(row), ReadGate(row.diagnostics);
      var p := Project(row);
      && (p.state.StateReview? <==> AwaitsReview(entries) || Unbacked(stored, entries))
      && (p.state.StateNoIssue? <==> !p.state.StateReview? && forall c :: c in stored ==> NonAccusatory(c))
  {
    hide Accusatory, ConfirmedIn, AwaitsReview, NonAccusatory, ReadGate;
    var stored, entries := StoredCategories(row), ReadGate(row.diagnostics);
    DisplayState(stored, entries);
  }

  lemma AccusationsAccuse(c: string)
    requires Accusatory(c)
    ensures !NonAccusatory(c)
  {
  }

  lemma DisplayState(stored: seq<string>, entries: seq<Entry>)
    ensures DisplayOf(stored, entries).NeedsReview? <==> AwaitsReview(entries) || Unbacked(stored, entries)
    ensures DisplayOf(stored, entries).NoIssue? <==>
      !DisplayOf(stored, entries).NeedsReview? && forall c :: c in stored ==> NonAccusatory(c)
  {
    hide Accusatory, ConfirmedIn, AwaitsReview, NonAccusatory;
    var categories := Select((c: string) => !NonAccusatory(c), stored);
    var accusatory := Select(Accusatory, categories);
    var unverified := Select((c: string) => !ConfirmedIn(entries, c), accusatory);
    forall c | Accusatory(c) ensures !NonAccusatory(c) { AccusationsAccuse(c); }
    forall c ensures c in accusatory <==> c in stored && Accusatory(c) {}
    forall c ensures c in unverified <==> c in stored && Accusatory(c) && !ConfirmedIn(entries, c) {}
    if accusatory != [] { assert accusatory[0] in accusatory; }
    if unverified != [] { assert unverified[0] in unverified; }
    if categories != [] { assert categories[0] in categories; }
  }

  /** Fail-closed: an accusation is shown only when the gate confirmed exactly it and nothing awaits
      review; a high level is shown only on a confirmed row, which always has a category to show. */
  lemma ShownOnlyIfConfirmed(row: StoredRow)
    ensures var p, entries := Project(row), ReadGate(row.diagnostics);
      && (forall c :: c in p.categories && Accusatory(c) ==> ConfirmedIn(entries, c) && !AwaitsReview(entries))
      && (p.state.StateConfirmed? <==> p.categories != [])
      && (p.state.StateConfirmed? ==> forall c :: c in p.categories <==> c in StoredCategories(row) && !NonAccusatory(c))
      && p.riskLevel == (if !p.state.StateConfirmed? && Rank(row.riskLevel) >= HIGH then "medium" else row.riskLevel)
      && (p.autoProtect.countsTowardWouldAutoHide ==> p.state.StateConfirmed?)
      && (row.autoProtect.Some? && p.state.StateReview? ==> p.autoProtect.decision == None && p.autoProtect.requiresReanalysis)
  {
    hide Accusatory, ConfirmedIn, AwaitsReview, NonAccusatory, ReadGate;
    var stored, entries := StoredCategories(row), ReadGate(row.diagnostics);
    DisplayState(stored, entries);
    ProjectionState(row);
    if Project(row).state.StateConfirmed? {
      var c :| c in stored && !NonAccusatory(c);
      assert c in ShownCategories(stored, entries);
    }
  }
}
