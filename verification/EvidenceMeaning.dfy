/** The matcher, the gate's tables and the customer projection in written-out terms. */
module EvidenceMeaning {
  import opened Optional
  import opened JsonTree
  import opened EvidenceSpans
  import opened EvidenceGate
  import opened Reputation

  // ---------------------------------------------------------------- words

  /** The characters of a word: letters, digits and the mask. */
  const ALPHABET: set<char> := {
    'a', 'b', 'c', 'd', 'e', 'f', 'g', 'h', 'i', 'j', 'k', 'l', 'm', 'n', 'o', 'p', 'q', 'r', 's', 't', 'u', 'v', 'w', 'x', 'y', 'z',
    '0', '1', '2', '3', '4', '5', '6', '7', '8', '9', '*'}

  lemma AlphabetIs(c: char)
    ensures WordChar(c) <==> c in ALPHABET
  {
  }

  /** No word goes on at i. */
  predicate WordEnds(hay: string, i: nat) { i >= |hay| || hay[i] !in ALPHABET }

  /** The word that starts at i ends at e. */
  predicate WordIs(hay: string, i: nat, e: nat) {
    i <= e <= |hay| && WordEnds(hay, e) && forall k :: i <= k < e ==> hay[k] in ALPHABET
  }

  /** Where a term occurs: at the start of a word, each of its characters standing there or masked; a phrase up to the end
      of a word, a single word with the rest of the whole word among the allowed endings and the word not known to be safe. */
  ghost predicate Found(hay: string, term: string, lex: Lexicon, i: nat) {
    && term != "" && i + |term| <= |hay| && (i == 0 || hay[i - 1] !in ALPHABET)
    && (forall j :: 0 <= j < |term| ==> hay[i + j] == term[j] || hay[i + j] == '*')
    && if ' ' in term then WordEnds(hay, i + |term|)
       else exists e: nat :: WordIs(hay, i, e) && hay[i..e] !in lex.safeWords
              && (if i + |term| <= e then hay[i + |term|..e] in lex.suffixes else "" in lex.suffixes)
  }

  lemma WordUnique(hay: string, i: nat, e: nat, e': nat)
    requires WordIs(hay, i, e) && WordIs(hay, i, e')
    ensures e == e'
  {
  }

  lemma TokenIsWord(hay: string, i: nat)
    requires i <= |hay|
    ensures WordIs(hay, i, TokenEnd(hay, i))
  {
    hide TokenEnd;
    forall c ensures WordChar(c) <==> c in ALPHABET { AlphabetIs(c); }
  }

  lemma SuffixOf(hay: string, n: nat, i: nat, e: nat)
    requires i <= e <= |hay|
    ensures Suffix(hay[i..e], n) == if i + n <= e then hay[i + n..e] else ""
  {
  }

  lemma OccursIff(hay: string, term: string, lex: Lexicon, i: nat)
    ensures Occurs(hay, term, lex, i) <==> Found(hay, term, lex, i)
  {
    hide TokenEnd, Suffix, WordIs, WordChar;
    if i > 0 && i <= |hay| { AlphabetIs(hay[i - 1]); }
    if i + |term| < |hay| { AlphabetIs(hay[i + |term|]); }
    if i + |term| <= |hay| {
      var e := TokenEnd(hay, i);
      TokenIsWord(hay, i);
      SuffixOf(hay, |term|, i, e);
      forall e': nat | WordIs(hay, i, e') ensures e' == e { WordUnique(hay, i, e, e'); }
    }
  }

  /** A span names category and term, and shows the whole phrase or the whole word. */
  lemma SpanShows(hay: string, term: string, category: string, i: nat)
    requires i + |term| <= |hay|
    ensures var s := SpanAt(hay, term, category, i);
      && s.category == category && s.term == term && s.start == i && i <= s.end <= |hay| && s.text == hay[i..s.end]
      && (if ' ' in term then s.end == i + |term| else WordIs(hay, i, s.end))
  {
    TokenIsWord(hay, i);
  }

  // ---------------------------------------------------------------- tables

  /** The accusing categories with the confidence each needs. */
  lemma AccusationTable(c: string)
    ensures Accusatory(c) <==>
      Threshold(c) > 0.7 && c in {"profanity", "hate_speech", "racism", "harassment", "personal_attack", "threat", "violence",
                                  "terrorism_extremism", "sexual_vulgarity", "scam", "phishing"}
    ensures c in {"profanity", "harassment", "personal_attack", "scam", "phishing"} ==> Threshold(c) == 0.8
    ensures c in {"hate_speech", "racism", "threat", "violence", "sexual_vulgarity"} ==> Threshold(c) == 0.85
    ensures c == "terrorism_extremism" ==> Threshold(c) == 0.9
    ensures !Accusatory(c) ==> Threshold(c) == 0.7
  {
  }

  /** The levels ascend; any other text counts as none. */
  lemma LevelOrder(level: string)
    ensures Rank("none") < Rank("low") < Rank("medium") < Rank("high") < Rank("critical")
    ensures level !in ["low", "medium", "high", "critical"] ==> Rank(level) == Rank("none")
    ensures Rank(level) >= HIGH <==> level == "high" || level == "critical"
  {
  }

  /** What one claim is worth: an accusation is confirmed only by evidence at a sufficient confidence, and nothing ambiguous that the rules
      do not share confirms it; without evidence a claim of the provider alone is held, any other rejected. */
  lemma DecideReads(c: Claim)
    ensures var d, accused := Decide(c), Accusatory(c.category); var lone := !c.parserOk && !c.rulesAgree;
      && d.category == c.category
      && (!accused ==> d.verdict == Confirmed && d.reason == "not_evidence_gated")
      && (accused && lone ==> d.verdict == ReviewRequired && d.reason == "provider_output_ambiguous")
      && (accused && !lone && c.validEvidence == 0 && c.aiClaimed && !c.rulesAgree ==>
            d.verdict == ReviewRequired && d.reason == "ai_claim_without_evidence")
      && (accused && !lone && c.validEvidence == 0 && (!c.aiClaimed || c.rulesAgree) ==> d.verdict == Rejected && d.reason == "no_valid_evidence_span")
      && (accused && !lone && c.validEvidence > 0 && c.confidence < Threshold(c.category) ==>
            d.verdict == ReviewRequired && d.reason == "below_category_threshold")
      && (accused && !lone && c.validEvidence > 0 && c.confidence >= Threshold(c.category) ==>
            d.verdict == Confirmed && d.reason == "evidence_validated")
  {
    hide Accusatory, Threshold;
  }

  /** The categories that count as risky and those that are legitimate complaints. */
  lemma BucketTables()
    ensures RISKY == {"spam", "scam", "phishing", "hate_speech", "racism", "threat", "violence", "terrorism_extremism", "sexual_vulgarity",
                      "profanity", "personal_attack", "brand_impersonation", "coordinated_attack", "crisis_keyword"}
    ensures LEGIT_NEGATIVE == {"refund_complaint", "legal_complaint", "safety_claim", "complaint", "customer_complaint", "delivery_issue",
                               "quality_issue", "pricing_issue", "support_issue"}
    ensures HIGH_LEVELS == {"high", "critical"}
  {
  }

  /** Why a severity stands as it does. */
  lemma SeverityReads(base: string, proposed: string, ds: seq<Decision>)
    ensures var s := SeverityFor(base, proposed, ds);
      var backed := exists d :: d in ds && d.verdict == Confirmed && Accusatory(d.category);
      && s.level == (if Rank(proposed) > Rank(base) && backed then proposed else base)
      && (s.capped <==> Rank(proposed) > Rank(base) && !backed)
      && (s.reason == "no_escalation_proposed" <==> Rank(proposed) <= Rank(base))
      && (s.reason == "confirmed_harm" <==> Rank(proposed) > Rank(base) && backed)
      && (s.reason == "escalation_without_confirmed_evidence" <==> s.capped)
  {
    hide Rank, Accusatory;
    forall d ensures ConfirmedAccusation(d) <==> d.verdict == Confirmed && Accusatory(d.category) {}
    hide ConfirmedAccusation;
  }

  // ---------------------------------------------------------------- the projection

  /** The gate, as stored, confirmed exactly this category. */
  predicate Confirms(entries: seq<Entry>, c: string) { Entry(c, "confirmed") in entries }

  lemma ConfirmsIff(entries: seq<Entry>, c: string)
    ensures ConfirmedIn(entries, c) <==> Confirms(entries, c)
  {
    if e :| e in entries && EntryConfirms(e, c) { assert e == Entry(c, "confirmed"); }
    if Confirms(entries, c) { assert EntryConfirms(Entry(c, "confirmed"), c); }
  }

  /** Which categories are shown, in which order, and for which reason a row is not confirmed. */
  lemma ProjectionReads(row: StoredRow, c: string)
    ensures var p, stored, entries := Project(row), StoredCategories(row), ReadGate(row.diagnostics);
      && stored == (match row.riskCategories case None => [] case Some(cs) => cs)
      && (p.state == StateReview <==>
            (exists e :: e in entries && e.verdict == "review_required") || (exists x :: x in stored && Accusatory(x) && !Confirms(entries, x)))
      && (p.state == StateNoIssue <==> p.state != StateReview && forall x :: x in stored ==> x == "neutral" || x == "positive")
      && (c in p.categories <==> p.state == StateConfirmed && c in stored && c != "neutral" && c != "positive")
      && p.requiresReview == (p.state == StateReview)
  {
    hide Accusatory, ConfirmedIn, ReadGate, Confirms, AwaitsReview;
    var stored, entries := StoredCategories(row), ReadGate(row.diagnostics);
    ProjectionState(row);
    ShownOnlyIfConfirmed(row);
    forall x ensures ConfirmedIn(entries, x) <==> Confirms(entries, x) { ConfirmsIff(entries, x); }
    assert AwaitsReview(entries) <==> exists e :: e in entries && e.verdict == "review_required" by { AwaitsIff(entries); }
    FlagsOf(row);
    hide Project;
  }

  lemma AwaitsIff(entries: seq<Entry>)
    ensures AwaitsReview(entries) <==> exists e :: e in entries && e.verdict == "review_required"
  {
  }

  /** What counts where: a confirmed row in the category totals; in the severity totals one stored at high or critical; an
      accusation without any gate entry as legacy. The raw columns are kept as stored. */
  lemma ProjectionFlags(row: StoredRow)
    ensures var p := Project(row);
      && (p.eligibleForCategoryTotals <==> p.state == StateConfirmed)
      && (p.eligibleForSeverityTotals <==> p.state == StateConfirmed && (row.riskLevel == "high" || row.riskLevel == "critical"))
      && (p.legacyUnverified <==> ReadGate(row.diagnostics) == [] && exists c :: c in StoredCategories(row) && Accusatory(c))
      && p.riskLevel == (if p.state != StateConfirmed && (row.riskLevel == "high" || row.riskLevel == "critical") then "medium" else row.riskLevel)
      && p.storedLevel == row.riskLevel && p.storedCategories == StoredCategories(row)
  {
    hide Accusatory, ReadGate, ShownCategories, AutoViewOf, DisplayOf;
    LevelOrder(row.riskLevel);
    hide Rank;
  }

  /** The first of the selected is the first that may be kept. */
  lemma {:induction false} SelectFirst(keep: string -> bool, cs: seq<string>)
    ensures var r := Select(keep, cs);
      r != [] ==> exists i :: 0 <= i < |cs| && cs[i] == r[0] && keep(r[0]) && forall j :: 0 <= j < i ==> !keep(cs[j])
  {
    var r := Select(keep, cs);
    if cs != [] {
      if keep(cs[0]) {
        assert cs[0] == r[0];
      } else {
        SelectFirst(keep, cs[1..]);
        assert r == Select(keep, cs[1..]);
        if r != [] {
          var i :| 0 <= i < |cs[1..]| && cs[1..][i] == r[0] && keep(r[0]) && forall j :: 0 <= j < i ==> !keep(cs[1..][j]);
          assert cs[i + 1] == r[0];
          forall j | 0 <= j < i + 1 ensures !keep(cs[j]) { if j > 0 { assert cs[j] == cs[1..][j - 1]; } }
        }
      }
    }
  }

  lemma {:induction false} SelectTwice(k: string -> bool, m: string -> bool, both: string -> bool, cs: seq<string>)
    requires forall c :: both(c) <==> k(c) && m(c)
    ensures Select(m, Select(k, cs)) == Select(both, cs)
  {
    if cs != [] {
      SelectTwice(k, m, both, cs[1..]);
      var rest := Select(k, cs[1..]);
      if k(cs[0]) { assert ([cs[0]] + rest)[1..] == rest; } else { assert [] + rest == rest; }
    }
  }

  /** Which category a badge names: the first accusation, every one of them being confirmed, or without any the first that describes. */
  lemma BadgeNames(stored: seq<string>, entries: seq<Entry>, c: string)
    requires DisplayOf(stored, entries) == ConfirmedCategory(c)
    ensures c != "neutral" && c != "positive"
    ensures Accusatory(c) ==>
      Confirms(entries, c) && exists i :: 0 <= i < |stored| && stored[i] == c && forall j :: 0 <= j < i ==> !Accusatory(stored[j])
    ensures !Accusatory(c) ==>
      && (forall x :: x in stored ==> !Accusatory(x))
      && exists i :: 0 <= i < |stored| && stored[i] == c && forall j :: 0 <= j < i ==> stored[j] == "neutral" || stored[j] == "positive"
  {
    hide Accusatory, ConfirmedIn, AwaitsReview, Confirms, Select;
    forall x ensures ConfirmedIn(entries, x) <==> Confirms(entries, x) { ConfirmsIff(entries, x); }
    forall x | Accusatory(x) ensures !NonAccusatory(x) { AccusationsAccuse(x); }
    var shown: string -> bool := (x: string) => !NonAccusatory(x);
    var accuses: string -> bool := Accusatory;
    var categories := Select(shown, stored);
    var accusatory := Select(accuses, categories);
    SelectTwice(shown, accuses, accuses, stored);
    SelectFirst(accuses, stored);
    SelectFirst(shown, stored);
    BadgeIs(stored, entries, categories, accusatory, c);
  }

  lemma BadgeIs(stored: seq<string>, entries: seq<Entry>, categories: seq<string>, accusatory: seq<string>, c: string)
    requires categories == Select((x: string) => !NonAccusatory(x), stored) && accusatory == Select(Accusatory, categories)
    requires DisplayOf(stored, entries) == ConfirmedCategory(c)
    ensures if accusatory != [] then c == accusatory[0] && ConfirmedIn(entries, c) else categories != [] && c == categories[0]
  {
    hide Accusatory, ConfirmedIn, AwaitsReview, NonAccusatory;
    if accusatory != [] { assert accusatory[0] in accusatory; }
  }

  /** A review badge speaks of legacy data exactly when an accusation is stored without any gate entry. */
  lemma LegacyBadge(stored: seq<string>, entries: seq<Entry>)
    ensures DisplayOf(stored, entries) == NeedsReview(true) <==> entries == [] && exists c :: c in stored && Accusatory(c)
  {
    hide Accusatory;
    DisplayState(stored, entries);
    forall x | Accusatory(x) ensures !NonAccusatory(x) { AccusationsAccuse(x); }
    if entries == [] { assert !AwaitsReview(entries); forall c ensures !ConfirmedIn(entries, c) {} }
    hide ConfirmedIn, AwaitsReview, NonAccusatory;
    var accusatory := Select(Accusatory, Select((c: string) => !NonAccusatory(c), stored));
    forall c ensures c in accusatory <==> c in stored && Accusatory(c) {}
    if accusatory != [] { assert accusatory[0] in accusatory; }
  }

  /** What is shown of a stored protection decision: all of it on a confirmed row; nothing on any other, except that a clean
      row keeps a decision about ordinary criticism that does not act. */
  lemma ProtectionReads(row: StoredRow)
    ensures var p, view := Project(row), Project(row).autoProtect;
      match row.autoProtect
      case None => view == AutoView(AutoNone, None, None, false, false)
      case Some(ap) =>
        var stands := p.state == StateConfirmed
          || (p.state == StateNoIssue && ap.matchedCategory == "normal_criticism" && ap.decision in ["no_action", "monitor", "blocked_by_safety"]);
        if stands then view == AutoView(AutoConfirmed, Some(ap.decision), Some(ap.matchedCategory), ap.decision == "would_auto_hide", false)
        else view == AutoView(AutoStale, None, None, false, true)
  {
    hide ReadGate, ShownCategories, DisplayOf, VisibleLevel, Accusatory;
  }

  // ---------------------------------------------------------------- persisted columns

  /** The columns as written. */
  lemma ColumnsWritten(row: StoredRow)
    ensures var p, c := Project(row), Persisted(row);
      && (c.state == Some("confirmed") <==> p.state == StateConfirmed) && (c.state == Some("review_required") <==> p.state == StateReview)
      && (c.state == Some("no_issue") <==> p.state == StateNoIssue)
      && c.level == Some(p.riskLevel) && c.categories == p.categories && c.version == Some(1)
      && c.reanalysis == Some(p.requiresReview || p.autoProtect.requiresReanalysis)
      && PersistedAfterClassification(row) == c.(reanalysis := Some(false))
  {
    hide Project;
  }

  /** The columns as read, whoever wrote them. */
  lemma ColumnsRead(c: Columns)
    ensures var r := Read(c);
      && (r.stale <==>
            || c.version.None? || c.version.value < 1
            || c.state !in [Some("confirmed"), Some("review_required"), Some("no_issue")] || (c.state == Some("confirmed") && c.categories == []))
      && (r.stale ==> r.state == StateReview && r.categories == [] && r.riskLevel == "medium" && r.requiresReanalysis)
      && (!r.stale ==>
            && (r.state == StateConfirmed <==> c.state == Some("confirmed")) && (r.state == StateReview <==> c.state == Some("review_required"))
            && r.categories == (if c.state == Some("confirmed") then c.categories else [])
            && (r.requiresReanalysis <==> c.reanalysis == Some(true))
            && r.riskLevel == (if c.level == None || c.level == Some("") then "none"
                               else if c.state != Some("confirmed") && c.level.value in ["high", "critical"] then "medium" else c.level.value))
  {
    if c.level.Some? { LevelOrder(c.level.value); }
    LevelOrder("none");
    hide Rank;
  }

  // ---------------------------------------------------------------- tallies

  /** Counting rows one by one gives the number of rows kept. */
  lemma {:induction false} CountsRows(keep: StoredRow -> bool, rows: seq<StoredRow>)
    ensures CountRows(keep, rows) == |set i | 0 <= i < |rows| && keep(rows[i])|
  {
    var kept := set i | 0 <= i < |rows| && keep(rows[i]);
    if rows == [] {
      assert kept == {};
    } else {
      var n := |rows| - 1;
      CountsRows(keep, rows[..n]);
      var before := set i | 0 <= i < |rows[..n]| && keep(rows[..n][i]);
      assert kept == before + if keep(rows[n]) then {n} else {};
    }
  }

  /** A category counts as often as the rows show it. */
  lemma {:induction false} CountsShown(c: string, cs: seq<string>, rows: seq<StoredRow>, row: StoredRow)
    ensures Occurrences(c, cs) == multiset(cs)[c]
    ensures ShownCount(c, []) == 0 && ShownCount(c, rows + [row]) == ShownCount(c, rows) + multiset(Project(row).categories)[c]
  {
    hide Project;
    CountsOccurrences(c, cs);
    CountsOccurrences(c, Project(row).categories);
    assert (rows + [row])[..|rows|] == rows;
  }

  lemma {:induction false} CountsOccurrences(c: string, cs: seq<string>)
    ensures Occurrences(c, cs) == multiset(cs)[c]
  {
    if cs != [] {
      var n := |cs| - 1;
      CountsOccurrences(c, cs[..n]);
      assert cs == cs[..n] + [cs[n]];
    }
  }
}
