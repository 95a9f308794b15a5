/** Query push-down: predicates over stored rows that select exactly what the in-memory readers compute. */
module Reputation {
  import opened Optional
  import opened EvidenceGate

  // ---------------------------------------------------------------- persisted projection

  const PROJECTION_VERSION := 1

  /** The persisted columns; an absent value is a database null. */
  datatype Columns = Columns(state: Option<string>, level: Option<string>, categories: seq<string>, version: Option<int>, reanalysis: Option<bool>)

  function StateText(s: State): string {
    match s case StateConfirmed => "confirmed" case StateReview => "review_required" case StateNoIssue => "no_issue"
  }

  function Persisted(row: StoredRow): Columns {
    var p := Project(row);
    Columns(Some(StateText(p.state)), Some(p.riskLevel), p.categories, Some(PROJECTION_VERSION),
            Some(p.requiresReview || p.autoProtect.requiresReanalysis))
  }

  function PersistedAfterClassification(row: StoredRow): Columns { Persisted(row).(reanalysis := Some(false)) }

  datatype Reading = Reading(state: State, categories: seq<string>, riskLevel: string, requiresReanalysis: bool, stale: bool)

  const UNREADABLE := Reading(StateReview, [], "medium", true, true)

  function Read(c: Columns): Reading {
    if c.version.None? || c.version.value < PROJECTION_VERSION then UNREADABLE
    else if c.state != Some("confirmed") && c.state != Some("review_required") && c.state != Some("no_issue") then UNREADABLE
    else if c.state == Some("confirmed") && c.categories == [] then UNREADABLE
    else
      var level := if c.level.Some? && c.level.value != "" then c.level.value else "none";
      if c.state == Some("confirmed") then Reading(StateConfirmed, c.categories, level, c.reanalysis == Some(true), false)
      else
        Reading(if c.state == Some("review_required") then StateReview else StateNoIssue, [],
                if Rank(level) >= HIGH then "medium" else level, c.reanalysis == Some(true), false)
  }

  /** Write/read: the persisted columns are never stale and read back as the projection they came
      from; the level does so exactly when it is not the empty text. */
  lemma WriteReadRoundTrip(row: StoredRow)
    ensures var p, r := Project(row), Read(Persisted(row));
      && !r.stale && r.state == p.state && r.categories == p.categories
      && r.requiresReanalysis == (p.requiresReview || p.autoProtect.requiresReanalysis)
      && (r.riskLevel == p.riskLevel <==> row.riskLevel != "")
    ensures var r := Read(Persisted(row)); Read(PersistedAfterClassification(row)) == r.(requiresReanalysis := false)
  {
    hide Project, Rank;
    ShownOnlyIfConfirmed(row);
    ProjectedLevel(row);
  }

  lemma ProjectedLevel(row: StoredRow)
    ensures var p := Project(row);
      && (p.riskLevel == "" <==> row.riskLevel == "")
      && (p.state.StateConfirmed? || Rank(p.riskLevel) < HIGH)
      && (!p.state.StateConfirmed? ==> p.categories == [])
      && Rank("none") == 0
  {
    hide DisplayOf, ReadGate, ShownCategories, AutoViewOf;
  }

  // ---------------------------------------------------------------- predicates over rows

  /** The columns a predicate can look at. */
  datatype DbRow = DbRow(riskCategories: seq<string>, riskLevel: string, sentiment: string, customer: Columns)

  datatype Where =
    | And(ws: seq<Where>) | Or(ws: seq<Where>) | Not(w: Where)
    | CategoriesHas(c: string) | CategoriesHasSome(cs: set<string>) | RiskLevelIn(ls: set<string>) | SentimentIs(s: string)
    | CustomerStateIs(s: string) | CustomerStateNull | CustomerVersionNull | CustomerVersionBelow(n: int) | CustomerVersionAtLeast(n: int)
    | CustomerCategoriesHasSome(cs: set<string>) | CustomerLevelIn(ls: set<string>)

  /** Whether the database selects the row; comparing a null selects nothing. */
  predicate Selects(w: Where, row: DbRow)
    decreases w
  {
    match w
    case And(ws) => forall i :: 0 <= i < |ws| ==> Selects(ws[i], row)
    case Or(ws) => exists i :: 0 <= i < |ws| && Selects(ws[i], row)
    case Not(v) => !Selects(v, row)
    case CategoriesHas(c) => c in row.riskCategories
    case CategoriesHasSome(cs) => exists c :: c in row.riskCategories && c in cs
    case RiskLevelIn(ls) => row.riskLevel in ls
    case SentimentIs(s) => row.sentiment == s
    case CustomerStateIs(s) => row.customer.state == Some(s)
    case CustomerStateNull => row.customer.state.None?
    case CustomerVersionNull => row.customer.version.None?
    case CustomerVersionBelow(n) => row.customer.version.Some? && row.customer.version.value < n
    case CustomerVersionAtLeast(n) => row.customer.version.Some? && row.customer.version.value >= n
    case CustomerCategoriesHasSome(cs) => exists c :: c in row.customer.categories && c in cs
    case CustomerLevelIn(ls) => row.customer.level.Some? && row.customer.level.value in ls
  }

  const RISKY: set<string> := {
    "spam", "scam", "phishing", "hate_speech", "racism", "threat", "violence",
    "terrorism_extremism", "sexual_vulgarity", "profanity", "personal_attack",
    "brand_impersonation", "coordinated_attack", "crisis_keyword"
  }

  const LEGIT_NEGATIVE: set<string> := {
    "refund_complaint", "legal_complaint", "safety_claim", "complaint",
    "customer_complaint", "delivery_issue", "quality_issue", "pricing_issue", "support_issue"
  }

  const HIGH_LEVELS: set<string> := {"high", "critical"}

  // ---------------------------------------------------------------- sentiment buckets

  datatype Bucket = Positive | Neutral | Negative | Risky

  function BySentiment(s: string): Bucket { if s == "positive" then Positive else if s == "negative" then Negative else Neutral }

  /** Customer voice first, then harm, then the stored sentiment. */
  function BucketOf(row: DbRow): Bucket {
    if "positive_feedback" in row.riskCategories then Positive
    else if "customer_question" in row.riskCategories then Neutral
    else if "normal_criticism" in row.riskCategories then BySentiment(row.sentiment)
    else if exists c :: c in row.riskCategories && c in LEGIT_NEGATIVE then Negative
    else if exists c :: c in row.riskCategories && c in RISKY then Risky
    else if row.riskLevel in HIGH_LEVELS then Risky
    else BySentiment(row.sentiment)
  }

  const HAS_POSITIVE := CategoriesHas("positive_feedback")
  const HAS_QUESTION := CategoriesHas("customer_question")
  const HAS_CRITICISM := CategoriesHas("normal_criticism")
  const HAS_LEGITIMATE := CategoriesHasSome(LEGIT_NEGATIVE)
  const HAS_RISKY := CategoriesHasSome(RISKY)
  const RISK_HIGH := RiskLevelIn(HIGH_LEVELS)
  const FELL_THROUGH := [Not(HAS_POSITIVE), Not(HAS_QUESTION), Not(HAS_CRITICISM), Not(HAS_LEGITIMATE), Not(HAS_RISKY), Not(RISK_HIGH)]

  function BucketWhere(b: Bucket): Where {
    match b
    case Positive => Or([
        HAS_POSITIVE,
        And([Not(HAS_POSITIVE), Not(HAS_QUESTION), HAS_CRITICISM, SentimentIs("positive")]),
        And(FELL_THROUGH + [SentimentIs("positive")])])
    case Neutral => Or([
        And([Not(HAS_POSITIVE), HAS_QUESTION]),
        And([Not(HAS_POSITIVE), Not(HAS_QUESTION), HAS_CRITICISM, SentimentIs("neutral")]),
        And(FELL_THROUGH + [SentimentIs("neutral")])])
    case Negative => Or([
        And([Not(HAS_POSITIVE), Not(HAS_QUESTION), HAS_CRITICISM, SentimentIs("negative")]),
        And([Not(HAS_POSITIVE), Not(HAS_QUESTION), Not(HAS_CRITICISM), HAS_LEGITIMATE]),
        And(FELL_THROUGH + [SentimentIs("negative")])])
    case Risky => And([Not(HAS_POSITIVE), Not(HAS_QUESTION), Not(HAS_CRITICISM), Not(HAS_LEGITIMATE), Or([HAS_RISKY, RISK_HIGH])])
  }

  predicate KnownSentiment(row: DbRow) { row.sentiment == "positive" || row.sentiment == "neutral" || row.sentiment == "negative" }

  /** The bucket is read off the stored sentiment. */
  predicate DependsOnSentiment(row: DbRow) {
    && "positive_feedback" !in row.riskCategories && "customer_question" !in row.riskCategories
    && ("normal_criticism" in row.riskCategories ||
        (row.riskLevel !in HIGH_LEVELS && forall c :: c in row.riskCategories ==> c !in LEGIT_NEGATIVE && c !in RISKY))
  }

  lemma AndOf(ws: seq<Where>, w: Where, row: DbRow)
    ensures Selects(And(ws + [w]), row) <==> Selects(And(ws), row) && Selects(w, row)
  {
    var all := ws + [w];
    if Selects(And(all), row) {
      assert all[|ws|] == w;
      forall i | 0 <= i < |ws| ensures Selects(ws[i], row) { assert all[i] == ws[i]; }
    }
  }

  lemma And2(a: Where, b: Where, row: DbRow)
    ensures Selects(And([a, b]), row) <==> Selects(a, row) && Selects(b, row)
  {
    var ws := [a, b];
    assert ws[0] == a && ws[1] == b;
  }

  lemma And4(a: Where, b: Where, c: Where, d: Where, row: DbRow)
    ensures Selects(And([a, b, c, d]), row) <==> Selects(a, row) && Selects(b, row) && Selects(c, row) && Selects(d, row)
  {
    And2(a, b, row);
    AndOf([a, b], c, row);
    AndOf([a, b, c], d, row);
    assert [a, b] + [c] == [a, b, c] && [a, b, c] + [d] == [a, b, c, d];
  }

  lemma Or2(a: Where, b: Where, row: DbRow)
    ensures Selects(Or([a, b]), row) <==> Selects(a, row) || Selects(b, row)
  {
    var ws := [a, b];
    assert ws[0] == a && ws[1] == b;
  }

  lemma Or3(a: Where, b: Where, c: Where, row: DbRow)
    ensures Selects(Or([a, b, c]), row) <==> Selects(a, row) || Selects(b, row) || Selects(c, row)
  {
    var ws := [a, b, c];
    assert ws[0] == a && ws[1] == b && ws[2] == c;
  }

  /** None of the categories or levels decides. */
  predicate Undecided(row: DbRow) {
    && "positive_feedback" !in row.riskCategories && "customer_question" !in row.riskCategories && "normal_criticism" !in row.riskCategories
    && (forall c :: c in row.riskCategories ==> c !in LEGIT_NEGATIVE && c !in RISKY) && row.riskLevel !in HIGH_LEVELS
  }

  lemma FellThroughMeans(s: string, row: DbRow)
    ensures Selects(And(FELL_THROUGH + [SentimentIs(s)]), row) <==> Undecided(row) && row.sentiment == s
  {
    AndOf(FELL_THROUGH, SentimentIs(s), row);
    And4(Not(HAS_POSITIVE), Not(HAS_QUESTION), Not(HAS_CRITICISM), Not(HAS_LEGITIMATE), row);
    AndOf([Not(HAS_POSITIVE), Not(HAS_QUESTION), Not(HAS_CRITICISM), Not(HAS_LEGITIMATE)], Not(HAS_RISKY), row);
    AndOf([Not(HAS_POSITIVE), Not(HAS_QUESTION), Not(HAS_CRITICISM), Not(HAS_LEGITIMATE), Not(HAS_RISKY)], Not(RISK_HIGH), row);
    assert [Not(HAS_POSITIVE), Not(HAS_QUESTION), Not(HAS_CRITICISM), Not(HAS_LEGITIMATE)] + [Not(HAS_RISKY)] == [Not(HAS_POSITIVE), Not(HAS_QUESTION), Not(HAS_CRITICISM), Not(HAS_LEGITIMATE), Not(HAS_RISKY)];
    assert [Not(HAS_POSITIVE), Not(HAS_QUESTION), Not(HAS_CRITICISM), Not(HAS_LEGITIMATE), Not(HAS_RISKY)] + [Not(RISK_HIGH)] == FELL_THROUGH;
    LeavesMean(row);
  }

  lemma LeavesMean(row: DbRow)
    ensures Selects(Not(HAS_POSITIVE), row) <==> "positive_feedback" !in row.riskCategories
    ensures Selects(Not(HAS_QUESTION), row) <==> "customer_question" !in row.riskCategories
    ensures Selects(Not(HAS_CRITICISM), row) <==> "normal_criticism" !in row.riskCategories
    ensures Selects(Not(HAS_LEGITIMATE), row) <==> forall c :: c in row.riskCategories ==> c !in LEGIT_NEGATIVE
    ensures Selects(Not(HAS_RISKY), row) <==> forall c :: c in row.riskCategories ==> c !in RISKY
    ensures Selects(Not(RISK_HIGH), row) <==> row.riskLevel !in HIGH_LEVELS
    ensures Selects(HAS_POSITIVE, row) <==> "positive_feedback" in row.riskCategories
    ensures Selects(HAS_QUESTION, row) <==> "customer_question" in row.riskCategories
    ensures Selects(HAS_CRITICISM, row) <==> "normal_criticism" in row.riskCategories
    ensures Selects(HAS_LEGITIMATE, row) <==> exists c :: c in row.riskCategories && c in LEGIT_NEGATIVE
    ensures Selects(HAS_RISKY, row) <==> exists c :: c in row.riskCategories && c in RISKY
    ensures Selects(RISK_HIGH, row) <==> row.riskLevel in HIGH_LEVELS
  {
  }

  /** What a bucket's predicate selects, as a condition on the row. */
  lemma BucketWhereMeans(row: DbRow)
    ensures Selects(BucketWhere(Positive), row) <==>
      || "positive_feedback" in row.riskCategories
      || ("customer_question" !in row.riskCategories && "normal_criticism" in row.riskCategories && row.sentiment == "positive")
      || (Undecided(row) && row.sentiment == "positive")
    ensures Selects(BucketWhere(Neutral), row) <==>
      && "positive_feedback" !in row.riskCategories
      && ("customer_question" in row.riskCategories || ("normal_criticism" in row.riskCategories && row.sentiment == "neutral") || (Undecided(row) && row.sentiment == "neutral"))
    ensures Selects(BucketWhere(Negative), row) <==>
      && "positive_feedback" !in row.riskCategories && "customer_question" !in row.riskCategories
      && (if "normal_criticism" in row.riskCategories then row.sentiment == "negative"
          else (exists c :: c in row.riskCategories && c in LEGIT_NEGATIVE) || (Undecided(row) && row.sentiment == "negative"))
    ensures Selects(BucketWhere(Risky), row) <==>
      && "positive_feedback" !in row.riskCategories && "customer_question" !in row.riskCategories && "normal_criticism" !in row.riskCategories
      && (forall c :: c in row.riskCategories ==> c !in LEGIT_NEGATIVE)
      && ((exists c :: c in row.riskCategories && c in RISKY) || row.riskLevel in HIGH_LEVELS)
  {
    hide Selects;
    LeavesMean(row);
    PositiveMeans(row);
    NeutralMeans(row);
    NegativeMeans(row);
    var base := [Not(HAS_POSITIVE), Not(HAS_QUESTION), Not(HAS_CRITICISM), Not(HAS_LEGITIMATE)];
    And4(Not(HAS_POSITIVE), Not(HAS_QUESTION), Not(HAS_CRITICISM), Not(HAS_LEGITIMATE), row);
    AndOf(base, Or([HAS_RISKY, RISK_HIGH]), row);
    Or2(HAS_RISKY, RISK_HIGH, row);
    assert base + [Or([HAS_RISKY, RISK_HIGH])] == [Not(HAS_POSITIVE), Not(HAS_QUESTION), Not(HAS_CRITICISM), Not(HAS_LEGITIMATE), Or([HAS_RISKY, RISK_HIGH])];
  }

  lemma SentimentMeans(s: string, row: DbRow)
    ensures Selects(SentimentIs(s), row) <==> row.sentiment == s
  {
  }

  lemma PositiveMeans(row: DbRow)
    ensures Selects(BucketWhere(Positive), row) <==>
      || Selects(HAS_POSITIVE, row)
      || (Selects(Not(HAS_POSITIVE), row) && Selects(Not(HAS_QUESTION), row) && Selects(HAS_CRITICISM, row) && row.sentiment == "positive")
      || (Undecided(row) && row.sentiment == "positive")
  {
    hide Selects, Undecided;
    var nc := And([Not(HAS_POSITIVE), Not(HAS_QUESTION), HAS_CRITICISM, SentimentIs("positive")]);
    Or3(HAS_POSITIVE, nc, And(FELL_THROUGH + [SentimentIs("positive")]), row);
    And4(Not(HAS_POSITIVE), Not(HAS_QUESTION), HAS_CRITICISM, SentimentIs("positive"), row);
    SentimentMeans("positive", row);
    FellThroughMeans("positive", row);
  }

  lemma NeutralMeans(row: DbRow)
    ensures Selects(BucketWhere(Neutral), row) <==>
      || (Selects(Not(HAS_POSITIVE), row) && Selects(HAS_QUESTION, row))
      || (Selects(Not(HAS_POSITIVE), row) && Selects(Not(HAS_QUESTION), row) && Selects(HAS_CRITICISM, row) && row.sentiment == "neutral")
      || (Undecided(row) && row.sentiment == "neutral")
  {
    hide Selects, Undecided;
    var q := And([Not(HAS_POSITIVE), HAS_QUESTION]);
    var nc := And([Not(HAS_POSITIVE), Not(HAS_QUESTION), HAS_CRITICISM, SentimentIs("neutral")]);
    Or3(q, nc, And(FELL_THROUGH + [SentimentIs("neutral")]), row);
    And2(Not(HAS_POSITIVE), HAS_QUESTION, row);
    And4(Not(HAS_POSITIVE), Not(HAS_QUESTION), HAS_CRITICISM, SentimentIs("neutral"), row);
    SentimentMeans("neutral", row);
    FellThroughMeans("neutral", row);
  }

  lemma NegativeMeans(row: DbRow)
    ensures Selects(BucketWhere(Negative), row) <==>
      || (Selects(Not(HAS_POSITIVE), row) && Selects(Not(HAS_QUESTION), row) && Selects(HAS_CRITICISM, row) && row.sentiment == "negative")
      || (Selects(Not(HAS_POSITIVE), row) && Selects(Not(HAS_QUESTION), row) && Selects(Not(HAS_CRITICISM), row) && Selects(HAS_LEGITIMATE, row))
      || (Undecided(row) && row.sentiment == "negative")
  {
    hide Selects, Undecided;
    var nc := And([Not(HAS_POSITIVE), Not(HAS_QUESTION), HAS_CRITICISM, SentimentIs("negative")]);
    var legit := And([Not(HAS_POSITIVE), Not(HAS_QUESTION), Not(HAS_CRITICISM), HAS_LEGITIMATE]);
    Or3(nc, legit, And(FELL_THROUGH + [SentimentIs("negative")]), row);
    And4(Not(HAS_POSITIVE), Not(HAS_QUESTION), HAS_CRITICISM, SentimentIs("negative"), row);
    And4(Not(HAS_POSITIVE), Not(HAS_QUESTION), Not(HAS_CRITICISM), HAS_LEGITIMATE, row);
    SentimentMeans("negative", row);
    FellThroughMeans("negative", row);
  }

  ghost predicate Agrees(row: DbRow) { forall b: Bucket :: Selects(BucketWhere(b), row) <==> BucketOf(row) == b }

  /** The four predicates select exactly the rows of their buckets, and so partition the rows, exactly
      when the stored sentiment is a known one or is not consulted. */
  lemma PushDownIff(row: DbRow)
    ensures Agrees(row) <==> KnownSentiment(row) || !DependsOnSentiment(row)
  {
    hide Selects, BucketWhere;
    BucketWhereMeans(row);
    if DependsOnSentiment(row) && !KnownSentiment(row) {
      assert BucketOf(row) == Neutral && !Selects(BucketWhere(Neutral), row);
    }
  }

  // ---------------------------------------------------------------- the customer-facing predicates

  function RiskyWhere(version: int): Where {
    And([CustomerStateIs("confirmed"), CustomerVersionAtLeast(version), Or([CustomerCategoriesHasSome(RISKY), CustomerLevelIn(HIGH_LEVELS)])])
  }

  function RequiresReviewWhere(version: int): Where {
    Or([CustomerStateIs("review_required"), CustomerStateNull, CustomerVersionNull, CustomerVersionBelow(version)])
  }

  predicate ReviewColumns(c: Columns) {
    c.state == Some("review_required") || c.state.None? || c.version.None? || c.version.value < PROJECTION_VERSION
  }

  lemma RequiresReviewMeans(row: DbRow)
    ensures Selects(RequiresReviewWhere(PROJECTION_VERSION), row) <==> ReviewColumns(row.customer)
  {
    var ws := RequiresReviewWhere(PROJECTION_VERSION).ws;
    assert ws[0] == CustomerStateIs("review_required") && ws[1] == CustomerStateNull
        && ws[2] == CustomerVersionNull && ws[3] == CustomerVersionBelow(PROJECTION_VERSION);
    if ReviewColumns(row.customer) {
      assert Selects(ws[0], row) || Selects(ws[1], row) || Selects(ws[2], row) || Selects(ws[3], row);
    }
  }

  /** Columns of the current version that no projection writes: an unknown state, or a confirmation of nothing. */
  predicate Malformed(c: Columns) {
    && c.version.Some? && c.version.value >= PROJECTION_VERSION && c.state.Some?
    && c.state != Some("review_required") && c.state != Some("no_issue") && (c.state == Some("confirmed") ==> c.categories == [])
  }

  /** For any stored columns whatever, the review filter and the reader disagree exactly on malformed ones. */
  lemma ReviewFilterIff(row: DbRow)
    ensures (Selects(RequiresReviewWhere(PROJECTION_VERSION), row) <==> Read(row.customer).state.StateReview?) <==> !Malformed(row.customer)
  {
    hide Selects, RequiresReviewWhere, Rank;
    RequiresReviewMeans(row);
  }

  /** On rows the projection wrote, the review filter selects exactly those projected to review, and the
      risky filter exactly the confirmed ones that show a risky category or a high level. */
  lemma FiltersMatchProjection(stored: StoredRow, row: DbRow)
    requires row.customer == Persisted(stored) || row.customer == PersistedAfterClassification(stored)
    ensures var p := Project(stored);
      && (Selects(RequiresReviewWhere(PROJECTION_VERSION), row) <==> p.state.StateReview?)
      && (Selects(RiskyWhere(PROJECTION_VERSION), row) <==>
            p.state.StateConfirmed? && (p.riskLevel in HIGH_LEVELS || exists c :: c in p.categories && c in RISKY))
  {
    hide Selects, Project;
    RequiresReviewMeans(row);
    RiskyMeans(row);
  }

  lemma RiskyMeans(row: DbRow)
    ensures Selects(RiskyWhere(PROJECTION_VERSION), row) <==>
      && row.customer.state == Some("confirmed") && row.customer.version.Some? && row.customer.version.value >= PROJECTION_VERSION
      && ((exists c :: c in row.customer.categories && c in RISKY) || (row.customer.level.Some? && row.customer.level.value in HIGH_LEVELS))
  {
    var w := Or([CustomerCategoriesHasSome(RISKY), CustomerLevelIn(HIGH_LEVELS)]);
    And2(CustomerStateIs("confirmed"), CustomerVersionAtLeast(PROJECTION_VERSION), row);
    AndOf([CustomerStateIs("confirmed"), CustomerVersionAtLeast(PROJECTION_VERSION)], w, row);
    Or2(CustomerCategoriesHasSome(RISKY), CustomerLevelIn(HIGH_LEVELS), row);
    assert [CustomerStateIs("confirmed"), CustomerVersionAtLeast(PROJECTION_VERSION)] + [w] == RiskyWhere(PROJECTION_VERSION).ws;
  }

  // ---------------------------------------------------------------- tallies

  function Occurrences(c: string, cs: seq<string>): nat {
    if cs == [] then 0 else Occurrences(c, cs[..|cs| - 1]) + if cs[|cs| - 1] == c then 1 else 0
  }

  /** How often the rows show a category as confirmed. */
  function ShownCount(c: string, rows: seq<StoredRow>): nat {
    if rows == [] then 0 else ShownCount(c, rows[..|rows| - 1]) + Occurrences(c, Project(rows[|rows| - 1]).categories)
  }

  function CountRows(keep: StoredRow -> bool, rows: seq<StoredRow>): nat {
    if rows == [] then 0 else CountRows(keep, rows[..|rows| - 1]) + if keep(rows[|rows| - 1]) then 1 else 0
  }

  function InState(s: State): StoredRow -> bool { (r: StoredRow) => Project(r).state == s }

  datatype Tally = Tally(confirmed: map<string, nat>, requiresReview: nat, legacyUnverified: nat, confirmedHighOrCritical: nat, total: nat)

  ghost predicate Tallied(confirmed: map<string, nat>, counts: string -> nat) {
    forall c :: (c in confirmed <==> counts(c) > 0) && (c in confirmed ==> confirmed[c] == counts(c))
  }

  ghost function ShownCounts(rows: seq<StoredRow>): string -> nat { (c: string) => ShownCount(c, rows) }

  ghost function PlusCounts(rows: seq<StoredRow>, cs: seq<string>): string -> nat { (c: string) => ShownCount(c, rows) + Occurrences(c, cs) }

  method TallyProjected(rows: seq<StoredRow>) returns (t: Tally)
    ensures Tallied(t.confirmed, ShownCounts(rows))
    ensures t.requiresReview == CountRows(InState(StateReview), rows)
    ensures t.legacyUnverified == CountRows((r: StoredRow) => Project(r).legacyUnverified, rows)
    ensures t.confirmedHighOrCritical == CountRows((r: StoredRow) => Project(r).eligibleForSeverityTotals, rows)
    ensures t.total == |rows|
  {
    hide Project;
    var confirmed: map<string, nat> := map[];
    var review, legacy, severe := 0, 0, 0;
    for i := 0 to |rows|
      invariant Tallied(confirmed, ShownCounts(rows[..i]))
      invariant review == CountRows(InState(StateReview), rows[..i])
      invariant legacy == CountRows((r: StoredRow) => Project(r).legacyUnverified, rows[..i])
      invariant severe == CountRows((r: StoredRow) => Project(r).eligibleForSeverityTotals, rows[..i])
    {
      var p := Project(rows[i]);
      assert rows[..i + 1][..i] == rows[..i];
      FlagsOf(rows[i]);
      if p.eligibleForCategoryTotals { confirmed := CountShown(confirmed, rows[..i], p.categories); }
      assert Tallied(confirmed, ShownCounts(rows[..i + 1])) by { CountsNext(confirmed, rows[..i], rows[i], rows[..i + 1]); }
      if p.eligibleForSeverityTotals { severe := severe + 1; }
      if p.requiresReview { review := review + 1; }
      if p.legacyUnverified { legacy := legacy + 1; }
    }
    assert rows[..|rows|] == rows;
    t := Tally(confirmed, review, legacy, severe, |rows|);
  }

  method CountShown(before: map<string, nat>, rows: seq<StoredRow>, cs: seq<string>) returns (after: map<string, nat>)
    requires Tallied(before, ShownCounts(rows))
    ensures Tallied(after, PlusCounts(rows, cs))
  {
    hide ShownCount;
    after := before;
    for j := 0 to |cs|
      invariant Tallied(after, PlusCounts(rows, cs[..j]))
    {
      assert cs[..j + 1][..j] == cs[..j];
      after := after[cs[j] := (if cs[j] in after then after[cs[j]] else 0) + 1];
    }
    assert cs[..|cs|] == cs;
  }

  lemma FlagsOf(row: StoredRow)
    ensures var p := Project(row);
      && p.requiresReview == p.state.StateReview? && p.eligibleForCategoryTotals == p.state.StateConfirmed?
      && (!p.state.StateConfirmed? ==> p.categories == [])
  {
    hide DisplayOf, ReadGate, ShownCategories, AutoViewOf, VisibleLevel;
  }

  lemma CountsNext(confirmed: map<string, nat>, rows: seq<StoredRow>, row: StoredRow, next: seq<StoredRow>)
    requires next == rows + [row]
    requires if Project(row).state.StateConfirmed? then Tallied(confirmed, PlusCounts(rows, Project(row).categories)) else Tallied(confirmed, ShownCounts(rows))
    ensures Tallied(confirmed, ShownCounts(next))
  {
    hide Project;
    FlagsOf(row);
    assert next[..|next| - 1] == rows;
    forall c ensures ShownCount(c, next) == ShownCount(c, rows) + Occurrences(c, Project(row).categories) {}
  }

  /** Every row is counted once: as confirmed, as needing review, or as clean. */
  lemma {:induction false} RowsPartition(rows: seq<StoredRow>)
    ensures CountRows(InState(StateConfirmed), rows) + CountRows(InState(StateReview), rows) + CountRows(InState(StateNoIssue), rows) == |rows|
  {
    hide Project;
    if rows != [] { RowsPartition(rows[..|rows| - 1]); }
  }

  /** An accusation reaches the confirmed totals only through a row whose gate confirmed it. */
  lemma {:induction false} CountedAccusationsConfirmed(c: string, rows: seq<StoredRow>)
    requires Accusatory(c) && ShownCount(c, rows) > 0
    ensures exists i :: 0 <= i < |rows| && ConfirmedIn(ReadGate(rows[i].diagnostics), c) && !AwaitsReview(ReadGate(rows[i].diagnostics))
  {
    hide Project, ConfirmedIn, AwaitsReview, ReadGate, Accusatory;
    var n := |rows| - 1;
    ShownOnlyIfConfirmed(rows[n]);
    var cs := Project(rows[n]).categories;
    if Occurrences(c, cs) > 0 {
      OccursIn(c, cs);
    } else {
      CountedAccusationsConfirmed(c, rows[..n]);
      var i :| 0 <= i < n && ConfirmedIn(ReadGate(rows[..n][i].diagnostics), c) && !AwaitsReview(ReadGate(rows[..n][i].diagnostics));
      assert rows[i] == rows[..n][i];
    }
  }

  lemma {:induction false} OccursIn(c: string, cs: seq<string>)
    ensures Occurrences(c, cs) > 0 <==> c in cs
  {
    if cs != [] {
      OccursIn(c, cs[..|cs| - 1]);
      assert cs == cs[..|cs| - 1] + [cs[|cs| - 1]];
    }
  }
}
