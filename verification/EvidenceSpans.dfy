/** Matching lexicon terms in normalized text, and the spans that make a match verifiable. */
module EvidenceSpans {

  /** `start` and `end` delimit the matched token in the analyzed text. */
  datatype Span = Span(category: string, term: string, start: int, end: int, text: string)

  /** The closed suffix list of the chosen term kind, and the known-safe words. */
  datatype Lexicon = Lexicon(suffixes: set<string>, safeWords: set<string>)

  predicate WordChar(c: char) { 'a' <= c <= 'z' || '0' <= c <= '9' || c == '*' }

  // ---------------------------------------------------------------- the rule, declaratively

  /** The term stands at i, where `*` in the text may mask any one character. */
  predicate StandsAt(hay: string, term: string, i: nat) {
    i + |term| <= |hay| && forall j :: 0 <= j < |term| ==> hay[i + j] == term[j] || hay[i + j] == '*'
  }

  predicate Boundary(hay: string, i: nat) { i >= |hay| || !WordChar(hay[i]) }

  predicate WordStart(hay: string, i: nat) { i == 0 || Boundary(hay, i - 1) }

  predicate Phrase(term: string) { ' ' in term }

  /** The end of the whole word that starts at i. */
  function TokenEnd(hay: string, i: nat): (e: nat)
    requires i <= |hay|
    ensures i <= e <= |hay|
    ensures Boundary(hay, e) && forall k :: i <= k < e ==> WordChar(hay[k])
    decreases |hay| - i
  {
    if i < |hay| && WordChar(hay[i]) then TokenEnd(hay, i + 1) else i
  }

  /** text.slice(n) */
  function Suffix(s: string, n: nat): string { if n <= |s| then s[n..] else "" }

  /** The term legitimately occurs at i: as a whole phrase, or as the stem of a whole word with an allowed ending. */
  predicate Occurs(hay: string, term: string, lex: Lexicon, i: nat) {
    && term != "" && StandsAt(hay, term, i) && WordStart(hay, i)
    && if Phrase(term) then Boundary(hay, i + |term|)
       else var token := hay[i..TokenEnd(hay, i)]; Suffix(token, |term|) in lex.suffixes && token !in lex.safeWords
  }

  function SpanEnd(hay: string, term: string, i: nat): (e: nat)
    requires i + |term| <= |hay|
    ensures i <= e <= |hay|
  {
    if Phrase(term) then i + |term| else TokenEnd(hay, i)
  }

  function SpanAt(hay: string, term: string, category: string, i: nat): Span
    requires i + |term| <= |hay|
  {
    var e := SpanEnd(hay, term, i);
    Span(category, term, i, e, hay[i..e])
  }

  /** Exactly the occurrences below n, in increasing order. */
  ghost predicate ListsOccurrences(spans: seq<Span>, hay: string, term: string, category: string, lex: Lexicon, n: int) {
    && (forall k :: 0 <= k < |spans| ==>
          0 <= spans[k].start < n && Occurs(hay, term, lex, spans[k].start) && spans[k] == SpanAt(hay, term, category, spans[k].start))
    && (forall j, k :: 0 <= j < k < |spans| ==> spans[j].start < spans[k].start)
    && forall i: nat :: i < n && Occurs(hay, term, lex, i) ==> exists k :: 0 <= k < |spans| && spans[k].start == i
  }

  // ---------------------------------------------------------------- the matcher

  method TokenMatchesAt(hay: string, term: string, i: nat) returns (ok: bool)
    requires i + |term| <= |hay|
    ensures ok <==> StandsAt(hay, term, i)
  {
    for j := 0 to |term|
      invariant forall m :: 0 <= m < j ==> hay[i + m] == term[m] || hay[i + m] == '*'
    {
      if hay[i + j] != term[j] && hay[i + j] != '*' { return false; }
    }
    ok := true;
  }

  /** The maximal run of word characters from i. */
  method ScanToken(hay: string, i: nat) returns (end: nat)
    requires i <= |hay|
    ensures end == TokenEnd(hay, i)
  {
    end := i;
    while end < |hay| && WordChar(hay[end])
      invariant i <= end <= |hay| && TokenEnd(hay, end) == TokenEnd(hay, i)
      decreases |hay| - end
    {
      end := end + 1;
    }
  }

  lemma ListsNext(spans: seq<Span>, next: seq<Span>, hay: string, term: string, category: string, lex: Lexicon, i: nat)
    requires ListsOccurrences(spans, hay, term, category, lex, i)
    requires next == if Occurs(hay, term, lex, i) then spans + [SpanAt(hay, term, category, i)] else spans
    ensures ListsOccurrences(next, hay, term, category, lex, i + 1)
  {
    hide Occurs, SpanAt;
    forall j: nat | j < i + 1 && Occurs(hay, term, lex, j) ensures exists k :: 0 <= k < |next| && next[k].start == j {
      if j < i {
        var k :| 0 <= k < |spans| && spans[k].start == j;
        assert next[k].start == j;
      } else {
        StartOf(hay, term, category, lex, i);
        assert next[|spans|].start == j;
      }
    }
    if Occurs(hay, term, lex, i) { StartOf(hay, term, category, lex, i); }
  }

  lemma StartOf(hay: string, term: string, category: string, lex: Lexicon, i: nat)
    requires Occurs(hay, term, lex, i)
    ensures i + |term| <= |hay| && SpanAt(hay, term, category, i).start == i
  {
  }

  lemma ListsRest(spans: seq<Span>, hay: string, term: string, category: string, lex: Lexicon, i: nat)
    requires ListsOccurrences(spans, hay, term, category, lex, i) && i <= |hay| + 1 && i + |term| > |hay|
    ensures ListsOccurrences(spans, hay, term, category, lex, |hay| + 1)
  {
    hide SpanAt;
  }

  /** Sound and complete: the spans returned are the occurrences of the term, each once, in order. */
  method FindTermSpans(normalized: string, term: string, category: string, lex: Lexicon) returns (spans: seq<Span>)
    ensures ListsOccurrences(spans, normalized, term, category, lex, |normalized| + 1)
  {
    hide ListsOccurrences, StandsAt;
    spans := [];
    NoneYet(normalized, term, category, lex);
    if term == "" || normalized == "" { return; }
    var multiWord := Phrase(term);
    var i := 0;
    while i + |term| <= |normalized|
      invariant 0 <= i <= |normalized|
      invariant ListsOccurrences(spans, normalized, term, category, lex, i)
      decreases |normalized| - i
    {
      ghost var before := spans;
      var here := TokenMatchesAt(normalized, term, i);
      if here && (i == 0 || !WordChar(normalized[i - 1])) {
        if multiWord {
          if i + |term| == |normalized| || !WordChar(normalized[i + |term|]) {
            spans := spans + [Span(category, term, i, i + |term|, normalized[i..i + |term|])];
          }
        } else {
          var end := ScanToken(normalized, i);
          var token := normalized[i..end];
          if Suffix(token, |term|) in lex.suffixes && token !in lex.safeWords {
            spans := spans + [Span(category, term, i, end, token)];
          }
        }
      }
      ListsNext(before, spans, normalized, term, category, lex, i);
      i := i + 1;
    }
    ListsRest(spans, normalized, term, category, lex, i);
  }

  lemma NoneYet(hay: string, term: string, category: string, lex: Lexicon)
    ensures ListsOccurrences([], hay, term, category, lex, 0)
    ensures term == "" || hay == "" ==> ListsOccurrences([], hay, term, category, lex, |hay| + 1)
  {
  }

  // ---------------------------------------------------------------- verifying spans

  /** A span is evidence only if it points at exactly the text it claims. */
  predicate Validates(normalized: string, span: Span) {
    && 0 <= span.start < span.end <= |normalized|
    && span.text != "" && span.category != ""
    && normalized[span.start..span.end] == span.text
  }

  /** The matcher's own span passes re-validation exactly when it has a category and the term holds a space,
      or starts with a word character, or is masked at its first one: else no token is there to show. */
  lemma SpanValidatesIff(hay: string, term: string, category: string, lex: Lexicon, i: nat)
    requires Occurs(hay, term, lex, i)
    ensures Validates(hay, SpanAt(hay, term, category, i)) <==>
      category != "" && (Phrase(term) || WordChar(term[0]) || hay[i] == '*')
  {
    assert hay[i + 0] == term[0] || hay[i + 0] == '*';
    var e := SpanEnd(hay, term, i);
    if e > i { assert hay[i..e][0] == hay[i]; }
  }

  /** A term without a space whose first character is no word character: the matcher finds it, with an empty
      span that its own re-validation refuses. */
  lemma EmptySpanFound(category: string, lex: Lexicon)
    requires "" in lex.suffixes && "" !in lex.safeWords
    ensures Occurs("-", "-", lex, 0) && SpanAt("-", "-", category, 0) == Span(category, "-", 0, 0, "")
    ensures !Validates("-", SpanAt("-", "-", category, 0))
  {
    assert TokenEnd("-", 0) == 0;
  }

  /** Letters, digits and spaces, not starting with a space. */
  predicate LexiconTerm(term: string) {
    term != "" && term[0] != ' ' && forall j :: 0 <= j < |term| ==> (WordChar(term[j]) && term[j] != '*') || term[j] == ' '
  }

  /** For lexicon terms every span validates, and a single word's span is the whole word around the match. */
  lemma LexiconSpansValidate(hay: string, term: string, category: string, lex: Lexicon, i: nat)
    requires LexiconTerm(term) && category != "" && Occurs(hay, term, lex, i)
    ensures Validates(hay, SpanAt(hay, term, category, i))
    ensures i + |term| <= SpanEnd(hay, term, i)
    ensures !Phrase(term) ==>
      WordStart(hay, i) && Boundary(hay, SpanEnd(hay, term, i)) && forall k :: i <= k < SpanEnd(hay, term, i) ==> WordChar(hay[k])
  {
    SpanValidatesIff(hay, term, category, lex, i);
    assert hay[i + 0] == term[0] || hay[i + 0] == '*';
    if !Phrase(term) {
      forall k | i <= k < i + |term| ensures WordChar(hay[k]) {
        assert hay[i + (k - i)] == term[k - i] || hay[i + (k - i)] == '*';
        assert term[k - i] in term;
      }
    }
  }

  /** Two words matched by one term never overlap. */
  lemma WordSpansDisjoint(hay: string, term: string, lex: Lexicon, i: nat, j: nat)
    requires !Phrase(term) && Occurs(hay, term, lex, i) && Occurs(hay, term, lex, j) && i < j
    ensures SpanEnd(hay, term, i) <= j
  {
  }

  /** The spans that validate against the text and support the category. */
  function ValidFor(normalized: string, spans: seq<Span>, category: string): seq<Span> {
    if spans == [] then []
    else
      var rest := ValidFor(normalized, spans[1..], category);
      if spans[0].category == category && Validates(normalized, spans[0]) then [spans[0]] + rest else rest
  }

  lemma {:induction false} ValidForAre(normalized: string, spans: seq<Span>, category: string)
    ensures forall s :: s in ValidFor(normalized, spans, category) <==> s in spans && s.category == category && Validates(normalized, s)
  {
    if spans != [] {
      ValidForAre(normalized, spans[1..], category);
      assert spans == [spans[0]] + spans[1..];
    }
  }
}
