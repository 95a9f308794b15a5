/** CSV export: a guarded, quoted printer and the reader of section 2 of RFC 4180 that gets the table back. */
module Csv {
  import opened Optional
  import opened Strings

  /** A cell before export; a value that is neither text nor absent comes with its String(value). */
  datatype Cell = Absent | Text(s: string) | Other(shown: string)

  function CellText(c: Cell): string {
    match c case Absent => "" case Text(s) => s case Other(shown) => shown
  }

  /** Leading characters a spreadsheet would evaluate. */
  predicate Trigger(c: char) { c == '=' || c == '+' || c == '-' || c == '@' || c == '\t' || c == '\r' }

  predicate StartsFormula(s: string) { s != "" && Trigger(s[0]) }

  /** The text the export means a cell to hold. */
  function Guarded(s: string): string { if StartsFormula(s) then "'" + s else s }

  predicate Special(c: char) { c == '\"' || c == ',' || c == '\r' || c == '\n' }

  predicate NeedsQuotes(s: string) { exists i :: 0 <= i < |s| && Special(s[i]) }

  function DoubleQuotes(s: string): string {
    if s == [] then "" else (if s[0] == '\"' then "\"\"" else [s[0]]) + DoubleQuotes(s[1..])
  }

  function Quoted(s: string): string {
    if NeedsQuotes(s) then "\"" + DoubleQuotes(s) + "\"" else s
  }

  method CsvEscapeField(value: Cell) returns (s: string)
    ensures s == Quoted(Guarded(CellText(value)))
  {
    s := CellText(value);
    if s != "" && Trigger(s[0]) { s := "'" + s; }
    if NeedsQuotes(s) { s := "\"" + DoubleQuotes(s) + "\""; }
  }

  const CRLF := "\r\n"

  function GuardedRow(row: seq<Cell>): seq<string> {
    seq(|row|, i requires 0 <= i < |row| => Guarded(CellText(row[i])))
  }

  function QuotedRow(fields: seq<string>): seq<string> {
    seq(|fields|, i requires 0 <= i < |fields| => Quoted(fields[i]))
  }

  function RowText(row: seq<Cell>): string { Join(",", QuotedRow(GuardedRow(row))) }

  function Lines(table: seq<seq<Cell>>): seq<string> {
    seq(|table|, i requires 0 <= i < |table| => RowText(table[i]))
  }

  function TableText(table: seq<seq<Cell>>): string { Join(CRLF, Lines(table)) + CRLF }

  method EscapeRow(row: seq<Cell>) returns (text: string)
    ensures text == RowText(row)
  {
    var fields: seq<string> := [];
    for i := 0 to |row|
      invariant |fields| == i && forall j :: 0 <= j < i ==> fields[j] == Quoted(GuardedRow(row)[j])
    {
      var field := CsvEscapeField(row[i]);
      fields := fields + [field];
    }
    assert fields == QuotedRow(GuardedRow(row));
    text := Join(",", fields);
  }

  method ToCsv(headers: seq<Cell>, rows: seq<seq<Cell>>) returns (text: string)
    ensures text == TableText([headers] + rows)
  {
    var line := EscapeRow(headers);
    var out := [line];
    for i := 0 to |rows|
      invariant |out| == i + 1
      invariant forall j :: 0 <= j <= i ==> out[j] == RowText(([headers] + rows)[j])
    {
      line := EscapeRow(rows[i]);
      out := out + [line];
    }
    assert out == Lines([headers] + rows);
    text := Join(CRLF, out) + CRLF;
  }

  // ---------------------------------------------------------------- the RFC 4180 reader

  datatype Scan = Scan(field: string, rest: string)

  /** Unquoted field: up to the next comma or line break; a quote inside is an error. */
  function ReadBare(t: string): (r: Option<Scan>)
    ensures r.Some? ==> |r.value.rest| <= |t|
  {
    if t == [] || t[0] == ',' || t[0] == '\r' || t[0] == '\n' then Some(Scan("", t))
    else if t[0] == '\"' then None
    else match ReadBare(t[1..])
      case Some(Scan(f, rest)) => Some(Scan([t[0]] + f, rest))
      case None => None
  }

  /** Inside a quoted field: a doubled quote stands for one, a single quote closes. */
  function ReadQuoted(t: string): (r: Option<Scan>)
    ensures r.Some? ==> |r.value.rest| <= |t|
  {
    if t == [] then None
    else if t[0] == '\"' then
      if |t| > 1 && t[1] == '\"' then
        match ReadQuoted(t[2..])
        case Some(Scan(f, rest)) => Some(Scan(['\"'] + f, rest))
        case None => None
      else Some(Scan("", t[1..]))
    else match ReadQuoted(t[1..])
      case Some(Scan(f, rest)) => Some(Scan([t[0]] + f, rest))
      case None => None
  }

  function ReadField(t: string): (r: Option<Scan>)
    ensures r.Some? ==> |r.value.rest| <= |t|
  {
    if t != [] && t[0] == '\"' then ReadQuoted(t[1..]) else ReadBare(t)
  }

  /** One record: fields separated by commas. */
  function ReadRecord(t: string): (r: Option<(seq<string>, string)>)
    ensures r.Some? ==> |r.value.1| <= |t|
    decreases |t|
  {
    match ReadField(t)
    case None => None
    case Some(Scan(f, rest)) =>
      if rest != [] && rest[0] == ',' then
        match ReadRecord(rest[1..])
        case None => None
        case Some((more, rest')) => Some(([f] + more, rest'))
      else Some(([f], rest))
  }

  /** Records each end with CRLF, which the last one may omit. */
  function ReadTable(t: string): Option<seq<seq<string>>>
    decreases |t|
  {
    if t == [] then Some([])
    else match ReadRecord(t)
      case None => None
      case Some((record, rest)) =>
        if rest == [] then Some([record])
        else if CRLF <= rest then
          match ReadTable(rest[2..])
          case None => None
          case Some(more) => Some([record] + more)
        else None
  }

  // ---------------------------------------------------------------- parse-back

  predicate FieldEnds(z: string) { z == [] || z[0] == ',' || z[0] == '\r' || z[0] == '\n' }

  lemma {:induction false} BareBack(s: string, z: string)
    requires FieldEnds(z) && forall i :: 0 <= i < |s| ==> !Special(s[i])
    ensures ReadBare(s + z) == Some(Scan(s, z))
  {
    if s == [] {
      assert s + z == z;
    } else {
      assert !Special(s[0]);
      BareBack(s[1..], z);
      assert (s + z)[1..] == s[1..] + z && s == [s[0]] + s[1..];
    }
  }

  lemma {:induction false} QuotedBack(s: string, z: string)
    requires z == [] || z[0] != '\"'
    ensures ReadQuoted(DoubleQuotes(s) + ("\"" + z)) == Some(Scan(s, z))
  {
    var t := DoubleQuotes(s) + ("\"" + z);
    if s == [] {
      assert t == "\"" + z;
      assert t[1..] == z;
    } else {
      var t' := DoubleQuotes(s[1..]) + ("\"" + z);
      QuotedBack(s[1..], z);
      assert s == [s[0]] + s[1..];
      if s[0] == '\"' { assert t == "\"\"" + t' && t[2..] == t'; } else { assert t == [s[0]] + t' && t[1..] == t'; }
    }
  }

  lemma QuotedFieldBack(s: string, z: string)
    requires NeedsQuotes(s) && FieldEnds(z)
    ensures ReadField(Quoted(s) + z) == Some(Scan(s, z))
  {
    var t := "\"" + (DoubleQuotes(s) + ("\"" + z));
    assert Quoted(s) + z == t;
    assert t[1..] == DoubleQuotes(s) + ("\"" + z);
    QuotedBack(s, z);
  }

  lemma BareFieldBack(s: string, z: string)
    requires !NeedsQuotes(s) && FieldEnds(z)
    ensures ReadField(Quoted(s) + z) == Some(Scan(s, z))
  {
    forall i | 0 <= i < |s| ensures !Special(s[i]) {}
    BareBack(s, z);
    var t := s + z;
    if s == [] { assert t == z; } else { assert t[0] == s[0] && !Special(s[0]); }
  }

  lemma FieldBack(s: string, z: string)
    requires FieldEnds(z)
    ensures ReadField(Quoted(s) + z) == Some(Scan(s, z))
  {
    if NeedsQuotes(s) { QuotedFieldBack(s, z); } else { BareFieldBack(s, z); }
  }

  lemma RecordStep(t: string, f: string, tail: string, more: seq<string>, z: string)
    requires ReadField(t) == Some(Scan(f, "," + tail)) && ReadRecord(tail) == Some((more, z))
    ensures ReadRecord(t) == Some(([f] + more, z))
  {
    assert ("," + tail)[1..] == tail;
  }

  lemma RecordEnd(t: string, f: string, z: string)
    requires ReadField(t) == Some(Scan(f, z)) && (z == [] || z[0] != ',')
    ensures ReadRecord(t) == Some(([f], z))
  {
  }

  lemma {:induction false} RecordBack(fields: seq<string>, z: string)
    requires fields != [] && FieldEnds(z) && (z == [] || z[0] != ',')
    ensures ReadRecord(Join(",", QuotedRow(fields)) + z) == Some((fields, z))
  {
    hide ReadField, ReadRecord, Quoted;
    var t := Join(",", QuotedRow(fields)) + z;
    if |fields| == 1 {
      FieldBack(fields[0], z);
      RecordEnd(t, fields[0], z);
      assert fields == [fields[0]];
    } else {
      var tail := Join(",", QuotedRow(fields[1..])) + z;
      assert QuotedRow(fields)[1..] == QuotedRow(fields[1..]);
      assert t == Quoted(fields[0]) + ("," + tail);
      FieldBack(fields[0], "," + tail);
      RecordBack(fields[1..], z);
      RecordStep(t, fields[0], tail, fields[1..], z);
      assert fields == [fields[0]] + fields[1..];
    }
  }

  /** What a reader sees of a row: a row of no cells prints as an empty line, which reads as one empty field. */
  function Seen(row: seq<Cell>): seq<string> { if row == [] then [""] else GuardedRow(row) }

  function SeenTable(table: seq<seq<Cell>>): seq<seq<string>> {
    seq(|table|, i requires 0 <= i < |table| => Seen(table[i]))
  }

  lemma RowBack(row: seq<Cell>, z: string)
    requires CRLF <= z
    ensures ReadRecord(RowText(row) + z) == Some((Seen(row), z))
  {
    if row == [] {
      assert RowText(row) + z == z;
    } else {
      RecordBack(GuardedRow(row), z);
    }
  }

  lemma {:induction false} TableBack(table: seq<seq<Cell>>)
    requires table != []
    ensures ReadTable(TableText(table)) == Some(SeenTable(table))
  {
    hide ReadRecord, RowText, Seen;
    var t := TableText(table);
    if |table| == 1 {
      RowBack(table[0], CRLF);
      assert t == RowText(table[0]) + CRLF;
      assert CRLF[2..] == [];
      assert SeenTable(table) == [Seen(table[0])] + [];
    } else {
      var rest := CRLF + TableText(table[1..]);
      assert Lines(table)[1..] == Lines(table[1..]);
      assert t == RowText(table[0]) + rest;
      RowBack(table[0], rest);
      TableBack(table[1..]);
      assert rest[2..] == TableText(table[1..]);
      assert SeenTable(table) == [Seen(table[0])] + SeenTable(table[1..]);
    }
  }

  function GuardedTable(table: seq<seq<Cell>>): seq<seq<string>> {
    seq(|table|, i requires 0 <= i < |table| => GuardedRow(table[i]))
  }

  /** Parse-back: a reader recovers the header and rows as the guarded texts exactly when no
      row is empty, whatever commas, quotes and line breaks the cells hold. */
  lemma CsvParsesBack(headers: seq<Cell>, rows: seq<seq<Cell>>)
    ensures var table := [headers] + rows;
      ReadTable(TableText(table)) == Some(GuardedTable(table)) <==> forall i :: 0 <= i < |table| ==> table[i] != []
  {
    var table := [headers] + rows;
    TableBack(table);
    var seen, meant := SeenTable(table), GuardedTable(table);
    if seen == meant {
      forall i | 0 <= i < |table| ensures table[i] != [] { assert seen[i] == meant[i]; }
    } else {
      assert exists i :: 0 <= i < |table| && seen[i] != meant[i];
    }
  }

  /** No field a reader recovers starts with a character that a spreadsheet would evaluate: one of = + - @, a tab or a carriage return. */
  lemma NoFormulaRecovered(headers: seq<Cell>, rows: seq<seq<Cell>>)
    ensures var r := ReadTable(TableText([headers] + rows));
      r.Some? && forall i, j :: 0 <= i < |r.value| && 0 <= j < |r.value[i]| && r.value[i][j] != "" ==>
        r.value[i][j][0] !in ['=', '+', '-', '@', '\t', '\r']
  {
    TableBack([headers] + rows);
  }

  /** What is recovered of each cell: nothing of an absent one, and the text of any other, behind an apostrophe if it would be evaluated. */
  lemma CellsRecovered(headers: seq<Cell>, rows: seq<seq<Cell>>, i: nat, j: nat)
    requires i < |[headers] + rows| && j < |([headers] + rows)[i]|
    ensures var r, cell := ReadTable(TableText([headers] + rows)), ([headers] + rows)[i][j];
      && r.Some? && |r.value| == |rows| + 1 && |r.value[i]| == |([headers] + rows)[i]|
      && match cell
         case Absent => r.value[i][j] == ""
         case Text(s) => r.value[i][j] == if s != "" && s[0] in ['=', '+', '-', '@', '\t', '\r'] then "'" + s else s
         case Other(s) => r.value[i][j] == if s != "" && s[0] in ['=', '+', '-', '@', '\t', '\r'] then "'" + s else s
  {
    TableBack([headers] + rows);
  }

  lemma {:induction false} DoubledLength(s: string)
    ensures |DoubleQuotes(s)| == |s| + multiset(s)['\"']
  {
    if s != [] {
      DoubledLength(s[1..]);
      assert s == [s[0]] + s[1..];
    }
  }

  /** A field is quoted only if it holds a quote, a comma or a line break, and then every quote in it is doubled. */
  lemma QuotedForms(s: string)
    ensures (forall c :: c in s ==> c !in ['\"', ',', '\r', '\n']) ==> Quoted(s) == s
    ensures (exists c :: c in s && c in ['\"', ',', '\r', '\n']) ==>
      && |Quoted(s)| == |s| + 2 + multiset(s)['\"'] && Quoted(s)[0] == '\"' && Quoted(s)[|Quoted(s)| - 1] == '\"'
  {
    DoubledLength(s);
    if NeedsQuotes(s) { var i :| 0 <= i < |s| && Special(s[i]); assert s[i] in s; }
    if c :| c in s && c in ['\"', ',', '\r', '\n'] { var i :| 0 <= i < |s| && s[i] == c; assert Special(s[i]); }
  }

  lemma RowOfTwo(a: Cell, b: Cell)
    ensures RowText([a, b]) == Quoted(Guarded(CellText(a))) + "," + Quoted(Guarded(CellText(b)))
  {
    hide Quoted, Guarded, CellText;
    JoinPair(",", Quoted(Guarded(CellText(a))), Quoted(Guarded(CellText(b))));
    assert QuotedRow(GuardedRow([a, b])) == [Quoted(Guarded(CellText(a))), Quoted(Guarded(CellText(b)))];
  }

  lemma SampleFields()
    ensures Quoted("a") == "a" && Quoted("") == "" && Quoted("'=1") == "'=1" && Quoted("b\"c") == "\"b\"\"c\""
  {
    var s := "b\"c";
    assert s[1] == '\"' && Special(s[1]);
    assert s[1..] == "\"c" && s[1..][1..] == "c" && "c"[1..] == "";
    assert DoubleQuotes("c") == "c" && DoubleQuotes("\"c") == "\"\"c";
  }

  /** A document, character by character. */
  lemma SampleDocument()
    ensures TableText([[Text("a"), Absent], [Other("=1"), Text("b\"c")]]) == "a,\r\n'=1,\"b\"\"c\"\r\n"
  {
    var table := [[Text("a"), Absent], [Other("=1"), Text("b\"c")]];
    SampleFields();
    RowOfTwo(Text("a"), Absent);
    RowOfTwo(Other("=1"), Text("b\"c"));
    hide Quoted, RowText;
    assert Guarded("=1") == "'=1" && Guarded("b\"c") == "b\"c" && Guarded("a") == "a" && Guarded("") == "";
    hide Guarded;
    assert "'=1" + "," + "\"b\"\"c\"" == "'=1,\"b\"\"c\"";
    assert RowText(table[0]) == "a," && RowText(table[1]) == "'=1,\"b\"\"c\"";
    assert Lines(table) == [RowText(table[0]), RowText(table[1])];
    JoinPair(CRLF, "a,", "'=1,\"b\"\"c\"");
  }

  /** The guard merges two texts only when one is the other, a formula, behind an apostrophe. */
  lemma GuardCollisions(a: string, b: string)
    ensures Guarded(a) == Guarded(b) <==>
      || a == b
      || (a != "" && a[0] in ['=', '+', '-', '@', '\t', '\r'] && b == "'" + a)
      || (b != "" && b[0] in ['=', '+', '-', '@', '\t', '\r'] && a == "'" + b)
  {
    assert ("'" + a)[1..] == a && ("'" + b)[1..] == b;
  }
}
