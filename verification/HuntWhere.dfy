/**
 The whole WHERE clause of a hunt: the tenants it is answered within, the window, where the last page stopped, and
 the question.  It selects exactly the records all four are true of.
 */
module HuntWhere {
  import opened Wrappers
  import opened Lexical
  import opened Sql
  import opened SqlText
  import opened Hunt
  import opened HuntText
  import opened HuntParse

  /** What a dataset's rows are ordered and resumed by: an instant, then the names that tell two rows of it apart. */
  datatype Dataset = Dataset(instant: string, names: seq<string>)

  /** Where a page stopped. */
  datatype Position = Position(millis: int, names: seq<string>)

  /** A query as it was asked; the ends of its window are held to the nanosecond. */
  datatype Query = Query(tenants: seq<string>, start: int, end: int, after: Option<Position>, where: Option<Expression>)

  const TENANT := Kept("tenant_id", OfText, false)

  predicate ValidDataset(dataset: Dataset) {
    ValidColumn(dataset.instant) && dataset.names != [] && ValidNames(dataset.names)
  }

  predicate ValidNames(names: seq<string>) {
    forall i :: 0 <= i < |names| ==> ValidColumn(names[i])
  }

  predicate ValidQuery(schema: Schema, query: Query) {
    query.where.Some? ==> WellFormed(schema, query.where.value)
  }

  /** Only a query whose position names as many keys as the table is sorted by can be compiled. */
  predicate Compilable(dataset: Dataset, query: Query) {
    query.after.Some? ==> |query.after.value.names| == |dataset.names|
  }

  // ---- What is asked ----

  predicate Keyed(dataset: Dataset, record: Record) {
    && dataset.instant in record && record[dataset.instant].Instant?
    && NamesKept(dataset.names, record)
  }

  predicate NamesKept(names: seq<string>, record: Record) {
    forall i :: 0 <= i < |names| ==> names[i] in record && record[names[i]].Text?
  }

  function NamesOf(names: seq<string>, record: Record): (r: seq<string>)
    requires NamesKept(names, record)
    ensures |r| == |names|
  {
    seq(|names|, i requires 0 <= i < |names| => record[names[i]].text)
  }

  /** The key a row is ordered and resumed by. */
  function KeyOf(dataset: Dataset, record: Record): (key: Position)
    requires Keyed(dataset, record)
    ensures |key.names| == |dataset.names|
  {
    Position(record[dataset.instant].millis, NamesOf(dataset.names, record))
  }

  predicate NamesBelow(a: seq<string>, b: seq<string>) {
    a != [] && b != [] && (TextLess(a[0], b[0]) || (a[0] == b[0] && NamesBelow(a[1..], b[1..])))
  }

  predicate KeyBelow(a: Position, b: Position) {
    a.millis < b.millis || (a.millis == b.millis && NamesBelow(a.names, b.names))
  }

  predicate Stored(dataset: Dataset, schema: Schema, record: Record) {
    && Keyed(dataset, record) && Fits(schema, record)
    && TENANT.column in record && record[TENANT.column].Text?
  }

  /** A record of a millisecond happened within the window. */
  predicate WindowAsked(start: int, end: int, millis: int) {
    start <= millis * NANOS_PER_MILLI < end
  }

  /** An instant by its whole milliseconds, as it is bound. */
  function Millis(nanos: int): int {
    nanos / NANOS_PER_MILLI
  }

  /** The record belongs to a tenant of the scope, happened within the window, and the question is true of it. */
  ghost predicate Wanted(dataset: Dataset, schema: Schema, query: Query, record: Record)
    requires Stored(dataset, schema, record) && ValidQuery(schema, query)
  {
    && record[TENANT.column].text in query.tenants
    && WindowAsked(query.start, query.end, record[dataset.instant].millis)
    && (query.where.Some? ==> Meaning(schema, query.where.value, record))
  }

  // ---- What is written ----

  function Listed(names: seq<string>): string {
    if names == [] then "" else ", " + names[0] + Listed(names[1..])
  }

  function Asking(count: nat): string {
    if count == 0 then "" else ", ?" + Asking(count - 1)
  }

  function BehindText(dataset: Dataset): string {
    "(" + dataset.instant + Listed(dataset.names) + ") < (" + INSTANT_PLACEHOLDER + Asking(|dataset.names|) + ")"
  }

  function InstantOf(dataset: Dataset): Kept {
    Kept(dataset.instant, OfInstant, false)
  }

  function WindowText(dataset: Dataset): string {
    PredicateText(InstantOf(dataset), AtLeast, 1) + (" AND " + PredicateText(InstantOf(dataset), Below, 1))
  }

  /** The conditions a row must meet, in the order they are written. */
  function Conditions(dataset: Dataset, schema: Schema, query: Query): (r: seq<string>)
    requires ValidQuery(schema, query)
    ensures r != []
  {
    [PredicateText(TENANT, OneOf, |query.tenants|), WindowText(dataset)]
    + (if query.after.Some? then [BehindText(dataset)] else [])
    + (if query.where.Some? then [Written(schema, query.where.value)] else [])
  }

  function Texts(names: seq<string>): seq<Cell> {
    seq(|names|, i requires 0 <= i < |names| => Text(names[i]))
  }

  function AfterValues(after: Option<Position>): seq<Cell> {
    if after.Some? then [Number(after.value.millis as real)] + Texts(after.value.names) else []
  }

  function WhereValues(schema: Schema, where: Option<Expression>): seq<Cell>
    requires where.Some? ==> WellFormed(schema, where.value)
  {
    if where.Some? then Values(schema, where.value) else []
  }

  function Arguments(schema: Schema, query: Query): seq<Cell>
    requires ValidQuery(schema, query)
  {
    Texts(query.tenants) + [Number(Millis(query.start) as real), Number(Millis(query.end) as real)]
    + AfterValues(query.after) + WhereValues(schema, query.where)
  }

  function Join(parts: seq<string>, separator: string): string
    decreases |parts|
  {
    if parts == [] then "" else if |parts| == 1 then parts[0] else parts[0] + (separator + Join(parts[1..], separator))
  }

  // ---- How it is read ----

  function ListedTokens(names: seq<string>): seq<Token> {
    if names == [] then [] else [COMMA, Word(names[0])] + ListedTokens(names[1..])
  }

  function AskingTokens(count: nat): seq<Token> {
    if count == 0 then [] else [COMMA, ASKED] + AskingTokens(count - 1)
  }

  function Columns(names: seq<string>): seq<Clause> {
    if names == [] then [] else [Column(names[0])] + Columns(names[1..])
  }

  function Params(count: nat, k: nat): seq<Clause> {
    if count == 0 then [] else [Param(k)] + Params(count - 1, k + 1)
  }

  function BehindTokens(dataset: Dataset): seq<Token> {
    [OPEN, Word(dataset.instant)] + ListedTokens(dataset.names) + [CLOSE, Mark("<"), OPEN]
    + HeldTokens(OfInstant) + AskingTokens(|dataset.names|) + [CLOSE]
  }

  function BehindClause(dataset: Dataset, k: nat): Clause {
    Compare("<", Tuple([Column(dataset.instant)] + Columns(dataset.names)),
            Tuple([HeldClause(OfInstant, k)] + Params(|dataset.names|, k + 1)))
  }

  /** The text is a term: whatever a clause may go on with after it, it is parsed as the clause and numbers up to `n`. */
  ghost predicate Term(text: string, clause: Clause, k: nat, n: nat) {
    exists tokens :: Lexes(text, tokens)
      && forall rest | Stops(rest) :: ParseNot(tokens + rest, k) == Some(Parsed(clause, rest, n))
  }

  /** The text is a conjunction of terms. */
  ghost predicate Conjunction(text: string, clause: Clause, k: nat, n: nat) {
    exists tokens :: Lexes(text, tokens)
      && forall rest | Ends(rest) :: ParseAnd(tokens + rest, k) == Some(Parsed(clause, rest, n))
  }

  lemma {:induction false} TermIsConjunction(text: string, clause: Clause, k: nat, n: nat)
    requires Term(text, clause, k, n)
    ensures Conjunction(text, clause, k, n)
  {
    var tokens :| Lexes(text, tokens) && forall rest | Stops(rest) :: ParseNot(tokens + rest, k) == Some(Parsed(clause, rest, n));
    forall rest | Ends(rest)
      ensures ParseAnd(tokens + rest, k) == Some(Parsed(clause, rest, n))
    {
      assert Stops(rest);
      TermIsClause(tokens + rest, k, Parsed(clause, rest, n));
    }
  }

  lemma {:induction false} JoinTerm(a: string, left: Clause, k: nat, m: nat, b: string, right: Clause, n: nat)
    requires Term(a, left, k, m) && Conjunction(b, right, m, n)
    ensures Conjunction(a + (" AND " + b), And(left, right), k, n)
  {
    var ta :| Lexes(a, ta) && forall rest | Stops(rest) :: ParseNot(ta + rest, k) == Some(Parsed(left, rest, m));
    var tb :| Lexes(b, tb) && forall rest | Ends(rest) :: ParseAnd(tb + rest, m) == Some(Parsed(right, rest, n));
    JoinLexes(a, ta, " AND ", "AND", b, tb);
    var tokens := ta + ([Word("AND")] + tb);
    forall rest | Ends(rest)
      ensures ParseAnd(tokens + rest, k) == Some(Parsed(And(left, right), rest, n))
    {
      var others := tb + rest;
      assert Stops([Word("AND")] + others);
      assert tokens + rest == ta + ([Word("AND")] + others);
      AndGoesOn(tokens + rest, k, left, others, m, right, n, rest);
    }
  }

  lemma {:induction false} ConjunctionParses(text: string, clause: Clause, n: nat)
    requires Conjunction(text, clause, 0, n)
    ensures Parse(text) == Some(Parsed(clause, [], n))
  {
    var tokens :| Lexes(text, tokens) && forall rest | Ends(rest) :: ParseAnd(tokens + rest, 0) == Some(Parsed(clause, rest, n));
    assert Ends([]) && tokens + [] == tokens;
    AndIsClause(tokens, 0, Parsed(clause, [], n));
  }

  lemma {:induction false} PredicateTerm(kept: Kept, operator: Operator, count: nat, k: nat)
    requires ValidColumn(kept.column) && !kept.repeated && operator != Present && (operator != OneOf ==> count == 1)
    ensures Term(PredicateText(kept, operator, count), PredicateClause(kept, operator, count, k), k, k + count)
  {
    PredicateLexes(kept, operator, count);
    var tokens := PredicateTokens(kept, operator, count);
    forall rest | Stops(rest)
      ensures ParseNot(tokens + rest, k) == Some(Parsed(PredicateClause(kept, operator, count, k), rest, k + count))
    {
      PredicateParses(kept, operator, count, k, rest);
    }
  }

  lemma {:induction false} QuestionTerm(schema: Schema, e: Expression, k: nat)
    requires ValidSchema(schema) && WellFormed(schema, e)
    ensures Term(Written(schema, e), ClauseOf(schema, e, k), k, k + |Values(schema, e)|)
  {
    WrittenLexes(schema, e);
    var tokens := TokensOf(schema, e);
    forall rest | Stops(rest)
      ensures ParseNot(tokens + rest, k) == Some(Parsed(ClauseOf(schema, e, k), rest, k + |Values(schema, e)|))
    {
      TermParses(schema, e, k, rest);
    }
  }

  // ---- The comparison of keys ----

  lemma {:induction false} CommaNameLexes(name: string)
    requires ValidColumn(name)
    ensures Lexes(", " + name, [COMMA, Word(name)])
  {
    CommaLexes();
    ColumnLexes(name);
    Glue(", ", [COMMA], name, [Word(name)]);
    assert [COMMA] + [Word(name)] == [COMMA, Word(name)];
  }

  lemma {:induction false} ThenListed(first: string, tokens: seq<Token>, others: string, more: seq<Token>)
    requires Lexes(first, tokens) && Lexes(others, more) && (others != "" ==> others[0] == ',')
    ensures Lexes(first + others, tokens + more)
  {
    Glue(first, tokens, others, more);
  }

  lemma {:induction false} ListedLexes(names: seq<string>)
    requires ValidNames(names)
    ensures Lexes(Listed(names), ListedTokens(names)) && (Listed(names) != "" ==> Listed(names)[0] == ',')
    decreases |names|
  {
    if names != [] {
      ListedLexes(names[1..]);
      CommaNameLexes(names[0]);
      ThenListed(", " + names[0], [COMMA, Word(names[0])], Listed(names[1..]), ListedTokens(names[1..]));
      assert Listed(names) == (", " + names[0]) + Listed(names[1..]);
    }
  }

  lemma {:induction false} AskingLexes(count: nat)
    ensures Lexes(Asking(count), AskingTokens(count)) && (count > 0 ==> Asking(count)[0] == ',')
    decreases count
  {
    if count > 0 {
      AskingLexes(count - 1);
      OneAskedLexes();
      Glue(", ?", [COMMA, ASKED], Asking(count - 1), AskingTokens(count - 1));
    }
  }

  lemma {:induction false} OneAskedLexes()
    ensures Lexes(", ?", [COMMA, ASKED])
  {
    CommaLexes();
    MarkLexes("?");
    Glue(", ", [COMMA], "?", [ASKED]);
    assert ", " + "?" == ", ?";
  }

  lemma {:induction false} BothEnclosed(a: string, ta: seq<Token>, b: string, tb: seq<Token>)
    requires a != "" && Lexes(a, ta) && Lexes(b, tb) && Boundary(a, b)
    ensures Lexes("(" + a + b + ")", [OPEN] + ta + tb + [CLOSE])
  {
    Glue(a, ta, b, tb);
    EnclosedLexes(a + b, ta + tb);
    assert "(" + (a + b) + ")" == "(" + a + b + ")";
    assert [OPEN] + (ta + tb) + [CLOSE] == [OPEN] + ta + tb + [CLOSE];
  }

  lemma {:induction false} KeysLex(instant: string, names: seq<string>)
    requires ValidColumn(instant) && ValidNames(names) && names != []
    ensures Lexes("(" + instant + Listed(names) + ")", [OPEN] + [Word(instant)] + ListedTokens(names) + [CLOSE])
  {
    ColumnLexes(instant);
    ListedLexes(names);
    BothEnclosed(instant, [Word(instant)], Listed(names), ListedTokens(names));
  }

  lemma {:induction false} PositionLexes(held: string, tokens: seq<Token>, count: nat)
    requires count > 0 && held != "" && Lexes(held, tokens)
    ensures Lexes("(" + held + Asking(count) + ")", [OPEN] + tokens + AskingTokens(count) + [CLOSE])
  {
    AskingLexes(count);
    BothEnclosed(held, tokens, Asking(count), AskingTokens(count));
  }

  lemma {:induction false} BehindLexes(dataset: Dataset)
    requires ValidDataset(dataset)
    ensures Lexes(BehindText(dataset), BehindTokens(dataset))
  {
    KeysLex(dataset.instant, dataset.names);
    InstantLexes();
    PositionLexes(INSTANT_PLACEHOLDER, HeldTokens(OfInstant), |dataset.names|);
    var left, right := "(" + dataset.instant + Listed(dataset.names) + ")", "(" + INSTANT_PLACEHOLDER + Asking(|dataset.names|) + ")";
    BesideLexes(left, [OPEN] + [Word(dataset.instant)] + ListedTokens(dataset.names) + [CLOSE],
                right, [OPEN] + HeldTokens(OfInstant) + AskingTokens(|dataset.names|) + [CLOSE]);
    BetweenText(dataset.instant, Listed(dataset.names), INSTANT_PLACEHOLDER, Asking(|dataset.names|));
    BetweenTokens([Word(dataset.instant)], ListedTokens(dataset.names), HeldTokens(OfInstant), AskingTokens(|dataset.names|));
    assert [OPEN] + [Word(dataset.instant)] == [OPEN, Word(dataset.instant)];
  }

  lemma {:induction false} BesideLexes(a: string, ta: seq<Token>, b: string, tb: seq<Token>)
    requires Lexes(a, ta) && Lexes(b, tb)
    ensures Lexes(a + " < " + b, ta + [Mark("<")] + tb)
  {
    SpacedMark("<");
    assert " " + "<" + " " == " < ";
    Glue3(a, ta, " < ", [Mark("<")], b, tb);
  }

  lemma {:induction false} BetweenText(a: string, b: string, c: string, d: string)
    ensures "(" + a + b + ") < (" + c + d + ")" == ("(" + a + b + ")") + " < " + ("(" + c + d + ")")
  {
    assert ") < (" == ")" + " < " + "(";
  }

  lemma {:induction false} BetweenTokens(a: seq<Token>, b: seq<Token>, c: seq<Token>, d: seq<Token>)
    ensures [OPEN] + a + b + [CLOSE, Mark("<"), OPEN] + c + d + [CLOSE]
         == ([OPEN] + a + b + [CLOSE]) + [Mark("<")] + ([OPEN] + c + d + [CLOSE])
  {
    assert [CLOSE, Mark("<"), OPEN] == [CLOSE] + [Mark("<")] + [OPEN];
  }

  lemma {:induction false} ListedParses(first: string, names: seq<string>, k: nat, rest: seq<Token>)
    requires ValidColumn(first) && ValidNames(names)
    ensures ParseList([Word(first)] + (ListedTokens(names) + ([CLOSE] + rest)), k) == Some(Parsed([Column(first)] + Columns(names), rest, k))
    decreases |names|
  {
    ColumnIsNamed(first);
    var after := ListedTokens(names) + ([CLOSE] + rest);
    if names == [] {
      assert after == [CLOSE] + rest && after[1..] == rest;
      assert [Column(first)] + Columns(names) == [Column(first)];
      NameParses(first, k, after);
      ListEnds([Word(first)] + after, k, Parsed(Column(first), after, k));
    } else {
      var others := [Word(names[0])] + (ListedTokens(names[1..]) + ([CLOSE] + rest));
      assert after == [COMMA] + others && after[1..] == others;
      NameParses(first, k, after);
      ListedParses(names[0], names[1..], k, rest);
      ListGoesOn([Word(first)] + after, k, Parsed(Column(first), after, k), Parsed([Column(names[0])] + Columns(names[1..]), rest, k));
    }
  }

  /** Placeholders after a first item, whatever it was read as. */
  lemma {:induction false} AskingUnfolds(count: nat, m: nat, rest: seq<Token>)
    requires count > 0
    ensures AskingTokens(count) + rest == [COMMA] + ([ASKED] + (AskingTokens(count - 1) + rest))
    ensures Params(count, m) == [Param(m)] + Params(count - 1, m + 1)
  {
  }

  lemma {:induction false} ListHasMore(ts: seq<Token>, k: nat, first: Clause, others: seq<Token>, m: nat, clauses: seq<Clause>, n: nat, rest: seq<Token>)
    requires ParsePrimary(ts, k) == Some(Parsed(first, [COMMA] + others, m)) && ParseList(others, m) == Some(Parsed(clauses, rest, n))
    ensures ParseList(ts, k) == Some(Parsed([first] + clauses, rest, n))
  {
    assert ([COMMA] + others)[1..] == others;
    ListGoesOn(ts, k, Parsed(first, [COMMA] + others, m), Parsed(clauses, rest, n));
  }

  lemma {:induction false} AskingParses(ts: seq<Token>, first: Clause, count: nat, k: nat, m: nat, rest: seq<Token>)
    requires ParsePrimary(ts, k) == Some(Parsed(first, AskingTokens(count) + ([CLOSE] + rest), m))
    ensures ParseList(ts, k) == Some(Parsed([first] + Params(count, m), rest, m + count))
    decreases count
  {
    var end := [CLOSE] + rest;
    if count == 0 {
      assert AskingTokens(0) + end == end && end[1..] == rest;
      assert [first] + Params(0, m) == [first];
      ListEnds(ts, k, Parsed(first, end, m));
    } else {
      var next := AskingTokens(count - 1) + end;
      AskingUnfolds(count, m, end);
      AskedParses(m, next);
      AskingParses([ASKED] + next, Param(m), count - 1, m, m + 1, rest);
      ListHasMore(ts, k, first, [ASKED] + next, m, Params(count, m), m + count, rest);
    }
  }

  lemma {:induction false} TupleParses(inside: seq<Token>, items: seq<Clause>, k: nat, n: nat, rest: seq<Token>)
    requires |items| > 1 && ParseList(inside + ([CLOSE] + rest), k) == Some(Parsed(items, rest, n))
    ensures ParsePrimary([OPEN] + inside + [CLOSE] + rest, k) == Some(Parsed(Tuple(items), rest, n))
  {
    var ts := [OPEN] + inside + [CLOSE] + rest;
    assert ts[1..] == inside + ([CLOSE] + rest);
  }

  lemma {:induction false} KeysParse(dataset: Dataset, k: nat, rest: seq<Token>)
    requires ValidDataset(dataset)
    ensures ParsePrimary([OPEN] + ([Word(dataset.instant)] + ListedTokens(dataset.names)) + [CLOSE] + rest, k)
         == Some(Parsed(Tuple([Column(dataset.instant)] + Columns(dataset.names)), rest, k))
  {
    var inside := [Word(dataset.instant)] + ListedTokens(dataset.names);
    ListedParses(dataset.instant, dataset.names, k, rest);
    assert inside + ([CLOSE] + rest) == [Word(dataset.instant)] + (ListedTokens(dataset.names) + ([CLOSE] + rest));
    TupleParses(inside, [Column(dataset.instant)] + Columns(dataset.names), k, k, rest);
  }

  lemma {:induction false} PositionParses(count: nat, k: nat, rest: seq<Token>)
    requires count > 0
    ensures ParsePrimary([OPEN] + (HeldTokens(OfInstant) + AskingTokens(count)) + [CLOSE] + rest, k)
         == Some(Parsed(Tuple([HeldClause(OfInstant, k)] + Params(count, k + 1)), rest, k + 1 + count))
  {
    var inside := HeldTokens(OfInstant) + AskingTokens(count);
    var after := AskingTokens(count) + ([CLOSE] + rest);
    HeldParses(OfInstant, k, after);
    AskingParses(HeldTokens(OfInstant) + after, HeldClause(OfInstant, k), count, k, k + 1, rest);
    assert inside + ([CLOSE] + rest) == HeldTokens(OfInstant) + after;
    TupleParses(inside, [HeldClause(OfInstant, k)] + Params(count, k + 1), k, k + 1 + count, rest);
  }

  lemma {:induction false} BehindParses(dataset: Dataset, k: nat, rest: seq<Token>)
    requires ValidDataset(dataset)
    ensures ParseNot(BehindTokens(dataset) + rest, k) == Some(Parsed(BehindClause(dataset, k), rest, k + 1 + |dataset.names|))
  {
    var left := [Word(dataset.instant)] + ListedTokens(dataset.names);
    var right := [OPEN] + (HeldTokens(OfInstant) + AskingTokens(|dataset.names|)) + [CLOSE];
    var ts := BehindTokens(dataset) + rest;
    assert ts == [OPEN] + left + [CLOSE] + ([Mark("<")] + (right + rest));
    KeysParse(dataset, k, [Mark("<")] + (right + rest));
    PositionParses(|dataset.names|, k, rest);
    ComparisonParses(ts, k, Tuple([Column(dataset.instant)] + Columns(dataset.names)), "<", right, k,
                     Tuple([HeldClause(OfInstant, k)] + Params(|dataset.names|, k + 1)), k + 1 + |dataset.names|, rest);
  }

  lemma {:induction false} BehindTerm(dataset: Dataset, k: nat)
    requires ValidDataset(dataset)
    ensures Term(BehindText(dataset), BehindClause(dataset, k), k, k + 1 + |dataset.names|)
  {
    BehindLexes(dataset);
    forall rest | Stops(rest)
      ensures ParseNot(BehindTokens(dataset) + rest, k) == Some(Parsed(BehindClause(dataset, k), rest, k + 1 + |dataset.names|))
    {
      BehindParses(dataset, k, rest);
    }
  }
}
