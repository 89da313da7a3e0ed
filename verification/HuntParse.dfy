/** The tokens of a question are parsed, under SQL's precedence, as the clause the question stands for. */
module HuntParse {
  import opened Wrappers
  import opened Sql
  import opened SqlText
  import opened Hunt
  import opened HuntText

  lemma {:induction false} ListEnds(ts: seq<Token>, k: nat, p: Parsed<Clause>)
    requires ParsePrimary(ts, k) == Some(p) && Starts(p.rest, CLOSE)
    ensures ParseList(ts, k) == Some(Parsed([p.it], p.rest[1..], p.params))
  {
    PrimaryIsClause(ts, k, p);
  }

  lemma {:induction false} ListGoesOn(ts: seq<Token>, k: nat, p: Parsed<Clause>, others: Parsed<seq<Clause>>)
    requires ParsePrimary(ts, k) == Some(p) && Starts(p.rest, COMMA) && ParseList(p.rest[1..], p.params) == Some(others)
    ensures ParseList(ts, k) == Some(others.(it := [p.it] + others.it))
  {
    PrimaryIsClause(ts, k, p);
  }

  lemma {:induction false} AskedParses(k: nat, rest: seq<Token>)
    ensures ParsePrimary([ASKED] + rest, k) == Some(Parsed(Param(k), rest, k + 1))
  {
    assert ([ASKED] + rest)[1..] == rest;
  }

  lemma {:induction false} QuotedParses(text: string, k: nat, rest: seq<Token>)
    ensures ParsePrimary([Quoted(text)] + rest, k) == Some(Parsed(Constant(Text(text)), rest, k))
  {
    assert ([Quoted(text)] + rest)[1..] == rest;
  }

  lemma {:induction false} NameParses(word: string, k: nat, rest: seq<Token>)
    requires word !in RESERVED && !Starts(rest, OPEN)
    ensures ParsePrimary([Word(word)] + rest, k) == Some(Parsed(Named(word), rest, k))
  {
    assert ([Word(word)] + rest)[1..] == rest;
  }

  lemma {:induction false} CallParses(name: string, tokens: seq<Token>, args: seq<Clause>, k: nat, n: nat, rest: seq<Token>)
    requires name !in RESERVED && ParseList(tokens + rest, k) == Some(Parsed(args, rest, n))
    ensures ParsePrimary([Word(name), OPEN] + tokens + rest, k) == Some(Parsed(Call(name, args), rest, n))
  {
    var ts := [Word(name), OPEN] + tokens + rest;
    assert ts[2..] == tokens + rest && ts[1..][0] == OPEN;
  }

  lemma {:induction false} ColumnIsNamed(column: string)
    requires ValidColumn(column)
    ensures Named(column) == Column(column) && column !in RESERVED
  {
    assert column[0] != 'N' && column[0] != '0' && column[0] != 'A' && column[0] != 'O' && column[0] != 'I';
  }

  lemma {:induction false} AskedAloneParses(k: nat, rest: seq<Token>)
    ensures ParseList([ASKED] + ([CLOSE] + rest), k) == Some(Parsed([Param(k)], rest, k + 1))
  {
    var end := [CLOSE] + rest;
    assert end[1..] == rest;
    AskedParses(k, end);
    ListEnds([ASKED] + end, k, Parsed(Param(k), end, k + 1));
  }

  lemma {:induction false} ColumnGoesOn(column: string, k: nat, others: seq<Token>, clauses: seq<Clause>, n: nat, rest: seq<Token>)
    requires ValidColumn(column) && ParseList(others, k) == Some(Parsed(clauses, rest, n))
    ensures ParseList([Word(column)] + ([COMMA] + others), k) == Some(Parsed([Column(column)] + clauses, rest, n))
  {
    ColumnIsNamed(column);
    NameParses(column, k, [COMMA] + others);
    assert ([COMMA] + others)[1..] == others;
    ListGoesOn([Word(column)] + ([COMMA] + others), k, Parsed(Column(column), [COMMA] + others, k), Parsed(clauses, rest, n));
  }

  /** A call of a column and a placeholder. */
  lemma {:induction false} ColumnCallParses(name: string, column: string, k: nat, rest: seq<Token>)
    requires name !in RESERVED && ValidColumn(column)
    ensures ParsePrimary([Word(name), OPEN, Word(column), COMMA, ASKED, CLOSE] + rest, k)
         == Some(Parsed(Call(name, [Column(column), Param(k)]), rest, k + 1))
  {
    var tokens := [Word(column), COMMA, ASKED, CLOSE];
    var asked := [ASKED] + ([CLOSE] + rest);
    AskedAloneParses(k, rest);
    ColumnGoesOn(column, k, asked, [Param(k)], k + 1, rest);
    assert tokens + rest == [Word(column)] + ([COMMA] + asked);
    assert [Column(column)] + [Param(k)] == [Column(column), Param(k)];
    CallParses(name, tokens, [Column(column), Param(k)], k, k + 1, rest);
    assert [Word(name), OPEN] + tokens + rest == [Word(name), OPEN, Word(column), COMMA, ASKED, CLOSE] + rest;
  }

  /** A call of a placeholder and a quoted text. */
  lemma {:induction false} ZonedCallParses(name: string, zone: string, k: nat, rest: seq<Token>)
    requires name !in RESERVED
    ensures ParsePrimary([Word(name), OPEN, ASKED, COMMA, Quoted(zone), CLOSE] + rest, k)
         == Some(Parsed(Call(name, [Param(k), Constant(Text(zone))]), rest, k + 1))
  {
    var tokens := [ASKED, COMMA, Quoted(zone), CLOSE];
    ZonedListParses(zone, k, rest);
    CallParses(name, tokens, [Param(k), Constant(Text(zone))], k, k + 1, rest);
    assert [Word(name), OPEN] + tokens + rest == [Word(name), OPEN, ASKED, COMMA, Quoted(zone), CLOSE] + rest;
  }

  lemma {:induction false} QuotedAloneParses(zone: string, k: nat, rest: seq<Token>)
    ensures ParseList([Quoted(zone)] + ([CLOSE] + rest), k) == Some(Parsed([Constant(Text(zone))], rest, k))
  {
    var end := [CLOSE] + rest;
    assert end[1..] == rest;
    QuotedParses(zone, k, end);
    ListEnds([Quoted(zone)] + end, k, Parsed(Constant(Text(zone)), end, k));
  }

  lemma {:induction false} ZonedListParses(zone: string, k: nat, rest: seq<Token>)
    ensures ParseList([ASKED, COMMA, Quoted(zone), CLOSE] + rest, k) == Some(Parsed([Param(k), Constant(Text(zone))], rest, k + 1))
  {
    var quoted := [Quoted(zone)] + ([CLOSE] + rest);
    QuotedAloneParses(zone, k + 1, rest);
    AskedGoesOn(quoted, k, [Constant(Text(zone))], k + 1, rest);
    assert [ASKED, COMMA, Quoted(zone), CLOSE] + rest == [ASKED] + ([COMMA] + quoted);
    assert [Param(k)] + [Constant(Text(zone))] == [Param(k), Constant(Text(zone))];
  }

  lemma {:induction false} InstantParses(k: nat, rest: seq<Token>)
    ensures ParsePrimary(HeldTokens(OfInstant) + rest, k) == Some(Parsed(HeldClause(OfInstant, k), rest, k + 1))
  {
    ZonedCallParses(FROM_MILLIS, "UTC", k, rest);
  }

  lemma {:induction false} HeldParses(kind: Kind, k: nat, rest: seq<Token>)
    ensures ParsePrimary(HeldTokens(kind) + rest, k) == Some(Parsed(HeldClause(kind, k), rest, k + 1))
  {
    if kind == OfInstant { InstantParses(k, rest); } else { AskedParses(k, rest); }
  }

  /** A comparison of two primaries. */
  lemma {:induction false} ComparisonParses(ts: seq<Token>, k: nat, left: Clause, op: string, tokens: seq<Token>, m: nat, right: Clause, n: nat, rest: seq<Token>)
    requires op in COMPARISONS && !Starts(ts, Word("NOT"))
    requires ParsePrimary(ts, k) == Some(Parsed(left, [Mark(op)] + (tokens + rest), m))
    requires ParsePrimary(tokens + rest, m) == Some(Parsed(right, rest, n))
    ensures ParseNot(ts, k) == Some(Parsed(Compare(op, left, right), rest, n))
  {
    assert ([Mark(op)] + (tokens + rest))[1..] == tokens + rest;
    assert ParseComparison(ts, k) == Some(Parsed(Compare(op, left, right), rest, n));
  }

  lemma {:induction false} ColumnComparisonParses(column: string, op: string, tokens: seq<Token>, right: Clause, k: nat, n: nat, rest: seq<Token>)
    requires ValidColumn(column) && op in COMPARISONS && ParsePrimary(tokens + rest, k) == Some(Parsed(right, rest, n))
    ensures ParseNot([Word(column), Mark(op)] + tokens + rest, k) == Some(Parsed(Compare(op, Column(column), right), rest, n))
  {
    ColumnIsNamed(column);
    var after := [Mark(op)] + (tokens + rest);
    NameParses(column, k, after);
    assert [Word(column)] + after == [Word(column), Mark(op)] + tokens + rest;
    ComparisonParses([Word(column)] + after, k, Column(column), op, tokens, k, right, n, rest);
  }

  lemma {:induction false} NullAloneParses(k: nat, rest: seq<Token>)
    ensures ParseList([Word("NULL")] + ([CLOSE] + rest), k) == Some(Parsed([Constant(Null)], rest, k))
  {
    var end := [CLOSE] + rest;
    assert end[1..] == rest;
    NameParses("NULL", k, end);
    ListEnds([Word("NULL")] + end, k, Parsed(Constant(Null), end, k));
  }

  lemma {:induction false} PlaceholdersParse(count: nat, k: nat, rest: seq<Token>)
    ensures ParseList(AskedTokens(count) + ([CLOSE] + rest), k) == Some(Parsed(AskedClauses(count, k), rest, k + count))
    decreases count
  {
    var end := [CLOSE] + rest;
    if count == 0 {
      NullAloneParses(k, rest);
    } else if count == 1 {
      AskedAloneParses(k, rest);
    } else {
      PlaceholdersParse(count - 1, k + 1, rest);
      AskedGoesOn(AskedTokens(count - 1) + end, k, AskedClauses(count - 1, k + 1), k + count, rest);
      assert AskedTokens(count) + end == [ASKED] + ([COMMA] + (AskedTokens(count - 1) + end));
    }
  }

  lemma {:induction false} AskedGoesOn(others: seq<Token>, k: nat, clauses: seq<Clause>, n: nat, rest: seq<Token>)
    requires ParseList(others, k + 1) == Some(Parsed(clauses, rest, n))
    ensures ParseList([ASKED] + ([COMMA] + others), k) == Some(Parsed([Param(k)] + clauses, rest, n))
  {
    AskedParses(k, [COMMA] + others);
    assert ([COMMA] + others)[1..] == others;
    ListGoesOn([ASKED] + ([COMMA] + others), k, Parsed(Param(k), [COMMA] + others, k + 1), Parsed(clauses, rest, n));
  }

  /** Something said to be in a list. */
  lemma {:induction false} InListParses(ts: seq<Token>, k: nat, left: Clause, list: seq<Token>, m: nat, items: seq<Clause>, n: nat, rest: seq<Token>)
    requires !Starts(ts, Word("NOT")) && ParsePrimary(ts, k) == Some(Parsed(left, [Word("IN"), OPEN] + list, m))
    requires ParseList(list, m) == Some(Parsed(items, rest, n))
    ensures ParseNot(ts, k) == Some(Parsed(Among(left, items), rest, n))
  {
    var after := [Word("IN"), OPEN] + list;
    assert after[2..] == list && after[1..][0] == OPEN && after[0] == Word("IN");
    assert ParseComparison(ts, k) == Some(Parsed(Among(left, items), rest, n));
  }

  lemma {:induction false} OneOfParses(column: string, count: nat, k: nat, rest: seq<Token>)
    requires ValidColumn(column)
    ensures ParseNot([Word(column), Word("IN"), OPEN] + AskedTokens(count) + [CLOSE] + rest, k)
         == Some(Parsed(Among(Column(column), AskedClauses(count, k)), rest, k + count))
  {
    var list := AskedTokens(count) + ([CLOSE] + rest);
    var after := [Word("IN"), OPEN] + list;
    ColumnIsNamed(column);
    PlaceholdersParse(count, k, rest);
    NameParses(column, k, after);
    assert [Word(column)] + after == [Word(column), Word("IN"), OPEN] + AskedTokens(count) + [CLOSE] + rest;
    InListParses([Word(column)] + after, k, Column(column), list, k, AskedClauses(count, k), k + count, rest);
  }

  lemma {:induction false} HasEnds(column: string, k: nat, rest: seq<Token>)
    requires ValidColumn(column) && Starts(rest, CLOSE)
    ensures ParseOr(HasTokens(column) + rest, k) == Some(Parsed(Call("has", [Column(column), Param(k)]), rest, k + 1))
  {
    ColumnCallParses("has", column, k, rest);
    PrimaryIsClause(HasTokens(column) + rest, k, Parsed(Call("has", [Column(column), Param(k)]), rest, k + 1));
  }

  lemma {:induction false} HasGoesOn(column: string, k: nat, others: seq<Token>, clause: Clause, n: nat, rest: seq<Token>)
    requires ValidColumn(column) && ParseOr(others, k + 1) == Some(Parsed(clause, rest, n))
    ensures ParseOr(HasTokens(column) + ([Word("OR")] + others), k)
         == Some(Parsed(Or(Call("has", [Column(column), Param(k)]), clause), rest, n))
  {
    var after := [Word("OR")] + others;
    var has := Call("has", [Column(column), Param(k)]);
    ColumnCallParses("has", column, k, after);
    PrimaryIsTerm(HasTokens(column) + after, k, Parsed(has, after, k + 1));
    OrGoesOn(HasTokens(column) + after, k, has, others, k + 1, clause, n, rest);
  }

  lemma {:induction false} CarriesParses(column: string, count: nat, k: nat, rest: seq<Token>)
    requires ValidColumn(column) && count > 0 && Starts(rest, CLOSE)
    ensures ParseOr(CarriesTokens(column, count) + rest, k) == Some(Parsed(CarriesClause(column, count, k), rest, k + count))
    decreases count
  {
    if count == 1 {
      assert CarriesTokens(column, 1) == HasTokens(column);
      HasEnds(column, k, rest);
    } else {
      var others := CarriesTokens(column, count - 1) + rest;
      CarriesParses(column, count - 1, k + 1, rest);
      HasGoesOn(column, k, others, CarriesClause(column, count - 1, k + 1), k + count, rest);
      assert CarriesTokens(column, count) + rest == HasTokens(column) + ([Word("OR")] + others);
    }
  }

  /** What stands between parentheses, alone, is itself. */
  lemma {:induction false} EnclosedParses(tokens: seq<Token>, clause: Clause, k: nat, n: nat, rest: seq<Token>)
    requires ParseOr(tokens + ([CLOSE] + rest), k) == Some(Parsed(clause, [CLOSE] + rest, n)) && Stops(rest)
    ensures ParseNot([OPEN] + tokens + [CLOSE] + rest, k) == Some(Parsed(clause, rest, n))
  {
    var inner := tokens + ([CLOSE] + rest);
    var ts := [OPEN] + tokens + [CLOSE] + rest;
    assert ts[1..] == inner && ([CLOSE] + rest)[1..] == rest;
    assert ParseList(inner, k) == Some(Parsed([clause], rest, n));
    assert ParsePrimary(ts, k) == Some(Parsed(clause, rest, n));
    PrimaryIsTerm(ts, k, Parsed(clause, rest, n));
  }

  lemma {:induction false} PresentParses(column: string, kind: Kind, repeated: bool, k: nat, rest: seq<Token>)
    requires ValidColumn(column) && Stops(rest)
    ensures ParseNot(PresentTokens(column, kind, repeated) + rest, k)
         == Some(Parsed(PresentClause(column, kind, repeated, k), rest, k + |PresentBound(kind, repeated)|))
  {
    if repeated {
      NotEmptyParses(column, k, rest);
    } else {
      match kind {
        case OfNumber => ConstantComparisonParses(column, "!=", Word("0"), Constant(Number(0.0)), k, rest);
        case OfTruth => ConstantComparisonParses(column, "=", Word("true"), Constant(Truth(true)), k, rest);
        case OfText => ConstantComparisonParses(column, "!=", Quoted(""), Constant(Text("")), k, rest);
        case OfChoice => ConstantComparisonParses(column, "!=", Quoted(""), Constant(Text("")), k, rest);
        case OfInstant =>
          HeldParses(OfInstant, k, rest);
          ColumnComparisonParses(column, "!=", HeldTokens(OfInstant), HeldClause(OfInstant, k), k, k + 1, rest);
      }
    }
  }

  lemma {:induction false} ConstantComparisonParses(column: string, op: string, token: Token, constant: Clause, k: nat, rest: seq<Token>)
    requires ValidColumn(column) && op in COMPARISONS && Stops(rest)
    requires (token.Word? && token.text !in RESERVED && constant == Named(token.text)) || (token.Quoted? && constant == Constant(Text(token.text)))
    ensures ParseNot([Word(column), Mark(op), token] + rest, k) == Some(Parsed(Compare(op, Column(column), constant), rest, k))
  {
    if token.Word? { NameParses(token.text, k, rest); } else { QuotedParses(token.text, k, rest); }
    ColumnComparisonParses(column, op, [token], constant, k, k, rest);
    assert [Word(column), Mark(op)] + [token] + rest == [Word(column), Mark(op), token] + rest;
  }

  lemma {:induction false} ColumnAloneParses(column: string, k: nat, rest: seq<Token>)
    requires ValidColumn(column)
    ensures ParseList([Word(column), CLOSE] + rest, k) == Some(Parsed([Column(column)], rest, k))
  {
    var end := [CLOSE] + rest;
    assert end[1..] == rest;
    ColumnIsNamed(column);
    NameParses(column, k, end);
    ListEnds([Word(column)] + end, k, Parsed(Column(column), end, k));
    assert [Word(column), CLOSE] + rest == [Word(column)] + end;
  }

  lemma {:induction false} NotEmptyParses(column: string, k: nat, rest: seq<Token>)
    requires ValidColumn(column) && Stops(rest)
    ensures ParseNot([Word("notEmpty"), OPEN, Word(column), CLOSE] + rest, k) == Some(Parsed(Call("notEmpty", [Column(column)]), rest, k))
  {
    var ts := [Word("notEmpty"), OPEN, Word(column), CLOSE] + rest;
    ColumnAloneParses(column, k, rest);
    CallParses("notEmpty", [Word(column), CLOSE], [Column(column)], k, k, rest);
    assert [Word("notEmpty"), OPEN] + [Word(column), CLOSE] + rest == ts;
    PrimaryIsTerm(ts, k, Parsed(Call("notEmpty", [Column(column)]), rest, k));
  }

  lemma {:induction false} ContainsParses(column: string, k: nat, rest: seq<Token>)
    requires ValidColumn(column) && Stops(rest)
    ensures ParseNot([Word("position"), OPEN, Word(column), COMMA, ASKED, CLOSE, Mark(">"), Word("0")] + rest, k)
         == Some(Parsed(Compare(">", Call("position", [Column(column), Param(k)]), Constant(Number(0.0))), rest, k + 1))
  {
    var call, zero := [Word("position"), OPEN, Word(column), COMMA, ASKED, CLOSE], [Word("0")];
    var after := [Mark(">")] + (zero + rest);
    ColumnCallParses("position", column, k, after);
    NameParses("0", k + 1, rest);
    ComparisonParses(call + after, k, Call("position", [Column(column), Param(k)]), ">", zero, k + 1, Constant(Number(0.0)), k + 1, rest);
    assert call + after == [Word("position"), OPEN, Word(column), COMMA, ASKED, CLOSE, Mark(">"), Word("0")] + rest;
  }

  lemma {:induction false} PredicateParses(kept: Kept, operator: Operator, count: nat, k: nat, rest: seq<Token>)
    requires ValidColumn(kept.column) && Stops(rest)
    requires kept.repeated && operator != Present ==> count > 0
    requires operator != Present && operator != OneOf && !kept.repeated ==> count == 1
    ensures var n := if operator == Present then |PresentBound(kept.kind, kept.repeated)| else count;
      ParseNot(PredicateTokens(kept, operator, count) + rest, k) == Some(Parsed(PredicateClause(kept, operator, count, k), rest, k + n))
  {
    var column := kept.column;
    if operator == Present {
      PresentParses(column, kept.kind, kept.repeated, k, rest);
    } else if kept.repeated {
      CarriesParses(column, count, k, [CLOSE] + rest);
      EnclosedParses(CarriesTokens(column, count), CarriesClause(column, count, k), k, k + count, rest);
    } else if operator == OneOf {
      OneOfParses(column, count, k, rest);
    } else if operator == Contains {
      ContainsParses(column, k, rest);
    } else if operator == StartsWith || operator == EndsWith {
      var name := if operator == StartsWith then "startsWith" else "endsWith";
      ColumnCallParses(name, column, k, rest);
      PrimaryIsTerm(PredicateTokens(kept, operator, count) + rest, k, Parsed(Call(name, [Column(column), Param(k)]), rest, k + 1));
    } else {
      HeldParses(kept.kind, k, rest);
      ColumnComparisonParses(column, ComparisonOf(operator), HeldTokens(kept.kind), HeldClause(kept.kind, k), k, k + 1, rest);
    }
  }

  lemma {:induction false} AndGoesOn(ts: seq<Token>, k: nat, left: Clause, others: seq<Token>, m: nat, right: Clause, n: nat, rest: seq<Token>)
    requires ParseNot(ts, k) == Some(Parsed(left, [Word("AND")] + others, m))
    requires ParseAnd(others, m) == Some(Parsed(right, rest, n))
    ensures ParseAnd(ts, k) == Some(Parsed(And(left, right), rest, n))
  {
    assert ([Word("AND")] + others)[1..] == others;
  }

  lemma {:induction false} OrGoesOn(ts: seq<Token>, k: nat, left: Clause, others: seq<Token>, m: nat, right: Clause, n: nat, rest: seq<Token>)
    requires ParseNot(ts, k) == Some(Parsed(left, [Word("OR")] + others, m))
    requires ParseOr(others, m) == Some(Parsed(right, rest, n))
    ensures ParseOr(ts, k) == Some(Parsed(Or(left, right), rest, n))
  {
    assert ([Word("OR")] + others)[1..] == others;
    assert ParseAnd(ts, k) == Some(Parsed(left, [Word("OR")] + others, m));
  }

  lemma {:induction false} NotGoesOn(tokens: seq<Token>, k: nat, term: Clause, n: nat, rest: seq<Token>)
    requires ParseNot(tokens + rest, k) == Some(Parsed(term, rest, n))
    ensures ParseNot([Word("NOT")] + tokens + rest, k) == Some(Parsed(Not(term), rest, n))
  {
    assert ([Word("NOT")] + tokens + rest)[1..] == tokens + rest;
  }

  lemma {:induction false} AndIsClause(ts: seq<Token>, k: nat, p: Parsed<Clause>)
    requires ParseAnd(ts, k) == Some(p) && Ends(p.rest)
    ensures ParseOr(ts, k) == Some(p)
  {
  }

  lemma {:induction false} QuestionParses(schema: Schema, e: Expression, k: nat, rest: seq<Token>)
    requires ValidSchema(schema) && WellFormed(schema, e) && Stops(rest) && e.Predicate?
    ensures ParseNot(TokensOf(schema, e) + rest, k) == Some(Parsed(ClauseOf(schema, e, k), rest, k + |Values(schema, e)|))
  {
    PredicateParses(schema[e.field], e.operator, |e.values|, k, rest);
  }

  /** The tokens of a question, whatever comes after them, are parsed as its clause, and number as many placeholders as it binds. */
  lemma {:induction false} TermParses(schema: Schema, e: Expression, k: nat, rest: seq<Token>)
    requires ValidSchema(schema) && WellFormed(schema, e) && Stops(rest)
    ensures ParseNot(TokensOf(schema, e) + rest, k) == Some(Parsed(ClauseOf(schema, e, k), rest, k + |Values(schema, e)|))
    decreases e, 0
  {
    match e
    case Predicate(field, operator, values) =>
      QuestionParses(schema, e, k, rest);
    case All(terms) =>
      EveryParses(schema, terms, k, rest);
    case Any(terms) =>
      SomeParses(schema, terms, k, rest);
    case Negated(term) =>
      TermParses(schema, term, k, rest);
      NotGoesOn(TokensOf(schema, term), k, ClauseOf(schema, term, k), k + |Values(schema, term)|, rest);
  }

  lemma {:induction false} EveryParses(schema: Schema, terms: seq<Expression>, k: nat, rest: seq<Token>)
    requires ValidSchema(schema) && terms != [] && WellFormedAll(schema, terms) && Stops(rest)
    ensures ParseNot([OPEN] + JoinedTokens(schema, terms, "AND") + [CLOSE] + rest, k)
         == Some(Parsed(GroupClause(schema, terms, k, true), rest, k + |ValuesOf(schema, terms)|))
    decreases terms, 3
  {
    AllParses(schema, terms, k, [CLOSE] + rest);
    AndIsClause(JoinedTokens(schema, terms, "AND") + ([CLOSE] + rest), k,
                Parsed(GroupClause(schema, terms, k, true), [CLOSE] + rest, k + |ValuesOf(schema, terms)|));
    EnclosedParses(JoinedTokens(schema, terms, "AND"), GroupClause(schema, terms, k, true), k, k + |ValuesOf(schema, terms)|, rest);
  }

  lemma {:induction false} SomeParses(schema: Schema, terms: seq<Expression>, k: nat, rest: seq<Token>)
    requires ValidSchema(schema) && terms != [] && WellFormedAll(schema, terms) && Stops(rest)
    ensures ParseNot([OPEN] + JoinedTokens(schema, terms, "OR") + [CLOSE] + rest, k)
         == Some(Parsed(GroupClause(schema, terms, k, false), rest, k + |ValuesOf(schema, terms)|))
    decreases terms, 3
  {
    AnyParses(schema, terms, k, [CLOSE] + rest);
    EnclosedParses(JoinedTokens(schema, terms, "OR"), GroupClause(schema, terms, k, false), k, k + |ValuesOf(schema, terms)|, rest);
  }

  /** One term, or a term and the others after the word between them. */
  lemma {:induction false} JoinedUnfolds(schema: Schema, terms: seq<Expression>, word: string, rest: seq<Token>)
    requires terms != [] && WellFormedAll(schema, terms)
    ensures |terms| == 1 ==>
      && JoinedTokens(schema, terms, word) + rest == TokensOf(schema, terms[0]) + rest
      && |ValuesOf(schema, terms)| == |Values(schema, terms[0])|
    ensures |terms| > 1 ==>
      && WellFormedAll(schema, terms[1..])
      && JoinedTokens(schema, terms, word) + rest == TokensOf(schema, terms[0]) + ([Word(word)] + (JoinedTokens(schema, terms[1..], word) + rest))
      && |ValuesOf(schema, terms)| == |Values(schema, terms[0])| + |ValuesOf(schema, terms[1..])|
  {
    if |terms| == 1 {
      Appended(TokensOf(schema, terms[0]), [], rest);
    } else {
      Appended(TokensOf(schema, terms[0]), [Word(word)] + JoinedTokens(schema, terms[1..], word), rest);
      Appended([Word(word)], JoinedTokens(schema, terms[1..], word), rest);
    }
  }

  lemma {:induction false} Appended(a: seq<Token>, b: seq<Token>, c: seq<Token>)
    ensures a + b + c == a + (b + c) && a + [] + c == a + c
  {
  }

  /** A group of more than one term is its first term and a group of the others. */
  lemma {:induction false} GroupUnfolds(schema: Schema, terms: seq<Expression>, k: nat, every: bool)
    requires |terms| > 1 && WellFormedAll(schema, terms)
    ensures WellFormedAll(schema, terms[1..])
    ensures var first, others := ClauseOf(schema, terms[0], k), GroupClause(schema, terms[1..], k + |Values(schema, terms[0])|, every);
      GroupClause(schema, terms, k, every) == if every then And(first, others) else Or(first, others)
  {
  }

  lemma {:induction false} GroupOfOne(schema: Schema, terms: seq<Expression>, k: nat, every: bool)
    requires |terms| == 1 && WellFormedAll(schema, terms)
    ensures GroupClause(schema, terms, k, every) == ClauseOf(schema, terms[0], k)
  {
  }

  lemma {:induction false} LoneTermParses(schema: Schema, e: Expression, k: nat, rest: seq<Token>)
    requires ValidSchema(schema) && WellFormed(schema, e) && Starts(rest, CLOSE)
    ensures ParseAnd(TokensOf(schema, e) + rest, k) == Some(Parsed(ClauseOf(schema, e, k), rest, k + |Values(schema, e)|))
    ensures ParseOr(TokensOf(schema, e) + rest, k) == Some(Parsed(ClauseOf(schema, e, k), rest, k + |Values(schema, e)|))
    decreases e, 1
  {
    TermParses(schema, e, k, rest);
    TermIsClause(TokensOf(schema, e) + rest, k, Parsed(ClauseOf(schema, e, k), rest, k + |Values(schema, e)|));
  }

  lemma {:induction false} AllParseMore(schema: Schema, terms: seq<Expression>, k: nat, rest: seq<Token>)
    requires ValidSchema(schema) && |terms| > 1 && WellFormedAll(schema, terms) && WellFormedAll(schema, terms[1..])
    requires var m := k + |Values(schema, terms[0])|;
      ParseAnd(JoinedTokens(schema, terms[1..], "AND") + rest, m)
      == Some(Parsed(GroupClause(schema, terms[1..], m, true), rest, m + |ValuesOf(schema, terms[1..])|))
    ensures ParseAnd(JoinedTokens(schema, terms, "AND") + rest, k)
         == Some(Parsed(GroupClause(schema, terms, k, true), rest, k + |ValuesOf(schema, terms)|))
    decreases terms, 1
  {
    var m := k + |Values(schema, terms[0])|;
    JoinedUnfolds(schema, terms, "AND", rest);
    GroupUnfolds(schema, terms, k, true);
    AllGoOn(schema, terms[0], k, JoinedTokens(schema, terms[1..], "AND") + rest, GroupClause(schema, terms[1..], m, true),
            k + |ValuesOf(schema, terms)|, rest);
  }

  lemma {:induction false} AllParses(schema: Schema, terms: seq<Expression>, k: nat, rest: seq<Token>)
    requires ValidSchema(schema) && terms != [] && WellFormedAll(schema, terms) && Starts(rest, CLOSE)
    ensures ParseAnd(JoinedTokens(schema, terms, "AND") + rest, k)
         == Some(Parsed(GroupClause(schema, terms, k, true), rest, k + |ValuesOf(schema, terms)|))
    decreases terms, 2
  {
    if |terms| == 1 {
      JoinedUnfolds(schema, terms, "AND", rest);
      GroupOfOne(schema, terms, k, true);
      LoneTermParses(schema, terms[0], k, rest);
    } else {
      GroupUnfolds(schema, terms, k, true);
      AllParses(schema, terms[1..], k + |Values(schema, terms[0])|, rest);
      AllParseMore(schema, terms, k, rest);
    }
  }

  lemma {:induction false} AllGoOn(schema: Schema, e: Expression, k: nat, others: seq<Token>, right: Clause, n: nat, rest: seq<Token>)
    requires ValidSchema(schema) && WellFormed(schema, e)
    requires ParseAnd(others, k + |Values(schema, e)|) == Some(Parsed(right, rest, n))
    ensures ParseAnd(TokensOf(schema, e) + ([Word("AND")] + others), k) == Some(Parsed(And(ClauseOf(schema, e, k), right), rest, n))
    decreases e, 1
  {
    TermParses(schema, e, k, [Word("AND")] + others);
    AndGoesOn(TokensOf(schema, e) + ([Word("AND")] + others), k, ClauseOf(schema, e, k), others, k + |Values(schema, e)|, right, n, rest);
  }

  lemma {:induction false} AnyParseMore(schema: Schema, terms: seq<Expression>, k: nat, rest: seq<Token>)
    requires ValidSchema(schema) && |terms| > 1 && WellFormedAll(schema, terms) && WellFormedAll(schema, terms[1..])
    requires var m := k + |Values(schema, terms[0])|;
      ParseOr(JoinedTokens(schema, terms[1..], "OR") + rest, m)
      == Some(Parsed(GroupClause(schema, terms[1..], m, false), rest, m + |ValuesOf(schema, terms[1..])|))
    ensures ParseOr(JoinedTokens(schema, terms, "OR") + rest, k)
         == Some(Parsed(GroupClause(schema, terms, k, false), rest, k + |ValuesOf(schema, terms)|))
    decreases terms, 1
  {
    var m := k + |Values(schema, terms[0])|;
    JoinedUnfolds(schema, terms, "OR", rest);
    GroupUnfolds(schema, terms, k, false);
    AnyGoOn(schema, terms[0], k, JoinedTokens(schema, terms[1..], "OR") + rest, GroupClause(schema, terms[1..], m, false),
            k + |ValuesOf(schema, terms)|, rest);
  }

  lemma {:induction false} AnyParses(schema: Schema, terms: seq<Expression>, k: nat, rest: seq<Token>)
    requires ValidSchema(schema) && terms != [] && WellFormedAll(schema, terms) && Starts(rest, CLOSE)
    ensures ParseOr(JoinedTokens(schema, terms, "OR") + rest, k)
         == Some(Parsed(GroupClause(schema, terms, k, false), rest, k + |ValuesOf(schema, terms)|))
    decreases terms, 2
  {
    if |terms| == 1 {
      JoinedUnfolds(schema, terms, "OR", rest);
      GroupOfOne(schema, terms, k, false);
      LoneTermParses(schema, terms[0], k, rest);
    } else {
      GroupUnfolds(schema, terms, k, false);
      AnyParses(schema, terms[1..], k + |Values(schema, terms[0])|, rest);
      AnyParseMore(schema, terms, k, rest);
    }
  }

  lemma {:induction false} AnyGoOn(schema: Schema, e: Expression, k: nat, others: seq<Token>, right: Clause, n: nat, rest: seq<Token>)
    requires ValidSchema(schema) && WellFormed(schema, e)
    requires ParseOr(others, k + |Values(schema, e)|) == Some(Parsed(right, rest, n))
    ensures ParseOr(TokensOf(schema, e) + ([Word("OR")] + others), k) == Some(Parsed(Or(ClauseOf(schema, e, k), right), rest, n))
    decreases e, 1
  {
    TermParses(schema, e, k, [Word("OR")] + others);
    OrGoesOn(TokensOf(schema, e) + ([Word("OR")] + others), k, ClauseOf(schema, e, k), others, k + |Values(schema, e)|, right, n, rest);
  }
}
