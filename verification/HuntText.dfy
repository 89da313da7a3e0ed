/** The text the hunt compiler writes is cut into the tokens, and stands for the clause, given here. */
module HuntText {
  import opened Sql
  import opened SqlText
  import opened Hunt

  // ---- How what is written is read ----

  const OPEN := Mark("(")
  const CLOSE := Mark(")")
  const COMMA := Mark(",")
  const ASKED := Mark("?")

  function HeldTokens(kind: Kind): seq<Token> {
    if kind == OfInstant then [Word(FROM_MILLIS), OPEN, ASKED, COMMA, Quoted("UTC"), CLOSE] else [ASKED]
  }

  function HeldClause(kind: Kind, k: nat): Clause {
    if kind == OfInstant then Call(FROM_MILLIS, [Param(k), Constant(Text("UTC"))]) else Param(k)
  }

  function AskedTokens(count: nat): seq<Token> {
    if count == 0 then [Word("NULL")] else if count == 1 then [ASKED] else [ASKED, COMMA] + AskedTokens(count - 1)
  }

  function AskedClauses(count: nat, k: nat): seq<Clause> {
    if count == 0 then [Constant(Null)] else if count == 1 then [Param(k)] else [Param(k)] + AskedClauses(count - 1, k + 1)
  }

  function HasTokens(column: string): seq<Token> {
    [Word("has"), OPEN, Word(column), COMMA, ASKED, CLOSE]
  }

  function CarriesTokens(column: string, count: nat): seq<Token>
    requires count > 0
  {
    HasTokens(column) + (if count == 1 then [] else [Word("OR")] + CarriesTokens(column, count - 1))
  }

  function CarriesClause(column: string, count: nat, k: nat): Clause
    requires count > 0
  {
    var has := Call("has", [Column(column), Param(k)]);
    if count == 1 then has else Or(has, CarriesClause(column, count - 1, k + 1))
  }

  function ComparisonOf(operator: Operator): string {
    match operator
    case Above => ">"
    case AtLeast => ">="
    case Below => "<"
    case AtMost => "<="
    case _ => "="
  }

  function PresentTokens(column: string, kind: Kind, repeated: bool): seq<Token> {
    if repeated then [Word("notEmpty"), OPEN, Word(column), CLOSE]
    else match kind
         case OfNumber => [Word(column), Mark("!="), Word("0")]
         case OfTruth => [Word(column), Mark("="), Word("true")]
         case OfInstant => [Word(column), Mark("!=")] + HeldTokens(OfInstant)
         case _ => [Word(column), Mark("!="), Quoted("")]
  }

  function PresentClause(column: string, kind: Kind, repeated: bool, k: nat): Clause {
    if repeated then Call("notEmpty", [Column(column)])
    else match kind
         case OfNumber => Compare("!=", Column(column), Constant(Number(0.0)))
         case OfTruth => Compare("=", Column(column), Constant(Truth(true)))
         case OfInstant => Compare("!=", Column(column), HeldClause(OfInstant, k))
         case _ => Compare("!=", Column(column), Constant(Text("")))
  }

  function PredicateTokens(kept: Kept, operator: Operator, count: nat): seq<Token>
    requires kept.repeated && operator != Present ==> count > 0
  {
    var column := kept.column;
    if operator == Present then PresentTokens(column, kept.kind, kept.repeated)
    else if kept.repeated then [OPEN] + CarriesTokens(column, count) + [CLOSE]
    else match operator
         case OneOf => [Word(column), Word("IN"), OPEN] + AskedTokens(count) + [CLOSE]
         case Contains => [Word("position"), OPEN, Word(column), COMMA, ASKED, CLOSE, Mark(">"), Word("0")]
         case StartsWith => [Word("startsWith"), OPEN, Word(column), COMMA, ASKED, CLOSE]
         case EndsWith => [Word("endsWith"), OPEN, Word(column), COMMA, ASKED, CLOSE]
         case _ => [Word(column), Mark(ComparisonOf(operator))] + HeldTokens(kept.kind)
  }

  function PredicateClause(kept: Kept, operator: Operator, count: nat, k: nat): Clause
    requires kept.repeated && operator != Present ==> count > 0
  {
    var column := kept.column;
    if operator == Present then PresentClause(column, kept.kind, kept.repeated, k)
    else if kept.repeated then CarriesClause(column, count, k)
    else match operator
         case OneOf => Among(Column(column), AskedClauses(count, k))
         case Contains => Compare(">", Call("position", [Column(column), Param(k)]), Constant(Number(0.0)))
         case StartsWith => Call("startsWith", [Column(column), Param(k)])
         case EndsWith => Call("endsWith", [Column(column), Param(k)])
         case _ => Compare(ComparisonOf(operator), Column(column), HeldClause(kept.kind, k))
  }

  function TokensOf(schema: Schema, e: Expression): seq<Token>
    requires WellFormed(schema, e)
    decreases e
  {
    match e
    case Predicate(field, operator, values) => PredicateTokens(schema[field], operator, |values|)
    case All(terms) => [OPEN] + JoinedTokens(schema, terms, "AND") + [CLOSE]
    case Any(terms) => [OPEN] + JoinedTokens(schema, terms, "OR") + [CLOSE]
    case Negated(term) => [Word("NOT")] + TokensOf(schema, term)
  }

  function JoinedTokens(schema: Schema, terms: seq<Expression>, word: string): seq<Token>
    requires terms != [] && WellFormedAll(schema, terms)
    decreases terms
  {
    TokensOf(schema, terms[0]) + (if |terms| == 1 then [] else [Word(word)] + JoinedTokens(schema, terms[1..], word))
  }

  /** The clause read back, its placeholders numbered from `k`. */
  function ClauseOf(schema: Schema, e: Expression, k: nat): Clause
    requires WellFormed(schema, e)
    decreases e
  {
    match e
    case Predicate(field, operator, values) => PredicateClause(schema[field], operator, |values|, k)
    case All(terms) => GroupClause(schema, terms, k, true)
    case Any(terms) => GroupClause(schema, terms, k, false)
    case Negated(term) => Not(ClauseOf(schema, term, k))
  }

  function GroupClause(schema: Schema, terms: seq<Expression>, k: nat, every: bool): Clause
    requires terms != [] && WellFormedAll(schema, terms)
    decreases terms
  {
    var first := ClauseOf(schema, terms[0], k);
    if |terms| == 1 then first
    else
      var others := GroupClause(schema, terms[1..], k + |Values(schema, terms[0])|, every);
      if every then And(first, others) else Or(first, others)
  }

  // ---- The text is cut into those tokens ----

  lemma {:induction false} ColumnLexes(column: string)
    requires ValidColumn(column)
    ensures Lexes(column, [Word(column)])
  {
    LexWord(column);
  }

  lemma {:induction false} ZoneLexes()
    ensures Lexes("?, 'UTC')", [ASKED, COMMA, Quoted("UTC"), CLOSE])
  {
    QuotedLexes("UTC");
    var zone := "'" + "UTC" + "'";
    AskedThenQuoted(zone, [Quoted("UTC")]);
    assert "?, " + zone + ")" == "?, 'UTC')";
    assert [ASKED, COMMA] + [Quoted("UTC")] + [CLOSE] == [ASKED, COMMA, Quoted("UTC"), CLOSE];
  }

  lemma {:induction false} AskedThenQuoted(zone: string, tokens: seq<Token>)
    requires Lexes(zone, tokens) && |zone| > 1 && zone[0] == '\'' && zone[|zone| - 1] == '\''
    ensures Lexes("?, " + zone + ")", [ASKED, COMMA] + tokens + [CLOSE])
  {
    AskedCommaLexes();
    MarkLexes(")");
    Glue3("?, ", [ASKED, COMMA], zone, tokens, ")", [CLOSE]);
  }

  lemma {:induction false} AskedCommaLexes()
    ensures Lexes("?, ", [ASKED, COMMA])
  {
    MarkLexes("?");
    CommaLexes();
    Glue("?", [ASKED], ", ", [COMMA]);
    assert "?" + ", " == "?, " && [ASKED] + [COMMA] == [ASKED, COMMA];
  }

  lemma {:induction false} InstantLexes()
    ensures Lexes(INSTANT_PLACEHOLDER, HeldTokens(OfInstant))
  {
    OpenedWord(FROM_MILLIS);
    ZoneLexes();
    var left, asked := [Word(FROM_MILLIS), OPEN], [ASKED, COMMA, Quoted("UTC"), CLOSE];
    Glue(FROM_MILLIS + "(", left, "?, 'UTC')", asked);
    assert left + asked == HeldTokens(OfInstant);
  }

  lemma {:induction false} HeldLexes(kind: Kind)
    ensures Lexes(Placeholder(kind), HeldTokens(kind))
  {
    if kind == OfInstant { InstantLexes(); } else { MarkLexes("?"); }
  }

  lemma {:induction false} AskedLexes(count: nat)
    ensures Lexes(Placeholders(count), AskedTokens(count))
    decreases count
  {
    if count == 0 {
      LexWord("NULL");
    } else {
      MarkLexes("?");
      if count > 1 {
        CommaLexes();
        AskedLexes(count - 1);
        Glue3("?", [ASKED], ", ", [COMMA], Placeholders(count - 1), AskedTokens(count - 1));
        assert "?" + ", " == "?, ";
        assert [ASKED] + [COMMA] == [ASKED, COMMA];
      }
    }
  }

  lemma {:induction false} HasLexes(column: string)
    requires ValidColumn(column)
    ensures Lexes("has(" + column + ", ?)", HasTokens(column))
  {
    CallLexes("has", column);
    assert "has" + "(" + column + ", ?)" == "has(" + column + ", ?)";
  }

  lemma {:induction false} OrLexes()
    ensures Lexes(" OR ", [Word("OR")])
  {
    SpacedWord("OR");
    assert " " + "OR" + " " == " OR ";
  }

  lemma {:induction false} AndLexes()
    ensures Lexes(" AND ", [Word("AND")])
  {
    SpacedWord("AND");
    assert " " + "AND" + " " == " AND ";
  }

  lemma {:induction false} CarriesLexes(column: string, count: nat)
    requires ValidColumn(column) && count > 0
    ensures Lexes(CarriesText(column, count), CarriesTokens(column, count))
    decreases count
  {
    HasLexes(column);
    var one := "has(" + column + ", ?)";
    if count > 1 {
      CarriesLexes(column, count - 1);
      JoinLexes(one, HasTokens(column), " OR ", "OR", CarriesText(column, count - 1), CarriesTokens(column, count - 1));
    } else {
      assert CarriesText(column, count) == one;
      assert CarriesTokens(column, count) == HasTokens(column);
    }
  }

  /** Two texts with a separator between them. */
  lemma {:induction false} JoinLexes(a: string, ta: seq<Token>, separator: string, word: string, b: string, tb: seq<Token>)
    requires Lexes(a, ta) && Lexes(b, tb) && ((separator == " AND " && word == "AND") || (separator == " OR " && word == "OR"))
    ensures Lexes(a + (separator + b), ta + ([Word(word)] + tb))
  {
    if word == "AND" {
      AndLexes();
    } else {
      OrLexes();
    }
    SpacedLexes(a, ta, separator, [Word(word)], b, tb);
  }

  lemma {:induction false} SpacedLexes(a: string, ta: seq<Token>, separator: string, ts: seq<Token>, b: string, tb: seq<Token>)
    requires Lexes(a, ta) && Lexes(b, tb) && Lexes(separator, ts)
    requires |separator| > 1 && separator[0] == ' ' && separator[|separator| - 1] == ' '
    ensures Lexes(a + (separator + b), ta + (ts + tb))
  {
    Glue3(a, ta, separator, ts, b, tb);
    assert a + separator + b == a + (separator + b);
    assert ta + ts + tb == ta + (ts + tb);
  }

  lemma {:induction false} CallLexes(name: string, column: string)
    requires IsWord(name) && ValidColumn(column)
    ensures Lexes(name + "(" + column + ", ?)", [Word(name), OPEN, Word(column), COMMA, ASKED, CLOSE])
  {
    OpenedWord(name);
    ColumnLexes(column);
    AskedArgumentLexes();
    Glue3(name + "(", [Word(name), OPEN], column, [Word(column)], ", ?)", [COMMA, ASKED, CLOSE]);
    assert [Word(name), OPEN] + [Word(column)] + [COMMA, ASKED, CLOSE] == [Word(name), OPEN, Word(column), COMMA, ASKED, CLOSE];
  }

  /** A column compared to something. */
  lemma {:induction false} ComparedLexes(column: string, op: string, right: string, tokens: seq<Token>)
    requires ValidColumn(column) && op in {"=", ">", "<", "!=", ">=", "<="} && Lexes(right, tokens)
    ensures Lexes(column + (" " + op + " ") + right, [Word(column), Mark(op)] + tokens)
  {
    ColumnLexes(column);
    SpacedMark(op);
    Glue3(column, [Word(column)], " " + op + " ", [Mark(op)], right, tokens);
    assert [Word(column)] + [Mark(op)] == [Word(column), Mark(op)];
  }

  lemma {:induction false} LoneCallLexes(name: string, column: string)
    requires IsWord(name) && ValidColumn(column)
    ensures Lexes(name + "(" + column + ")", [Word(name), OPEN, Word(column), CLOSE])
  {
    OpenedWord(name);
    ColumnLexes(column);
    MarkLexes(")");
    Glue3(name + "(", [Word(name), OPEN], column, [Word(column)], ")", [CLOSE]);
    assert [Word(name), OPEN] + [Word(column)] + [CLOSE] == [Word(name), OPEN, Word(column), CLOSE];
  }

  lemma {:induction false} NotEmptyLexes(column: string)
    requires ValidColumn(column)
    ensures Lexes("notEmpty(" + column + ")", [Word("notEmpty"), OPEN, Word(column), CLOSE])
  {
    LoneCallLexes("notEmpty", column);
    assert "notEmpty" + "(" == "notEmpty(";
  }

  lemma {:induction false} NotZeroLexes(column: string)
    requires ValidColumn(column)
    ensures Lexes(column + " != 0", [Word(column), Mark("!="), Word("0")])
  {
    LexWord("0");
    ComparedLexes(column, "!=", "0", [Word("0")]);
    assert column + (" " + "!=" + " ") + "0" == column + " != 0";
    assert [Word(column), Mark("!=")] + [Word("0")] == [Word(column), Mark("!="), Word("0")];
  }

  lemma {:induction false} IsTrueLexes(column: string)
    requires ValidColumn(column)
    ensures Lexes(column + " = true", [Word(column), Mark("="), Word("true")])
  {
    LexWord("true");
    ComparedLexes(column, "=", "true", [Word("true")]);
    assert column + (" " + "=" + " ") + "true" == column + " = true";
    assert [Word(column), Mark("=")] + [Word("true")] == [Word(column), Mark("="), Word("true")];
  }

  lemma {:induction false} NotBlankLexes(column: string)
    requires ValidColumn(column)
    ensures Lexes(column + " != ''", [Word(column), Mark("!="), Quoted("")])
  {
    QuotedLexes("");
    assert "'" + "" + "'" == "''";
    ComparedLexes(column, "!=", "''", [Quoted("")]);
    assert column + (" " + "!=" + " ") + "''" == column + " != ''";
    assert [Word(column), Mark("!=")] + [Quoted("")] == [Word(column), Mark("!="), Quoted("")];
  }

  lemma {:induction false} NotEpochLexes(column: string)
    requires ValidColumn(column)
    ensures Lexes(column + " != " + INSTANT_PLACEHOLDER, [Word(column), Mark("!=")] + HeldTokens(OfInstant))
  {
    InstantLexes();
    ComparedLexes(column, "!=", INSTANT_PLACEHOLDER, HeldTokens(OfInstant));
    assert " " + "!=" + " " == " != ";
  }

  lemma {:induction false} PresentLexes(column: string, kind: Kind, repeated: bool)
    requires ValidColumn(column)
    ensures Lexes(PresentText(column, kind, repeated), PresentTokens(column, kind, repeated))
  {
    if repeated {
      NotEmptyLexes(column);
    } else {
      match kind {
        case OfNumber => NotZeroLexes(column);
        case OfTruth => IsTrueLexes(column);
        case OfInstant => NotEpochLexes(column);
        case OfText => NotBlankLexes(column);
        case OfChoice => NotBlankLexes(column);
      }
    }
  }

  lemma {:induction false} OneOfLexes(column: string, count: nat)
    requires ValidColumn(column)
    ensures Lexes(column + " IN (" + Placeholders(count) + ")", [Word(column), Word("IN"), OPEN] + AskedTokens(count) + [CLOSE])
  {
    ColumnLexes(column);
    InLexes();
    AskedLexes(count);
    MarkLexes(")");
    Glue(column, [Word(column)], " IN (", [Word("IN"), OPEN]);
    assert [Word(column)] + [Word("IN"), OPEN] == [Word(column), Word("IN"), OPEN];
    assert Placeholders(count) != "";
    assert (column + " IN (")[|column + " IN ("| - 1] == '(';
    Glue3(column + " IN (", [Word(column), Word("IN"), OPEN], Placeholders(count), AskedTokens(count), ")", [CLOSE]);
  }

  lemma {:induction false} InLexes()
    ensures Lexes(" IN (", [Word("IN"), OPEN])
  {
    SpacedWord("IN");
    assert " " + "IN" + " " == " IN ";
    MarkLexes("(");
    Glue(" IN ", [Word("IN")], "(", [OPEN]);
    assert " IN " + "(" == " IN (";
    assert [Word("IN")] + [OPEN] == [Word("IN"), OPEN];
  }

  lemma {:induction false} AboveZeroLexes()
    ensures Lexes(" > 0", [Mark(">"), Word("0")])
  {
    SpacedMark(">");
    assert " " + ">" + " " == " > ";
    LexWord("0");
    Glue(" > ", [Mark(">")], "0", [Word("0")]);
    assert " > " + "0" == " > 0";
    assert [Mark(">")] + [Word("0")] == [Mark(">"), Word("0")];
  }

  lemma {:induction false} ContainsText(column: string)
    ensures "position" + "(" + column + ", ?)" + " > 0" == "position(" + column + ", ?) > 0"
  {
    assert "position" + "(" == "position(";
    assert column + ", ?)" + " > 0" == column + ", ?) > 0" by {
      assert ", ?)" + " > 0" == ", ?) > 0";
    }
  }

  lemma {:induction false} ContainsLexes(column: string)
    requires ValidColumn(column)
    ensures Lexes("position(" + column + ", ?) > 0", [Word("position"), OPEN, Word(column), COMMA, ASKED, CLOSE, Mark(">"), Word("0")])
  {
    var call, tokens := "position" + "(" + column + ", ?)", [Word("position"), OPEN, Word(column), COMMA, ASKED, CLOSE];
    CallLexes("position", column);
    AboveZeroLexes();
    Glue(call, tokens, " > 0", [Mark(">"), Word("0")]);
    ContainsText(column);
    assert tokens + [Mark(">"), Word("0")] == [Word("position"), OPEN, Word(column), COMMA, ASKED, CLOSE, Mark(">"), Word("0")];
  }

  lemma {:induction false} StartsWithLexes(column: string)
    requires ValidColumn(column)
    ensures Lexes("startsWith(" + column + ", ?)", [Word("startsWith"), OPEN, Word(column), COMMA, ASKED, CLOSE])
  {
    CallLexes("startsWith", column);
    assert "startsWith" + "(" == "startsWith(";
  }

  lemma {:induction false} EndsWithLexes(column: string)
    requires ValidColumn(column)
    ensures Lexes("endsWith(" + column + ", ?)", [Word("endsWith"), OPEN, Word(column), COMMA, ASKED, CLOSE])
  {
    CallLexes("endsWith", column);
    assert "endsWith" + "(" == "endsWith(";
  }

  lemma {:induction false} HeldComparisonLexes(column: string, kind: Kind, op: string, spaced: string)
    requires ValidColumn(column) && op in {"=", ">", "<", ">=", "<="} && spaced == " " + op + " "
    ensures Lexes(column + spaced + Placeholder(kind), [Word(column), Mark(op)] + HeldTokens(kind))
  {
    HeldLexes(kind);
    ComparedLexes(column, op, Placeholder(kind), HeldTokens(kind));
  }

  lemma {:induction false} ListLexes(column: string, count: nat)
    requires ValidColumn(column) && count > 0
    ensures Lexes("(" + CarriesText(column, count) + ")", [OPEN] + CarriesTokens(column, count) + [CLOSE])
  {
    CarriesLexes(column, count);
    EnclosedLexes(CarriesText(column, count), CarriesTokens(column, count));
  }

  lemma {:induction false} EnclosedLexes(text: string, tokens: seq<Token>)
    requires text != "" && Lexes(text, tokens)
    ensures Lexes("(" + text + ")", [OPEN] + tokens + [CLOSE])
  {
    MarkLexes("(");
    MarkLexes(")");
    Glue3("(", [OPEN], text, tokens, ")", [CLOSE]);
  }

  lemma {:induction false} PredicateLexes(kept: Kept, operator: Operator, count: nat)
    requires ValidColumn(kept.column) && (kept.repeated && operator != Present ==> count > 0)
    ensures Lexes(PredicateText(kept, operator, count), PredicateTokens(kept, operator, count))
  {
    var column := kept.column;
    if operator == Present {
      PresentLexes(column, kept.kind, kept.repeated);
    } else if kept.repeated {
      ListLexes(column, count);
    } else {
      match operator {
        case Equals => HeldComparisonLexes(column, kept.kind, "=", " = ");
        case OneOf => OneOfLexes(column, count);
        case Contains => ContainsLexes(column);
        case StartsWith => StartsWithLexes(column);
        case EndsWith => EndsWithLexes(column);
        case Above => HeldComparisonLexes(column, kept.kind, ">", " > ");
        case AtLeast => HeldComparisonLexes(column, kept.kind, ">=", " >= ");
        case Below => HeldComparisonLexes(column, kept.kind, "<", " < ");
        case AtMost => HeldComparisonLexes(column, kept.kind, "<=", " <= ");
      }
    }
  }

  lemma {:induction false} NotLexes(text: string, tokens: seq<Token>)
    requires Lexes(text, tokens)
    ensures Lexes("NOT " + text, [Word("NOT")] + tokens)
  {
    LexWord("NOT");
    SpaceLexes();
    Glue("NOT", [Word("NOT")], " ", []);
    assert "NOT" + " " == "NOT " && [Word("NOT")] + [] == [Word("NOT")];
    Glue("NOT ", [Word("NOT")], text, tokens);
  }

  lemma {:induction false} WrittenLexes(schema: Schema, e: Expression)
    requires ValidSchema(schema) && WellFormed(schema, e)
    ensures Lexes(Written(schema, e), TokensOf(schema, e))
    decreases e
  {
    match e
    case Predicate(field, operator, values) =>
      PredicateLexes(schema[field], operator, |values|);
    case All(terms) =>
      JoinedLexes(schema, terms, " AND ", "AND");
      EnclosedLexes(Joined(schema, terms, " AND "), JoinedTokens(schema, terms, "AND"));
    case Any(terms) =>
      JoinedLexes(schema, terms, " OR ", "OR");
      EnclosedLexes(Joined(schema, terms, " OR "), JoinedTokens(schema, terms, "OR"));
    case Negated(term) =>
      WrittenLexes(schema, term);
      NotLexes(Written(schema, term), TokensOf(schema, term));
  }

  lemma {:induction false} JoinedLexes(schema: Schema, terms: seq<Expression>, separator: string, word: string)
    requires ValidSchema(schema) && terms != [] && WellFormedAll(schema, terms)
    requires (separator == " AND " && word == "AND") || (separator == " OR " && word == "OR")
    ensures Lexes(Joined(schema, terms, separator), JoinedTokens(schema, terms, word))
    ensures Joined(schema, terms, separator) != ""
    decreases terms
  {
    WrittenLexes(schema, terms[0]);
    var first, tokens := Written(schema, terms[0]), TokensOf(schema, terms[0]);
    WrittenIsText(schema, terms[0]);
    if |terms| > 1 {
      JoinedLexes(schema, terms[1..], separator, word);
      JoinLexes(first, tokens, separator, word, Joined(schema, terms[1..], separator), JoinedTokens(schema, terms[1..], word));
    } else {
      assert first + "" == first && tokens + [] == tokens;
    }
  }

  lemma {:induction false} WrittenIsText(schema: Schema, e: Expression)
    requires WellFormed(schema, e)
    ensures Written(schema, e) != ""
  {
  }
}
