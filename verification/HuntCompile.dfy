/** The hunt compiler as it runs: slices of written terms and bound values, filled one at a time and joined. */
module HuntCompile {
  import opened Wrappers
  import opened Sql
  import opened Hunt
  import opened HuntWhere

  /** A written clause and the values bound to its placeholders. */
  datatype Rendered = Rendered(text: string, values: seq<Cell>)

  /** The fields a question names. */
  function Fields(e: Expression): set<string>
    decreases e
  {
    match e
    case Predicate(field, _, _) => {field}
    case All(terms) => FieldsOf(terms)
    case Any(terms) => FieldsOf(terms)
    case Negated(term) => Fields(term)
  }

  function FieldsOf(terms: seq<Expression>): set<string>
    decreases terms
  {
    if terms == [] then {} else Fields(terms[0]) + FieldsOf(terms[1..])
  }

  function WrittenEach(schema: Schema, terms: seq<Expression>): seq<string>
    requires WellFormedAll(schema, terms)
  {
    seq(|terms|, i requires 0 <= i < |terms| => Written(schema, terms[i]))
  }

  function ValuesAfter(schema: Schema, terms: seq<Expression>): seq<Cell>
    requires WellFormedAll(schema, terms)
  {
    if terms == [] then [] else ValuesOf(schema, terms)
  }

  lemma {:induction false} JoinedIsJoin(schema: Schema, terms: seq<Expression>, separator: string)
    requires terms != [] && WellFormedAll(schema, terms)
    ensures Joined(schema, terms, separator) == Join(WrittenEach(schema, terms), separator)
    decreases |terms|
  {
    if |terms| > 1 {
      JoinedIsJoin(schema, terms[1..], separator);
      assert WrittenEach(schema, terms)[1..] == WrittenEach(schema, terms[1..]);
    }
  }

  /** The terms not yet written bind what the first of them binds, and then what the others do. */
  lemma ValuesAfterStep(schema: Schema, terms: seq<Expression>)
    requires terms != [] && WellFormedAll(schema, terms)
    ensures WellFormedAll(schema, terms[1..])
    ensures ValuesAfter(schema, terms) == Values(schema, terms[0]) + ValuesAfter(schema, terms[1..])
  {
  }

  lemma {:induction false} CarriesIsJoin(column: string, written: seq<string>)
    requires written != [] && forall i :: 0 <= i < |written| ==> written[i] == "has(" + column + ", ?)"
    ensures Join(written, " OR ") == CarriesText(column, |written|)
    decreases |written|
  {
    if |written| > 1 {
      CarriesIsJoin(column, written[1..]);
    }
  }

  lemma {:induction false} ListedIsJoin(names: seq<string>)
    requires names != []
    ensures ", " + Join(names, ", ") == Listed(names)
    decreases |names|
  {
    if |names| > 1 {
      ListedIsJoin(names[1..]);
      assert ", " + (names[0] + (", " + Join(names[1..], ", "))) == (", " + names[0]) + (", " + Join(names[1..], ", "));
    } else {
      assert Listed(names) == ", " + names[0];
    }
  }

  method Bind(values: seq<Value>) returns (bound: seq<Cell>)
    ensures bound == BoundAll(values)
  {
    bound := [];
    for i := 0 to |values|
      invariant bound == BoundAll(values[..i])
    {
      assert values[..i + 1] == values[..i] + [values[i]];
      match values[i] {
        case TextValue(text) => bound := bound + [Text(text)];
        case NumberValue(number) => bound := bound + [Number(number)];
        case TruthValue(truth) => bound := bound + [Truth(truth)];
        case ChoiceValue(text) => bound := bound + [Text(text)];
        case InstantValue(nanos) => bound := bound + [Number((nanos / NANOS_PER_MILLI) as real)];
      }
    }
    assert values[..|values|] == values;
  }

  method CarriesOf(column: string, values: seq<Value>) returns (r: Rendered)
    requires values != []
    ensures r == Rendered("(" + CarriesText(column, |values|) + ")", BoundAll(values))
  {
    var written: seq<string> := [];
    for i := 0 to |values|
      invariant |written| == i && forall j :: 0 <= j < i ==> written[j] == "has(" + column + ", ?)"
    {
      written := written + ["has(" + column + ", ?)"];
    }
    CarriesIsJoin(column, written);
    var bound := Bind(values);
    r := Rendered("(" + Join(written, " OR ") + ")", bound);
  }

  /** A field the store keeps no column for is refused. */
  method PredicateOf(schema: Schema, columns: set<string>, e: Expression) returns (r: Result<Rendered, string>)
    requires e.Predicate? && WellFormed(schema, e)
    ensures r.Ok? <==> Fields(e) <= columns
    ensures r.Ok? ==> r.value == Rendered(Written(schema, e), Values(schema, e))
  {
    if e.field !in columns {
      assert e.field in Fields(e);
      return Err("the store keeps no column for " + e.field);
    }
    var kept := schema[e.field];
    if e.operator == Present {
      return Ok(Rendered(PresentText(kept.column, kept.kind, kept.repeated), PresentBound(kept.kind, kept.repeated)));
    }
    if kept.repeated {
      var carried := CarriesOf(kept.column, e.values);
      return Ok(carried);
    }
    var bound := Bind(e.values);
    return Ok(Rendered(PredicateText(kept, e.operator, |e.values|), bound));
  }

  /** The whole question is written, or the first field without a column refuses it. */
  method Condition(schema: Schema, columns: set<string>, e: Expression) returns (r: Result<Rendered, string>)
    requires WellFormed(schema, e)
    ensures r.Ok? <==> Fields(e) <= columns
    ensures r.Ok? ==> r.value == Rendered(Written(schema, e), Values(schema, e))
    decreases e
  {
    match e {
      case Predicate(_, _, _) =>
        r := PredicateOf(schema, columns, e);
      case All(terms) =>
        r := Group(schema, columns, terms, " AND ");
      case Any(terms) =>
        r := Group(schema, columns, terms, " OR ");
      case Negated(term) =>
        var inner := Condition(schema, columns, term);
        r := if inner.Ok? then Ok(Rendered("NOT " + inner.value.text, inner.value.values)) else Err(inner.error);
    }
  }

  lemma {:induction false} FieldsSplit(terms: seq<Expression>, i: nat)
    requires i < |terms|
    ensures Fields(terms[i]) <= FieldsOf(terms) && FieldsOf(terms[..i + 1]) == FieldsOf(terms[..i]) + Fields(terms[i])
    decreases i
  {
    if i > 0 {
      FieldsSplit(terms[1..], i - 1);
      assert terms[..i + 1][1..] == terms[1..][..i] && terms[..i][1..] == terms[1..][..i - 1];
    }
  }

  /** The first terms are written, and their values bound. */
  ghost predicate WrittenSoFar(schema: Schema, columns: set<string>, terms: seq<Expression>, i: nat, written: seq<string>, values: seq<Cell>) {
    && i <= |terms| && WellFormedAll(schema, terms[..i]) && WellFormedAll(schema, terms[i..])
    && written == WrittenEach(schema, terms[..i])
    && values + ValuesAfter(schema, terms[i..]) == ValuesAfter(schema, terms)
    && FieldsOf(terms[..i]) <= columns
  }

  lemma WrittenEachThen(schema: Schema, terms: seq<Expression>, i: nat)
    requires i < |terms| && WellFormedAll(schema, terms[..i]) && WellFormed(schema, terms[i])
    ensures WellFormedAll(schema, terms[..i + 1])
    ensures WrittenEach(schema, terms[..i + 1]) == WrittenEach(schema, terms[..i]) + [Written(schema, terms[i])]
  {
  }

  lemma WrittenStep(schema: Schema, columns: set<string>, terms: seq<Expression>, i: nat, written: seq<string>, values: seq<Cell>)
    requires i < |terms| && WellFormedAll(schema, terms) && WrittenSoFar(schema, columns, terms, i, written, values)
    ensures Fields(terms[i]) <= FieldsOf(terms)
    ensures Fields(terms[i]) <= columns ==>
      WrittenSoFar(schema, columns, terms, i + 1, written + [Written(schema, terms[i])], values + Values(schema, terms[i]))
  {
    FieldsSplit(terms, i);
    ValuesAfterStep(schema, terms[i..]);
    assert terms[i..][1..] == terms[i + 1..] && terms[i..][0] == terms[i];
    WrittenEachThen(schema, terms, i);
    Regrouped(values, Values(schema, terms[i]), ValuesAfter(schema, terms[i + 1..]));
  }

  lemma Regrouped(a: seq<Cell>, b: seq<Cell>, c: seq<Cell>)
    ensures a + (b + c) == a + b + c
  {
  }

  lemma WrittenWhole(schema: Schema, columns: set<string>, terms: seq<Expression>, written: seq<string>, values: seq<Cell>, separator: string)
    requires terms != [] && WellFormedAll(schema, terms) && WrittenSoFar(schema, columns, terms, |terms|, written, values)
    ensures Join(written, separator) == Joined(schema, terms, separator) && values == ValuesOf(schema, terms) && FieldsOf(terms) <= columns
  {
    assert terms[..|terms|] == terms && terms[|terms|..] == [];
    assert values + [] == values;
    JoinedIsJoin(schema, terms, separator);
  }

  method Group(schema: Schema, columns: set<string>, terms: seq<Expression>, separator: string) returns (r: Result<Rendered, string>)
    requires terms != [] && WellFormedAll(schema, terms)
    ensures r.Ok? <==> FieldsOf(terms) <= columns
    ensures r.Ok? ==> r.value == Rendered("(" + Joined(schema, terms, separator) + ")", ValuesOf(schema, terms))
    decreases terms
  {
    var written: seq<string>, values: seq<Cell> := [], [];
    assert terms[0..] == terms;
    for i := 0 to |terms|
      invariant WrittenSoFar(schema, columns, terms, i, written, values)
    {
      WrittenStep(schema, columns, terms, i, written, values);
      var one := Condition(schema, columns, terms[i]);
      if one.Err? {
        return Err(one.error);
      }
      written := written + [one.value.text];
      values := values + one.value.values;
    }
    WrittenWhole(schema, columns, terms, written, values, separator);
    r := Ok(Rendered("(" + Join(written, separator) + ")", values));
  }

  /** A position naming another number of keys than the table is sorted by is refused, as is a field without a column. */
  method Compile(dataset: Dataset, schema: Schema, columns: set<string>, query: Query) returns (r: Result<Rendered, string>)
    requires dataset.names != [] && ValidQuery(schema, query)
    ensures r.Ok? <==> Compilable(dataset, query) && (query.where.Some? ==> Fields(query.where.value) <= columns)
    ensures r.Ok? ==> r.value == Rendered(Join(Conditions(dataset, schema, query), " AND "), Arguments(schema, query))
  {
    var conditions := Scoped(dataset, |query.tenants|);
    var tenants := TextsLoop(query.tenants);
    var arguments := tenants + [Number(Millis(query.start) as real), Number(Millis(query.end) as real)];
    if query.after.Some? {
      var after := query.after.value;
      if |after.names| != |dataset.names| {
        return Err("a position does not name the keys its table is sorted by");
      }
      var behind := Behind(dataset);
      conditions := conditions + [behind];
      var names := TextsLoop(after.names);
      arguments := arguments + ([Number(after.millis as real)] + names);
    }
    if query.where.Some? {
      var written := Condition(schema, columns, query.where.value);
      if written.Err? {
        return Err(written.error);
      }
      conditions := conditions + [written.value.text];
      arguments := arguments + written.value.values;
    }
    assert conditions == Conditions(dataset, schema, query);
    assert arguments == Arguments(schema, query);
    r := Ok(Rendered(Join(conditions, " AND "), arguments));
  }

  /** The condition on tenants and the one on the window. */
  method Scoped(dataset: Dataset, count: nat) returns (conditions: seq<string>)
    ensures conditions == [PredicateText(TENANT, OneOf, count), WindowText(dataset)]
  {
    var within := "tenant_id IN (" + Placeholders(count) + ")";
    var window := dataset.instant + " >= " + INSTANT_PLACEHOLDER + " AND " + dataset.instant + " < " + INSTANT_PLACEHOLDER;
    FirstConditions(dataset, count);
    conditions := [within, window];
  }

  /** The condition that resumes after a position. */
  method Behind(dataset: Dataset) returns (behind: string)
    requires dataset.names != []
    ensures behind == BehindText(dataset)
  {
    behind := "(" + dataset.instant + ", " + Join(dataset.names, ", ") + ") < (" + INSTANT_PLACEHOLDER + Asking(|dataset.names|) + ")";
    BehindIsWritten(dataset);
  }

  method TextsLoop(names: seq<string>) returns (texts: seq<Cell>)
    ensures texts == Texts(names)
  {
    texts := [];
    for i := 0 to |names|
      invariant texts == Texts(names[..i])
    {
      texts := texts + [Text(names[i])];
    }
    assert names[..|names|] == names;
  }

  lemma FirstConditions(dataset: Dataset, count: nat)
    ensures "tenant_id IN (" + Placeholders(count) + ")" == PredicateText(TENANT, OneOf, count)
    ensures dataset.instant + " >= " + INSTANT_PLACEHOLDER + " AND " + dataset.instant + " < " + INSTANT_PLACEHOLDER == WindowText(dataset)
  {
    assert "tenant_id" + " IN (" == "tenant_id IN (";
    Spread(dataset.instant + " >= " + INSTANT_PLACEHOLDER, " AND ", dataset.instant, " < ", INSTANT_PLACEHOLDER);
  }

  lemma Spread(a: string, b: string, c: string, d: string, e: string)
    ensures a + b + c + d + e == a + (b + (c + d + e))
  {
  }

  lemma BehindIsWritten(dataset: Dataset)
    requires dataset.names != []
    ensures "(" + dataset.instant + ", " + Join(dataset.names, ", ") + ") < (" + INSTANT_PLACEHOLDER + Asking(|dataset.names|) + ")"
         == BehindText(dataset)
  {
    ListedIsJoin(dataset.names);
    assert "(" + dataset.instant + ", " + Join(dataset.names, ", ") == "(" + dataset.instant + (", " + Join(dataset.names, ", "));
  }
}
