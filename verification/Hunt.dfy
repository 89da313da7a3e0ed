/**
 The hunt compiler (internal/clickhouse/hunt.go): a boolean question about the fields of a record, written as a
 WHERE clause with placeholders and the values bound to them.
 */
module Hunt {
  import opened Sql

  datatype Kind = OfText | OfNumber | OfTruth | OfChoice | OfInstant

  datatype Operator = Equals | OneOf | Contains | StartsWith | EndsWith | Above | AtLeast | Below | AtMost | Present

  /** A literal of a question.  An instant is held to the nanosecond. */
  datatype Value =
    | TextValue(text: string)
    | NumberValue(number: real)
    | TruthValue(truth: bool)
    | ChoiceValue(text: string)
    | InstantValue(nanos: int)

  datatype Expression =
    | Predicate(field: string, operator: Operator, values: seq<Value>)
    | All(terms: seq<Expression>)
    | Any(terms: seq<Expression>)
    | Negated(term: Expression)

  /** Where the store keeps a field, and what it keeps there. */
  datatype Kept = Kept(column: string, kind: Kind, repeated: bool)

  type Schema = map<string, Kept>

  predicate ValidColumn(name: string) {
    && name != "" && name != "true"
    && (forall i :: 0 <= i < |name| ==> 'a' <= name[i] <= 'z' || name[i] == '_' || '0' <= name[i] <= '9')
    && 'a' <= name[0] <= 'z'
  }

  predicate ValidSchema(schema: Schema) {
    forall field :: field in schema ==> ValidColumn(schema[field].column)
  }

  /** The kind of the literals an operator may ask a kind of field with. */
  predicate Asks(operator: Operator, kind: Kind) {
    match operator
    case Equals => true
    case OneOf => kind in {OfText, OfNumber, OfChoice}
    case Contains => kind == OfText
    case StartsWith => kind == OfText
    case EndsWith => kind == OfText
    case Above => kind in {OfNumber, OfInstant}
    case AtLeast => kind in {OfNumber, OfInstant}
    case Below => kind in {OfNumber, OfInstant}
    case AtMost => kind in {OfNumber, OfInstant}
    case Present => true
  }

  function KindOf(value: Value): Kind {
    match value
    case TextValue(_) => OfText
    case NumberValue(_) => OfNumber
    case TruthValue(_) => OfTruth
    case ChoiceValue(_) => OfChoice
    case InstantValue(_) => OfInstant
  }

  /** What the query compiler lets through: a declared field, an operator that asks it, and literals of its kind. */
  predicate WellFormed(schema: Schema, e: Expression)
    decreases e
  {
    match e
    case Predicate(field, operator, values) =>
      && field in schema
      && Asks(operator, schema[field].kind)
      && (schema[field].repeated ==> operator in {Equals, OneOf, Present})
      && (match operator
          case Present => values == []
          case OneOf => values != []
          case _ => |values| == 1)
      && forall i :: 0 <= i < |values| ==> KindOf(values[i]) == schema[field].kind
    case All(terms) => terms != [] && forall i :: 0 <= i < |terms| ==> WellFormed(schema, terms[i])
    case Any(terms) => terms != [] && forall i :: 0 <= i < |terms| ==> WellFormed(schema, terms[i])
    case Negated(term) => WellFormed(schema, term)
  }

  predicate WellFormedAll(schema: Schema, terms: seq<Expression>) {
    forall i :: 0 <= i < |terms| ==> WellFormed(schema, terms[i])
  }

  // ---- What a question asks ----

  const NANOS_PER_MILLI := 1_000_000

  /** The record carries, under each field's column, a cell of the field's kind, or a list of them. */
  predicate CellOf(kind: Kind, cell: Cell) {
    match kind
    case OfText => cell.Text?
    case OfNumber => cell.Number?
    case OfTruth => cell.Truth?
    case OfChoice => cell.Text?
    case OfInstant => cell.Instant?
  }

  predicate Fits(schema: Schema, record: Record) {
    forall field :: field in schema ==>
      && schema[field].column in record
      && var cell := record[schema[field].column];
      if schema[field].repeated
      then cell.List? && forall i :: 0 <= i < |cell.items| ==> CellOf(schema[field].kind, cell.items[i])
      else CellOf(schema[field].kind, cell)
  }

  /** A cell and a literal of its kind, compared as what they stand for. */
  predicate Same(cell: Cell, value: Value) {
    match (cell, value)
    case (Text(t), TextValue(v)) => t == v
    case (Text(t), ChoiceValue(v)) => t == v
    case (Number(n), NumberValue(v)) => n == v
    case (Truth(t), TruthValue(v)) => t == v
    case (Instant(m), InstantValue(v)) => m * NANOS_PER_MILLI == v
    case _ => false
  }

  predicate Before(cell: Cell, value: Value) {
    match (cell, value)
    case (Number(n), NumberValue(v)) => n < v
    case (Instant(m), InstantValue(v)) => m * NANOS_PER_MILLI < v
    case _ => false
  }

  predicate After(cell: Cell, value: Value) {
    match (cell, value)
    case (Number(n), NumberValue(v)) => n > v
    case (Instant(m), InstantValue(v)) => m * NANOS_PER_MILLI > v
    case _ => false
  }

  /** Whether a record carries anything: proto3 writes the zero value for what is absent. */
  predicate Carries(cell: Cell) {
    match cell
    case Text(t) => t != ""
    case Number(n) => n != 0.0
    case Truth(t) => t
    case Instant(m) => m != 0
    case List(items) => items != []
    case _ => false
  }

  ghost predicate AsksTrue(cell: Cell, operator: Operator, values: seq<Value>)
    requires operator != Present ==> values != []
  {
    match operator
    case Present => Carries(cell)
    case Equals => Same(cell, values[0])
    case OneOf => exists i :: 0 <= i < |values| && Same(cell, values[i])
    case Contains => cell.Text? && values[0].TextValue? && exists i: nat :: Stands(cell.text, values[0].text, i)
    case StartsWith => cell.Text? && values[0].TextValue? && Stands(cell.text, values[0].text, 0)
    case EndsWith => cell.Text? && values[0].TextValue? && exists i: nat :: i + |values[0].text| == |cell.text| && Stands(cell.text, values[0].text, i)
    case Above => After(cell, values[0])
    case AtLeast => After(cell, values[0]) || Same(cell, values[0])
    case Below => Before(cell, values[0])
    case AtMost => Before(cell, values[0]) || Same(cell, values[0])
  }

  /** What the question means: of a list, whether it carries one of the values. */
  ghost predicate Meaning(schema: Schema, e: Expression, record: Record)
    requires WellFormed(schema, e) && Fits(schema, record)
    decreases e
  {
    match e
    case Predicate(field, operator, values) =>
      var cell := record[schema[field].column];
      if schema[field].repeated && operator != Present
      then exists i, j :: 0 <= i < |cell.items| && 0 <= j < |values| && Same(cell.items[i], values[j])
      else AsksTrue(cell, operator, values)
    case All(terms) => forall i :: 0 <= i < |terms| ==> Meaning(schema, terms[i], record)
    case Any(terms) => exists i :: 0 <= i < |terms| && Meaning(schema, terms[i], record)
    case Negated(term) => !Meaning(schema, term, record)
  }

  // ---- What the compiler writes ----

  const FROM_MILLIS := "fromUnixTimestamp64Milli"
  const INSTANT_PLACEHOLDER := FROM_MILLIS + "(" + "?, 'UTC')"

  function Placeholder(kind: Kind): string {
    if kind == OfInstant then INSTANT_PLACEHOLDER else "?"
  }

  function Placeholders(count: nat): string {
    if count == 0 then "NULL" else if count == 1 then "?" else "?, " + Placeholders(count - 1)
  }

  /** The value a literal is bound as: an instant by the whole milliseconds of it. */
  function Bound(value: Value): Cell {
    match value
    case TextValue(text) => Text(text)
    case NumberValue(number) => Number(number)
    case TruthValue(truth) => Truth(truth)
    case ChoiceValue(text) => Text(text)
    case InstantValue(nanos) => Number((nanos / NANOS_PER_MILLI) as real)
  }

  function BoundAll(values: seq<Value>): seq<Cell> {
    seq(|values|, i requires 0 <= i < |values| => Bound(values[i]))
  }

  function PresentText(column: string, kind: Kind, repeated: bool): string {
    if repeated then "notEmpty(" + column + ")"
    else match kind
         case OfNumber => column + " != 0"
         case OfTruth => column + " = true"
         case OfInstant => column + " != " + INSTANT_PLACEHOLDER
         case _ => column + " != ''"
  }

  function PresentBound(kind: Kind, repeated: bool): seq<Cell> {
    if !repeated && kind == OfInstant then [Number(0.0)] else []
  }

  function CarriesText(column: string, count: nat): string
    requires count > 0
  {
    "has(" + column + ", ?)" + (if count == 1 then "" else " OR " + CarriesText(column, count - 1))
  }

  function PredicateText(kept: Kept, operator: Operator, count: nat): string
    requires kept.repeated && operator != Present ==> count > 0
  {
    var column, held := kept.column, Placeholder(kept.kind);
    if operator == Present then PresentText(column, kept.kind, kept.repeated)
    else if kept.repeated then "(" + CarriesText(column, count) + ")"
    else match operator
         case Equals => column + " = " + held
         case OneOf => column + " IN (" + Placeholders(count) + ")"
         case Contains => "position(" + column + ", ?) > 0"
         case StartsWith => "startsWith(" + column + ", ?)"
         case EndsWith => "endsWith(" + column + ", ?)"
         case Above => column + " > " + held
         case AtLeast => column + " >= " + held
         case Below => column + " < " + held
         case AtMost => column + " <= " + held
         case Present => ""
  }

  /** The clause a question is written as. */
  function Written(schema: Schema, e: Expression): string
    requires WellFormed(schema, e)
    decreases e
  {
    match e
    case Predicate(field, operator, values) => PredicateText(schema[field], operator, |values|)
    case All(terms) => "(" + Joined(schema, terms, " AND ") + ")"
    case Any(terms) => "(" + Joined(schema, terms, " OR ") + ")"
    case Negated(term) => "NOT " + Written(schema, term)
  }

  function Joined(schema: Schema, terms: seq<Expression>, separator: string): string
    requires terms != [] && WellFormedAll(schema, terms)
    decreases terms
  {
    Written(schema, terms[0]) + (if |terms| == 1 then "" else separator + Joined(schema, terms[1..], separator))
  }

  /** The values bound to its placeholders, from the left. */
  function Values(schema: Schema, e: Expression): seq<Cell>
    requires WellFormed(schema, e)
    decreases e
  {
    match e
    case Predicate(field, operator, values) =>
      if operator == Present then PresentBound(schema[field].kind, schema[field].repeated) else BoundAll(values)
    case All(terms) => ValuesOf(schema, terms)
    case Any(terms) => ValuesOf(schema, terms)
    case Negated(term) => Values(schema, term)
  }

  function ValuesOf(schema: Schema, terms: seq<Expression>): seq<Cell>
    requires terms != [] && WellFormedAll(schema, terms)
    decreases terms
  {
    Values(schema, terms[0]) + (if |terms| == 1 then [] else ValuesOf(schema, terms[1..]))
  }
}
