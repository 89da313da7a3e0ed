/**
 The clause a question is read back as is true of a record exactly when the question is.

 An instant is bound by its whole milliseconds, and a list is asked for the number an instant is bound as, so two
 families of questions about instants are not read as they were asked: `Exact` is what tells them apart.
 */
module HuntMeaning {
  import opened Wrappers
  import opened Sql
  import opened SqlText
  import opened Hunt
  import opened HuntText
  import opened HuntParse

  predicate Whole(value: Value) {
    value.InstantValue? && value.nanos % NANOS_PER_MILLI == 0
  }

  /** Questions of other kinds are always read as asked.  Of one instant, an order that does not turn on the instant itself, or a whole millisecond; of a list of instants, only what no list could carry. */
  predicate Exact(kept: Kept, operator: Operator, values: seq<Value>)
    requires operator != Present ==> values != []
  {
    || kept.kind != OfInstant || operator == Present
    || (if kept.repeated then forall i :: 0 <= i < |values| ==> !Whole(values[i])
        else operator in {Above, AtMost} || Whole(values[0]))
  }

  predicate ExactAll(schema: Schema, e: Expression)
    requires WellFormed(schema, e)
    decreases e
  {
    match e
    case Predicate(field, operator, values) => Exact(schema[field], operator, values)
    case All(terms) => forall i :: 0 <= i < |terms| ==> ExactAll(schema, terms[i])
    case Any(terms) => forall i :: 0 <= i < |terms| ==> ExactAll(schema, terms[i])
    case Negated(term) => ExactAll(schema, term)
  }

  /** The values a question binds stand in the bound values from `k` on. */
  predicate BoundAt(bound: seq<Cell>, k: nat, values: seq<Cell>) {
    k + |values| <= |bound| && bound[k..k + |values|] == values
  }

  lemma {:induction false} BoundAtIndex(bound: seq<Cell>, k: nat, values: seq<Cell>, i: nat)
    requires BoundAt(bound, k, values) && i < |values|
    ensures bound[k + i] == values[i]
  {
    assert bound[k..k + |values|][i] == bound[k + i];
  }

  lemma {:induction false} BoundAtSplit(bound: seq<Cell>, k: nat, first: seq<Cell>, others: seq<Cell>)
    requires BoundAt(bound, k, first + others)
    ensures BoundAt(bound, k, first) && BoundAt(bound, k + |first|, others)
  {
    assert bound[k..k + |first|] == bound[k..k + |first + others|][..|first|];
    assert bound[k + |first|..k + |first + others|] == bound[k..k + |first + others|][|first|..];
  }

  /** What a placeholder stands for: an instant again, rebuilt from its milliseconds. */
  function Rebuilt(value: Value): Cell {
    if value.InstantValue? then Instant(value.nanos / NANOS_PER_MILLI) else Bound(value)
  }

  lemma {:induction false} HeldMeans(kind: Kind, value: Value, record: Record, bound: seq<Cell>, k: nat)
    requires KindOf(value) == kind && k < |bound| && bound[k] == Bound(value)
    ensures Eval(HeldClause(kind, k), record, bound) == Rebuilt(value)
  {
    if kind == OfInstant {
      var millis := value.nanos / NANOS_PER_MILLI;
      var args := [Param(k), Constant(Text("UTC"))];
      var cells := seq(|args|, i requires 0 <= i < |args| => Eval(args[i], record, bound));
      assert Eval(Param(k), record, bound) == Number(millis as real);
      assert cells[0] == Eval(args[0], record, bound);
      assert (millis as real).Floor == millis;
      assert Eval(HeldClause(kind, k), record, bound) == Apply(FROM_MILLIS, cells);
    }
  }

  /** Comparing a cell with what its literal is rebuilt as, and with the literal itself. */
  lemma {:induction false} RebuiltCompares(cell: Cell, value: Value)
    requires CellOf(KindOf(value), cell)
    ensures Whole(value) || !value.InstantValue? ==> (Equal(cell, Rebuilt(value)) <==> Same(cell, value))
    ensures value.InstantValue? || value.NumberValue? ==> (Less(Rebuilt(value), cell) <==> After(cell, value))
    ensures Whole(value) || value.NumberValue? ==> (Less(cell, Rebuilt(value)) <==> Before(cell, value))
    ensures value.InstantValue? || value.NumberValue? ==>
      (Less(cell, Rebuilt(value)) || Equal(cell, Rebuilt(value)) <==> Before(cell, value) || Same(cell, value))
  {
  }

  lemma {:induction false} AskedMeans(cell: Cell, values: seq<Value>, record: Record, bound: seq<Cell>, k: nat)
    requires values != [] && BoundAt(bound, k, BoundAll(values)) && cell != Null
    requires forall i :: 0 <= i < |values| ==> CellOf(KindOf(values[i]), cell) && !values[i].InstantValue?
    ensures (exists i :: 0 <= i < |AskedClauses(|values|, k)| && Equal(cell, Eval(AskedClauses(|values|, k)[i], record, bound)))
      <==> exists i :: 0 <= i < |values| && Same(cell, values[i])
  {
    var clauses := AskedClauses(|values|, k);
    AskedClausesAre(|values|, k);
    forall i | 0 <= i < |values|
      ensures Equal(cell, Eval(clauses[i], record, bound)) <==> Same(cell, values[i])
    {
      BoundAtIndex(bound, k, BoundAll(values), i);
      RebuiltCompares(cell, values[i]);
    }
  }

  lemma {:induction false} AskedClausesAre(count: nat, k: nat)
    requires count > 0
    ensures |AskedClauses(count, k)| == count
    ensures forall i :: 0 <= i < count ==> AskedClauses(count, k)[i] == Param(k + i)
    decreases count
  {
    if count > 1 {
      AskedClausesAre(count - 1, k + 1);
      assert AskedClauses(count, k) == [Param(k)] + AskedClauses(count - 1, k + 1);
    }
  }

  // ---- One question ----

  predicate CellFits(kept: Kept, cell: Cell) {
    if kept.repeated then cell.List? && forall i :: 0 <= i < |cell.items| ==> CellOf(kept.kind, cell.items[i])
    else CellOf(kept.kind, cell)
  }

  predicate ValidQuestion(kept: Kept, operator: Operator, values: seq<Value>) {
    && Asks(operator, kept.kind)
    && (kept.repeated ==> operator in {Equals, OneOf, Present})
    && (match operator
        case Present => values == []
        case OneOf => values != []
        case _ => |values| == 1)
    && forall i :: 0 <= i < |values| ==> KindOf(values[i]) == kept.kind
  }

  /** What a question asks of the cell it is asked of. */
  ghost predicate Asked(kept: Kept, operator: Operator, values: seq<Value>, cell: Cell)
    requires ValidQuestion(kept, operator, values) && CellFits(kept, cell)
  {
    if kept.repeated && operator != Present
    then exists i, j :: 0 <= i < |cell.items| && 0 <= j < |values| && Same(cell.items[i], values[j])
    else AsksTrue(cell, operator, values)
  }

  /** What the store answers about the cell. */
  ghost predicate Answered(kept: Kept, operator: Operator, values: seq<Value>, cell: Cell)
    requires ValidQuestion(kept, operator, values) && CellFits(kept, cell)
  {
    if operator == Present then Carries(cell)
    else if kept.repeated then exists j :: 0 <= j < |values| && Bound(values[j]) in cell.items
    else if operator == Equals then Equal(cell, Rebuilt(values[0]))
    else if operator == Above then Less(Rebuilt(values[0]), cell)
    else if operator == AtLeast then Less(Rebuilt(values[0]), cell) || Equal(cell, Rebuilt(values[0]))
    else if operator == Below then Less(cell, Rebuilt(values[0]))
    else if operator == AtMost then Less(cell, Rebuilt(values[0])) || Equal(cell, Rebuilt(values[0]))
    else AsksTrue(cell, operator, values)
  }

  /** An instant is never the number it is bound as, and other kinds are bound as they are. */
  lemma {:induction false} BoundInList(kept: Kept, values: seq<Value>, cell: Cell)
    requires kept.repeated && CellFits(kept, cell) && forall j :: 0 <= j < |values| ==> KindOf(values[j]) == kept.kind
    ensures kept.kind != OfInstant ==>
      ((exists j :: 0 <= j < |values| && Bound(values[j]) in cell.items)
       <==> exists i, j :: 0 <= i < |cell.items| && 0 <= j < |values| && Same(cell.items[i], values[j]))
    ensures kept.kind == OfInstant ==> !exists j :: 0 <= j < |values| && Bound(values[j]) in cell.items
  {
    forall i, j | 0 <= i < |cell.items| && 0 <= j < |values|
      ensures kept.kind != OfInstant ==> (cell.items[i] == Bound(values[j]) <==> Same(cell.items[i], values[j]))
      ensures kept.kind == OfInstant ==> cell.items[i] != Bound(values[j])
    {
    }
    if kept.kind != OfInstant {
      if j :| 0 <= j < |values| && Bound(values[j]) in cell.items {
        var i :| 0 <= i < |cell.items| && cell.items[i] == Bound(values[j]);
      }
    }
  }

  lemma {:induction false} ExactIsAnsweredAsAsked(kept: Kept, operator: Operator, values: seq<Value>, cell: Cell)
    requires ValidQuestion(kept, operator, values) && CellFits(kept, cell) && Exact(kept, operator, values)
    ensures Answered(kept, operator, values, cell) <==> Asked(kept, operator, values, cell)
  {
    if operator == Present {
    } else if kept.repeated {
      BoundInList(kept, values, cell);
      if kept.kind == OfInstant {
        forall i, j | 0 <= i < |cell.items| && 0 <= j < |values|
          ensures !Same(cell.items[i], values[j])
        {
          assert !Whole(values[j]);
        }
      }
    } else {
      RebuiltCompares(cell, values[0]);
    }
  }

  /** A cell about which an inexact question is answered otherwise than asked. */
  lemma {:induction false} InexactIsAnsweredOtherwise(kept: Kept, operator: Operator, values: seq<Value>) returns (cell: Cell)
    requires ValidQuestion(kept, operator, values) && !Exact(kept, operator, values)
    ensures CellFits(kept, cell)
    ensures Answered(kept, operator, values, cell) != Asked(kept, operator, values, cell)
  {
    if kept.repeated {
      var j :| 0 <= j < |values| && Whole(values[j]);
      cell := List([Instant(values[j].nanos / NANOS_PER_MILLI)]);
      BoundInList(kept, values, cell);
      assert Same(cell.items[0], values[j]);
    } else {
      cell := Instant(values[0].nanos / NANOS_PER_MILLI);
    }
  }

  /** A question is answered as it was asked, of every cell it may be asked of, exactly when it is exact. */
  lemma {:induction false} AnsweredAsAskedIffExact(kept: Kept, operator: Operator, values: seq<Value>)
    requires ValidQuestion(kept, operator, values)
    ensures (forall cell :: CellFits(kept, cell) ==> (Answered(kept, operator, values, cell) <==> Asked(kept, operator, values, cell)))
      <==> Exact(kept, operator, values)
  {
    if Exact(kept, operator, values) {
      forall cell | CellFits(kept, cell)
        ensures Answered(kept, operator, values, cell) <==> Asked(kept, operator, values, cell)
      {
        ExactIsAnsweredAsAsked(kept, operator, values, cell);
      }
    } else {
      var cell := InexactIsAnsweredOtherwise(kept, operator, values);
    }
  }

  lemma {:induction false} CallMeans(name: string, column: string, record: Record, bound: seq<Cell>, k: nat)
    requires column in record && k < |bound|
    ensures Eval(Call(name, [Column(column), Param(k)]), record, bound) == Apply(name, [record[column], bound[k]])
  {
    var args := [Column(column), Param(k)];
    assert Eval(args[0], record, bound) == record[column] && Eval(args[1], record, bound) == bound[k];
    assert seq(|args|, i requires 0 <= i < |args| => Eval(args[i], record, bound)) == [record[column], bound[k]];
  }

  /** Some value is among a list's items. */
  predicate Carried(items: seq<Cell>, values: seq<Value>) {
    exists j :: 0 <= j < |values| && Bound(values[j]) in items
  }

  lemma {:induction false} CarriedSplits(items: seq<Cell>, values: seq<Value>)
    requires values != []
    ensures Carried(items, values) <==> Bound(values[0]) in items || Carried(items, values[1..])
  {
    var tail := values[1..];
    assert forall j :: 1 <= j < |values| ==> values[j] == tail[j - 1];
    if Carried(items, tail) {
      var j :| 0 <= j < |tail| && Bound(tail[j]) in items;
      assert Bound(values[j + 1]) in items;
    }
  }

  lemma {:induction false} CarriesMeans(column: string, values: seq<Value>, record: Record, bound: seq<Cell>, k: nat)
    requires values != [] && BoundAt(bound, k, BoundAll(values)) && column in record && record[column].List?
    ensures Eval(CarriesClause(column, |values|, k), record, bound) == Truth(Carried(record[column].items, values))
    decreases |values|
  {
    BoundAtIndex(bound, k, BoundAll(values), 0);
    CallMeans("has", column, record, bound, k);
    CarriedSplits(record[column].items, values);
    if |values| > 1 {
      assert BoundAll(values) == [Bound(values[0])] + BoundAll(values[1..]);
      BoundAtSplit(bound, k, [Bound(values[0])], BoundAll(values[1..]));
      CarriesMeans(column, values[1..], record, bound, k + 1);
    }
  }

  lemma {:induction false} PresentMeans(kept: Kept, record: Record, bound: seq<Cell>, k: nat)
    requires kept.column in record && CellFits(kept, record[kept.column])
    requires BoundAt(bound, k, PresentBound(kept.kind, kept.repeated))
    ensures Eval(PresentClause(kept.column, kept.kind, kept.repeated, k), record, bound) == Truth(Carries(record[kept.column]))
  {
    if kept.repeated {
      var args := [Column(kept.column)];
      assert Eval(args[0], record, bound) == record[kept.column];
      assert seq(|args|, i requires 0 <= i < |args| => Eval(args[i], record, bound)) == [record[kept.column]];
    } else if kept.kind == OfInstant {
      BoundAtIndex(bound, k, [Number(0.0)], 0);
      assert Bound(InstantValue(0)) == Number(0.0);
      HeldMeans(OfInstant, InstantValue(0), record, bound, k);
    }
  }

  lemma {:induction false} PositionFinds(whole: string, part: string)
    ensures Position(whole, part, 0) > 0 <==> exists i: nat :: Stands(whole, part, i)
  {
    var at := Position(whole, part, 0);
    assert at > 0 ==> Stands(whole, part, at - 1);
  }

  lemma {:induction false} FoundIsAboveZero(at: nat)
    ensures Compares(">", Number(at as real), Number(0.0)) <==> at > 0
  {
  }

  lemma {:induction false} PositionMeans(column: string, whole: string, part: string, record: Record, bound: seq<Cell>, k: nat)
    requires column in record && record[column] == Text(whole) && k < |bound| && bound[k] == Text(part)
    ensures Eval(Call("position", [Column(column), Param(k)]), record, bound) == Number(Position(whole, part, 0) as real)
  {
    CallMeans("position", column, record, bound, k);
  }

  lemma {:induction false} CompareMeans(op: string, left: Clause, right: Clause, record: Record, bound: seq<Cell>)
    ensures Eval(Compare(op, left, right), record, bound)
         == Truth(Compares(op, Eval(left, record, bound), Eval(right, record, bound)))
  {
  }

  lemma {:induction false} ContainsMeans(column: string, whole: string, part: string, record: Record, bound: seq<Cell>, k: nat)
    requires column in record && record[column] == Text(whole) && k < |bound| && bound[k] == Text(part)
    ensures Eval(Compare(">", Call("position", [Column(column), Param(k)]), Constant(Number(0.0))), record, bound)
         == Truth(exists i: nat :: Stands(whole, part, i))
  {
    PositionMeans(column, whole, part, record, bound, k);
    PositionFinds(whole, part);
    FoundIsAboveZero(Position(whole, part, 0));
    CompareMeans(">", Call("position", [Column(column), Param(k)]), Constant(Number(0.0)), record, bound);
  }

  lemma {:induction false} StartsMeans(column: string, whole: string, part: string, record: Record, bound: seq<Cell>, k: nat)
    requires column in record && record[column] == Text(whole) && k < |bound| && bound[k] == Text(part)
    ensures Eval(Call("startsWith", [Column(column), Param(k)]), record, bound) == Truth(Stands(whole, part, 0))
  {
    CallMeans("startsWith", column, record, bound, k);
    assert Stands(whole, part, 0) <==> part <= whole;
  }

  lemma {:induction false} EndsMeans(column: string, whole: string, part: string, record: Record, bound: seq<Cell>, k: nat)
    requires column in record && record[column] == Text(whole) && k < |bound| && bound[k] == Text(part)
    ensures Eval(Call("endsWith", [Column(column), Param(k)]), record, bound)
         == Truth(exists i: nat :: i + |part| == |whole| && Stands(whole, part, i))
  {
    CallMeans("endsWith", column, record, bound, k);
    if |part| <= |whole| {
      var i := |whole| - |part|;
      assert whole[i..] == whole[i..i + |part|];
      assert Stands(whole, part, i) <==> whole[i..] == part;
    }
  }

  lemma {:induction false} TextMeans(kept: Kept, operator: Operator, values: seq<Value>, record: Record, bound: seq<Cell>, k: nat)
    requires operator in {Contains, StartsWith, EndsWith} && !kept.repeated && ValidQuestion(kept, operator, values)
    requires kept.column in record && CellFits(kept, record[kept.column]) && k < |bound| && bound[k] == Bound(values[0])
    ensures Eval(PredicateClause(kept, operator, 1, k), record, bound) == Truth(AsksTrue(record[kept.column], operator, values))
  {
    var whole, part := record[kept.column].text, values[0].text;
    if operator == Contains {
      ContainsMeans(kept.column, whole, part, record, bound, k);
    } else if operator == StartsWith {
      StartsMeans(kept.column, whole, part, record, bound, k);
    } else {
      EndsMeans(kept.column, whole, part, record, bound, k);
    }
  }

  lemma {:induction false} HeldComparisonMeans(kept: Kept, operator: Operator, values: seq<Value>, record: Record, bound: seq<Cell>, k: nat)
    requires operator in {Equals, Above, AtLeast, Below, AtMost} && !kept.repeated && ValidQuestion(kept, operator, values)
    requires kept.column in record && CellFits(kept, record[kept.column]) && k < |bound| && bound[k] == Bound(values[0])
    ensures Eval(PredicateClause(kept, operator, 1, k), record, bound) == Truth(Answered(kept, operator, values, record[kept.column]))
  {
    HeldMeans(kept.kind, values[0], record, bound, k);
  }

  lemma {:induction false} ManyEvaluates(kept: Kept, operator: Operator, values: seq<Value>, record: Record, bound: seq<Cell>, k: nat)
    requires ValidQuestion(kept, operator, values) && kept.column in record && CellFits(kept, record[kept.column])
    requires operator != Present && (kept.repeated || operator == OneOf) && BoundAt(bound, k, BoundAll(values))
    ensures Eval(PredicateClause(kept, operator, |values|, k), record, bound) == Truth(Answered(kept, operator, values, record[kept.column]))
  {
    if kept.repeated {
      CarriesMeans(kept.column, values, record, bound, k);
    } else {
      AskedMeans(record[kept.column], values, record, bound, k);
    }
  }

  lemma {:induction false} OneEvaluates(kept: Kept, operator: Operator, values: seq<Value>, record: Record, bound: seq<Cell>, k: nat)
    requires ValidQuestion(kept, operator, values) && kept.column in record && CellFits(kept, record[kept.column])
    requires operator != Present && operator != OneOf && !kept.repeated && BoundAt(bound, k, BoundAll(values))
    ensures Eval(PredicateClause(kept, operator, |values|, k), record, bound) == Truth(Answered(kept, operator, values, record[kept.column]))
  {
    BoundAtIndex(bound, k, BoundAll(values), 0);
    if operator in {Contains, StartsWith, EndsWith} {
      TextMeans(kept, operator, values, record, bound, k);
    } else {
      HeldComparisonMeans(kept, operator, values, record, bound, k);
    }
  }

  /** The clause of a question evaluates to what the store answers about the cell. */
  lemma {:induction false} QuestionEvaluates(kept: Kept, operator: Operator, values: seq<Value>, record: Record, bound: seq<Cell>, k: nat)
    requires ValidQuestion(kept, operator, values) && kept.column in record && CellFits(kept, record[kept.column])
    requires BoundAt(bound, k, if operator == Present then PresentBound(kept.kind, kept.repeated) else BoundAll(values))
    ensures Eval(PredicateClause(kept, operator, |values|, k), record, bound) == Truth(Answered(kept, operator, values, record[kept.column]))
  {
    if operator == Present {
      PresentMeans(kept, record, bound, k);
    } else if kept.repeated || operator == OneOf {
      ManyEvaluates(kept, operator, values, record, bound, k);
    } else {
      OneEvaluates(kept, operator, values, record, bound, k);
    }
  }

  // ---- Any question ----

  /** What the store makes of a question: of each field what it answers, put together as it was asked. */
  ghost predicate ReadTrue(schema: Schema, e: Expression, record: Record)
    requires WellFormed(schema, e) && Fits(schema, record)
    decreases e
  {
    match e
    case Predicate(field, operator, values) => Answered(schema[field], operator, values, record[schema[field].column])
    case All(terms) => forall i :: 0 <= i < |terms| ==> ReadTrue(schema, terms[i], record)
    case Any(terms) => exists i :: 0 <= i < |terms| && ReadTrue(schema, terms[i], record)
    case Negated(term) => !ReadTrue(schema, term, record)
  }

  lemma {:induction false} ClauseReads(schema: Schema, e: Expression, record: Record, bound: seq<Cell>, k: nat)
    requires WellFormed(schema, e) && Fits(schema, record) && BoundAt(bound, k, Values(schema, e))
    ensures Eval(ClauseOf(schema, e, k), record, bound) == Truth(ReadTrue(schema, e, record))
    decreases e
  {
    match e
    case Predicate(field, operator, values) =>
      QuestionEvaluates(schema[field], operator, values, record, bound, k);
    case All(terms) =>
      GroupReads(schema, terms, record, bound, k, true);
    case Any(terms) =>
      GroupReads(schema, terms, record, bound, k, false);
    case Negated(term) =>
      ClauseReads(schema, term, record, bound, k);
  }

  /** Whether every term, or any term, is read as true of the record. */
  ghost predicate GroupTrue(schema: Schema, terms: seq<Expression>, record: Record, every: bool)
    requires WellFormedAll(schema, terms) && Fits(schema, record)
  {
    if every then forall i :: 0 <= i < |terms| ==> ReadTrue(schema, terms[i], record)
    else exists i :: 0 <= i < |terms| && ReadTrue(schema, terms[i], record)
  }

  lemma {:induction false} GroupTrueSplits(schema: Schema, terms: seq<Expression>, record: Record, every: bool)
    requires terms != [] && WellFormedAll(schema, terms) && Fits(schema, record)
    ensures WellFormedAll(schema, terms[1..])
    ensures GroupTrue(schema, terms, record, every) ==
      if |terms| == 1 then ReadTrue(schema, terms[0], record)
      else if every then ReadTrue(schema, terms[0], record) && GroupTrue(schema, terms[1..], record, every)
      else ReadTrue(schema, terms[0], record) || GroupTrue(schema, terms[1..], record, every)
  {
    var tail := terms[1..];
    assert forall i :: 0 < i < |terms| ==> terms[i] == tail[i - 1];
    assert forall i :: 0 <= i < |tail| ==> tail[i] == terms[i + 1];
  }

  lemma {:induction false} JoinedEvaluates(schema: Schema, terms: seq<Expression>, record: Record, bound: seq<Cell>, k: nat, every: bool, first: bool, others: bool)
    requires |terms| > 1 && WellFormedAll(schema, terms)
    requires Eval(ClauseOf(schema, terms[0], k), record, bound) == Truth(first)
    requires Eval(GroupClause(schema, terms[1..], k + |Values(schema, terms[0])|, every), record, bound) == Truth(others)
    ensures Eval(GroupClause(schema, terms, k, every), record, bound) == Truth(if every then first && others else first || others)
  {
  }

  lemma {:induction false} ValuesSplit(schema: Schema, terms: seq<Expression>)
    requires terms != [] && WellFormedAll(schema, terms)
    ensures |terms| == 1 ==> ValuesOf(schema, terms) == Values(schema, terms[0])
    ensures |terms| > 1 ==> WellFormedAll(schema, terms[1..]) && ValuesOf(schema, terms) == Values(schema, terms[0]) + ValuesOf(schema, terms[1..])
  {
  }

  lemma {:induction false} GroupReads(schema: Schema, terms: seq<Expression>, record: Record, bound: seq<Cell>, k: nat, every: bool)
    requires terms != [] && WellFormedAll(schema, terms) && Fits(schema, record)
    requires BoundAt(bound, k, ValuesOf(schema, terms))
    ensures Eval(GroupClause(schema, terms, k, every), record, bound) == Truth(GroupTrue(schema, terms, record, every))
    decreases terms, 1
  {
    ValuesSplit(schema, terms);
    if |terms| == 1 {
      GroupTrueSplits(schema, terms, record, every);
      ClauseReads(schema, terms[0], record, bound, k);
    } else {
      GroupReadsOn(schema, terms, record, bound, k, every);
    }
  }

  lemma {:induction false} GroupReadsOn(schema: Schema, terms: seq<Expression>, record: Record, bound: seq<Cell>, k: nat, every: bool)
    requires |terms| > 1 && WellFormedAll(schema, terms) && WellFormedAll(schema, terms[1..]) && Fits(schema, record)
    requires BoundAt(bound, k, Values(schema, terms[0]) + ValuesOf(schema, terms[1..]))
    ensures Eval(GroupClause(schema, terms, k, every), record, bound) == Truth(GroupTrue(schema, terms, record, every))
    decreases terms, 0
  {
    var first, tail := terms[0], terms[1..];
    var m := k + |Values(schema, first)|;
    BoundAtSplit(bound, k, Values(schema, first), ValuesOf(schema, tail));
    ClauseReads(schema, first, record, bound, k);
    GroupReads(schema, tail, record, bound, m, every);
    JoinedEvaluates(schema, terms, record, bound, k, every, ReadTrue(schema, first, record), GroupTrue(schema, tail, record, every));
    GroupTrueSplits(schema, terms, record, every);
  }

  /** Of exact questions, however they are put together, the store makes what was asked. */
  lemma {:induction false} ExactIsReadAsMeant(schema: Schema, e: Expression, record: Record)
    requires WellFormed(schema, e) && Fits(schema, record) && ExactAll(schema, e)
    ensures ReadTrue(schema, e, record) <==> Meaning(schema, e, record)
    decreases e
  {
    match e
    case Predicate(field, operator, values) =>
      ExactIsAnsweredAsAsked(schema[field], operator, values, record[schema[field].column]);
    case All(terms) =>
      forall i | 0 <= i < |terms|
        ensures ReadTrue(schema, terms[i], record) <==> Meaning(schema, terms[i], record)
      {
        ExactIsReadAsMeant(schema, terms[i], record);
      }
    case Any(terms) =>
      forall i | 0 <= i < |terms|
        ensures ReadTrue(schema, terms[i], record) <==> Meaning(schema, terms[i], record)
      {
        ExactIsReadAsMeant(schema, terms[i], record);
      }
    case Negated(term) =>
      ExactIsReadAsMeant(schema, term, record);
  }

  /**
   The text of any question, parsed by SQL's own precedence and given the values it binds, selects exactly the records the
   store reads it as true of, and asks for exactly as many values as are bound.
   */
  lemma {:induction false} WrittenIsRead(schema: Schema, e: Expression, record: Record)
    requires ValidSchema(schema) && WellFormed(schema, e) && Fits(schema, record)
    ensures var parsed := Parse(Written(schema, e));
      && parsed.Some?
      && parsed.value.params == |Values(schema, e)|
      && (Selects(parsed.value.it, record, Values(schema, e)) <==> ReadTrue(schema, e, record))
  {
    WrittenParses(schema, e);
    assert Values(schema, e)[0..0 + |Values(schema, e)|] == Values(schema, e);
    ClauseReads(schema, e, record, Values(schema, e), 0);
  }

  /** Of exact questions, it selects exactly the records the question is true of. */
  lemma {:induction false} WrittenMeansAsked(schema: Schema, e: Expression, record: Record)
    requires ValidSchema(schema) && WellFormed(schema, e) && ExactAll(schema, e) && Fits(schema, record)
    ensures var parsed := Parse(Written(schema, e));
      && parsed.Some?
      && parsed.value.params == |Values(schema, e)|
      && (Selects(parsed.value.it, record, Values(schema, e)) <==> Meaning(schema, e, record))
  {
    WrittenIsRead(schema, e, record);
    ExactIsReadAsMeant(schema, e, record);
  }

  /** One question, parsed, is the clause it stands for. */
  lemma {:induction false} WrittenParses(schema: Schema, e: Expression)
    requires ValidSchema(schema) && WellFormed(schema, e)
    ensures Parse(Written(schema, e)) == Some(Parsed(ClauseOf(schema, e, 0), [], |Values(schema, e)|))
  {
    var ts := TokensOf(schema, e);
    WrittenLexes(schema, e);
    TermParses(schema, e, 0, []);
    assert ts + [] == ts;
    TermIsClause(ts, 0, Parsed(ClauseOf(schema, e, 0), [], |Values(schema, e)|));
  }

  ghost predicate ReadAsAsked(schema: Schema, e: Expression, record: Record)
    requires WellFormed(schema, e) && Fits(schema, record)
  {
    Selects(ClauseOf(schema, e, 0), record, Values(schema, e)) <==> Meaning(schema, e, record)
  }

  lemma {:induction false} QuestionIsAnswered(schema: Schema, e: Expression, record: Record)
    requires WellFormed(schema, e) && Fits(schema, record) && e.Predicate?
    ensures var kept := schema[e.field];
      && CellFits(kept, record[kept.column])
      && (ReadAsAsked(schema, e, record)
          <==> (Answered(kept, e.operator, e.values, record[kept.column]) <==> Asked(kept, e.operator, e.values, record[kept.column])))
  {
    var values := Values(schema, e);
    assert values[0..0 + |values|] == values;
    QuestionEvaluates(schema[e.field], e.operator, e.values, record, values, 0);
  }

  lemma {:induction false} ExactIsReadAsAsked(schema: Schema, e: Expression, record: Record)
    requires WellFormed(schema, e) && e.Predicate? && Fits(schema, record) && Exact(schema[e.field], e.operator, e.values)
    ensures ReadAsAsked(schema, e, record)
  {
    QuestionIsAnswered(schema, e, record);
    ExactIsAnsweredAsAsked(schema[e.field], e.operator, e.values, record[schema[e.field].column]);
  }

  lemma {:induction false} FitsWith(schema: Schema, field: string, sample: Record, cell: Cell)
    requires field in schema && Fits(schema, sample) && CellFits(schema[field], cell)
    requires forall other :: other in schema && schema[other].column == schema[field].column ==> schema[other] == schema[field]
    ensures Fits(schema, sample[schema[field].column := cell])
  {
  }

  lemma {:induction false} InexactIsReadOtherwise(schema: Schema, e: Expression, sample: Record) returns (record: Record)
    requires WellFormed(schema, e) && e.Predicate? && Fits(schema, sample) && !Exact(schema[e.field], e.operator, e.values)
    requires forall field :: field in schema && schema[field].column == schema[e.field].column ==> schema[field] == schema[e.field]
    ensures Fits(schema, record) && !ReadAsAsked(schema, e, record)
  {
    var kept := schema[e.field];
    var cell := InexactIsAnsweredOtherwise(kept, e.operator, e.values);
    FitsWith(schema, e.field, sample, cell);
    record := sample[kept.column := cell];
    QuestionIsAnswered(schema, e, record);
  }

  /**
   A question is read as it was asked, of every record the schema fits, exactly when it is exact.  What is read is what
   the written text parses to.
   */
  lemma {:induction false} ReadAsAskedIffExact(schema: Schema, e: Expression, sample: Record)
    requires ValidSchema(schema) && WellFormed(schema, e) && e.Predicate? && Fits(schema, sample)
    requires forall field :: field in schema && schema[field].column == schema[e.field].column ==> schema[field] == schema[e.field]
    ensures Parse(Written(schema, e)) == Some(Parsed(ClauseOf(schema, e, 0), [], |Values(schema, e)|))
    ensures (forall record :: Fits(schema, record) ==> ReadAsAsked(schema, e, record)) <==> Exact(schema[e.field], e.operator, e.values)
  {
    WrittenParses(schema, e);
    if Exact(schema[e.field], e.operator, e.values) {
      forall record | Fits(schema, record)
        ensures ReadAsAsked(schema, e, record)
      {
        ExactIsReadAsAsked(schema, e, record);
      }
    } else {
      var record := InexactIsReadOtherwise(schema, e, sample);
    }
  }
}
