/** The statement a query is compiled to selects exactly the records the query asks for. */
module HuntQuery {
  import opened Wrappers
  import opened Sql
  import opened Hunt
  import opened HuntText
  import opened HuntMeaning
  import opened HuntWhere

  /** A written condition, the clause it is read as, and the placeholders it numbers. */
  datatype Piece = Piece(text: string, clause: Clause, start: nat, end: nat)

  function TextsOf(pieces: seq<Piece>): seq<string> {
    seq(|pieces|, i requires 0 <= i < |pieces| => pieces[i].text)
  }

  function AllOf(pieces: seq<Piece>): Clause
    requires pieces != []
    decreases |pieces|
  {
    if |pieces| == 1 then pieces[0].clause else And(pieces[0].clause, AllOf(pieces[1..]))
  }

  ghost predicate Reads(piece: Piece) {
    Term(piece.text, piece.clause, piece.start, piece.end)
  }

  ghost predicate Linked(pieces: seq<Piece>) {
    && (forall i :: 0 <= i < |pieces| ==> Reads(pieces[i]))
    && forall i :: 0 < i < |pieces| ==> pieces[i - 1].end == pieces[i].start
  }

  /** Conditions joined by AND are read as all of their clauses. */
  lemma {:induction false} PiecesRead(pieces: seq<Piece>)
    requires pieces != [] && Linked(pieces)
    ensures Conjunction(Join(TextsOf(pieces), " AND "), AllOf(pieces), pieces[0].start, pieces[|pieces| - 1].end)
    decreases |pieces|
  {
    var first := pieces[0];
    assert Reads(first);
    if |pieces| == 1 {
      TermIsConjunction(first.text, first.clause, first.start, first.end);
    } else {
      var others := pieces[1..];
      assert Linked(others) by {
        forall i | 0 < i < |others| ensures others[i - 1].end == others[i].start {
          assert pieces[i + 1 - 1].end == pieces[i + 1].start;
        }
      }
      PiecesRead(others);
      assert TextsOf(pieces)[1..] == TextsOf(others);
      assert pieces[1 - 1].end == pieces[1].start;
      JoinTerm(first.text, first.clause, first.start, first.end,
               Join(TextsOf(others), " AND "), AllOf(others), pieces[|pieces| - 1].end);
    }
  }

  lemma {:induction false} AllOfSelects(pieces: seq<Piece>, record: Record, bound: seq<Cell>)
    requires pieces != []
    ensures Selects(AllOf(pieces), record, bound) <==> forall i :: 0 <= i < |pieces| ==> Selects(pieces[i].clause, record, bound)
    decreases |pieces|
  {
    if |pieces| > 1 {
      var others := pieces[1..];
      AllOfSelects(others, record, bound);
      assert forall i :: 0 <= i < |others| ==> others[i] == pieces[i + 1];
      assert forall i :: 0 < i < |pieces| ==> pieces[i] == others[i - 1];
    }
  }

  // ---- The conditions of a query ----

  function TenantPiece(count: nat): Piece {
    Piece(PredicateText(TENANT, OneOf, count), PredicateClause(TENANT, OneOf, count, 0), 0, count)
  }

  function InstantPiece(dataset: Dataset, operator: Operator, k: nat): Piece
    requires operator != Present
  {
    Piece(PredicateText(InstantOf(dataset), operator, 1), PredicateClause(InstantOf(dataset), operator, 1, k), k, k + 1)
  }

  function BehindPiece(dataset: Dataset, k: nat): Piece {
    Piece(BehindText(dataset), BehindClause(dataset, k), k, k + 1 + |dataset.names|)
  }

  function QuestionPiece(schema: Schema, e: Expression, k: nat): Piece
    requires WellFormed(schema, e)
  {
    Piece(Written(schema, e), ClauseOf(schema, e, k), k, k + |Values(schema, e)|)
  }

  function Window(dataset: Dataset, count: nat): seq<Piece> {
    [TenantPiece(count), InstantPiece(dataset, AtLeast, count), InstantPiece(dataset, Operator.Below, count + 1)]
  }

  function Resumed(dataset: Dataset, query: Query): seq<Piece> {
    if query.after.Some? then [BehindPiece(dataset, |query.tenants| + 2)] else []
  }

  function Asked(dataset: Dataset, schema: Schema, query: Query): seq<Piece>
    requires ValidQuery(schema, query)
  {
    if query.where.Some?
    then [QuestionPiece(schema, query.where.value, |query.tenants| + 2 + if query.after.Some? then 1 + |dataset.names| else 0)]
    else []
  }

  function Pieces(dataset: Dataset, schema: Schema, query: Query): seq<Piece>
    requires ValidQuery(schema, query)
  {
    Window(dataset, |query.tenants|) + Resumed(dataset, query) + Asked(dataset, schema, query)
  }

  lemma {:induction false} LinkedThen(pieces: seq<Piece>, next: Piece)
    requires Linked(pieces) && Reads(next)
    requires pieces != [] ==> pieces[|pieces| - 1].end == next.start
    ensures Linked(pieces + [next])
  {
    var all := pieces + [next];
    forall i | 0 <= i < |all|
      ensures Reads(all[i])
    {
    }
  }

  lemma {:induction false} LinkedThree(a: Piece, b: Piece, c: Piece)
    requires Reads(a) && Reads(b) && Reads(c) && a.end == b.start && b.end == c.start
    ensures Linked([a, b, c])
  {
    LinkedThen([], a);
    assert [] + [a] == [a];
    LinkedThen([a], b);
    assert [a] + [b] == [a, b];
    LinkedThen([a, b], c);
    assert [a, b] + [c] == [a, b, c];
  }

  lemma {:induction false} TenantReads(count: nat)
    ensures Reads(TenantPiece(count))
  {
    TenantIsColumn();
    PredicateTerm(TENANT, OneOf, count, 0);
  }

  lemma {:induction false} InstantReads(dataset: Dataset, operator: Operator, k: nat)
    requires ValidDataset(dataset) && operator in {AtLeast, Operator.Below}
    ensures Reads(InstantPiece(dataset, operator, k))
  {
    PredicateTerm(InstantOf(dataset), operator, 1, k);
  }

  lemma {:induction false} BehindReads(dataset: Dataset, k: nat)
    requires ValidDataset(dataset)
    ensures Reads(BehindPiece(dataset, k))
  {
    BehindTerm(dataset, k);
  }

  lemma {:induction false} QuestionReads(schema: Schema, e: Expression, k: nat)
    requires ValidSchema(schema) && WellFormed(schema, e)
    ensures Reads(QuestionPiece(schema, e, k))
  {
    QuestionTerm(schema, e, k);
  }

  lemma {:induction false} WindowLinked(dataset: Dataset, count: nat)
    requires ValidDataset(dataset)
    ensures Linked(Window(dataset, count))
  {
    TenantReads(count);
    InstantReads(dataset, AtLeast, count);
    InstantReads(dataset, Operator.Below, count + 1);
    LinkedThree(TenantPiece(count), InstantPiece(dataset, AtLeast, count), InstantPiece(dataset, Operator.Below, count + 1));
  }

  lemma {:induction false} ResumedLinked(dataset: Dataset, query: Query)
    requires ValidDataset(dataset)
    ensures Linked(Window(dataset, |query.tenants|) + Resumed(dataset, query))
  {
    var window, k := Window(dataset, |query.tenants|), |query.tenants| + 2;
    WindowLinked(dataset, |query.tenants|);
    if query.after.Some? {
      BehindReads(dataset, k);
      LinkedThen(window, BehindPiece(dataset, k));
    } else {
      assert window + Resumed(dataset, query) == window;
    }
  }

  lemma {:induction false} PiecesLinked(dataset: Dataset, schema: Schema, query: Query)
    requires ValidDataset(dataset) && ValidSchema(schema) && ValidQuery(schema, query)
    ensures Linked(Pieces(dataset, schema, query))
  {
    ResumedLinked(dataset, query);
    var pieces := Window(dataset, |query.tenants|) + Resumed(dataset, query);
    if query.where.Some? {
      var next := Asked(dataset, schema, query)[0];
      QuestionReads(schema, query.where.value, next.start);
      LinkedThen(pieces, next);
    } else {
      assert Pieces(dataset, schema, query) == pieces;
    }
  }

  lemma {:induction false} TenantIsColumn()
    ensures ValidColumn(TENANT.column)
  {
  }

  /** The conditions as they are written, joined, are the pieces joined. */
  lemma {:induction false} ConditionsJoin(dataset: Dataset, schema: Schema, query: Query)
    requires ValidQuery(schema, query)
    ensures Join(Conditions(dataset, schema, query), " AND ") == Join(TextsOf(Pieces(dataset, schema, query)), " AND ")
  {
    var pieces := Pieces(dataset, schema, query);
    var tenant, low, high := pieces[0].text, pieces[1].text, pieces[2].text;
    var others := TextsOf(Resumed(dataset, query) + Asked(dataset, schema, query));
    assert TextsOf(pieces) == [tenant, low, high] + others;
    assert Conditions(dataset, schema, query) == [tenant, low + (" AND " + high)] + others;
    JoinFlattens(tenant, low, high, others);
  }

  lemma {:induction false} JoinFlattens(a: string, b: string, c: string, others: seq<string>)
    ensures Join([a, b + (" AND " + c)] + others, " AND ") == Join([a, b, c] + others, " AND ")
  {
    var s := " AND ";
    var left, right := [b + (s + c)] + others, [b, c] + others;
    assert ([a, b + (s + c)] + others)[1..] == left && ([a, b, c] + others)[1..] == right;
    assert left[1..] == others && right[1..] == [c] + others && ([c] + others)[1..] == others;
    if others == [] {
      assert Join(left, s) == b + (s + c);
      assert Join([c] + others, s) == c;
    } else {
      var tail := Join(others, s);
      assert Join([c] + others, s) == c + (s + tail);
      assert b + (s + c) + (s + tail) == b + (s + (c + (s + tail)));
    }
  }

  // ---- What each condition asks ----

  lemma {:induction false} ArgumentsBound(dataset: Dataset, schema: Schema, query: Query)
    requires ValidQuery(schema, query) && Compilable(dataset, query)
    ensures var arguments, count := Arguments(schema, query), |query.tenants|;
      && BoundAt(arguments, 0, Texts(query.tenants))
      && count + 2 <= |arguments| && arguments[count] == Number(Millis(query.start) as real) && arguments[count + 1] == Number(Millis(query.end) as real)
      && BoundAt(arguments, count + 2, AfterValues(query.after))
      && BoundAt(arguments, count + 2 + |AfterValues(query.after)|, WhereValues(schema, query.where))
      && |arguments| == count + 2 + |AfterValues(query.after)| + |WhereValues(schema, query.where)|
  {
    BoundInTurn(Texts(query.tenants), [Number(Millis(query.start) as real), Number(Millis(query.end) as real)],
                AfterValues(query.after), WhereValues(schema, query.where));
  }

  lemma {:induction false} BoundInTurn(a: seq<Cell>, b: seq<Cell>, c: seq<Cell>, d: seq<Cell>)
    requires |b| == 2
    ensures var all := a + b + c + d;
      && BoundAt(all, 0, a) && |a| + 2 <= |all| && all[|a|] == b[0] && all[|a| + 1] == b[1]
      && BoundAt(all, |a| + 2, c) && BoundAt(all, |a| + 2 + |c|, d) && |all| == |a| + 2 + |c| + |d|
  {
    var all := a + b + c + d;
    assert all[0..|a|] == a;
    assert all[|a| + 2..|a| + 2 + |c|] == c;
    assert all[|a| + 2 + |c|..|a| + 2 + |c| + |d|] == d;
  }

  function TenantValues(tenants: seq<string>): seq<Value> {
    seq(|tenants|, i requires 0 <= i < |tenants| => TextValue(tenants[i]))
  }

  /** No tenant selects nothing, rather than everything. */
  lemma {:induction false} TenantSelects(tenants: seq<string>, record: Record, bound: seq<Cell>)
    requires TENANT.column in record && record[TENANT.column].Text? && BoundAt(bound, 0, Texts(tenants))
    ensures Selects(PredicateClause(TENANT, OneOf, |tenants|, 0), record, bound) <==> record[TENANT.column].text in tenants
  {
    var values := TenantValues(tenants);
    if tenants == [] {
      assert PredicateClause(TENANT, OneOf, 0, 0) == Among(Column(TENANT.column), [Constant(Null)]);
      NothingAmongNull(record, bound);
    } else {
      assert BoundAll(values) == Texts(tenants);
      QuestionEvaluates(TENANT, OneOf, values, record, bound, 0);
      var cell := record[TENANT.column];
      assert forall i :: 0 <= i < |tenants| ==> (Same(cell, values[i]) <==> cell.text == tenants[i]);
    }
  }

  lemma {:induction false} NothingAmongNull(record: Record, bound: seq<Cell>)
    ensures !Selects(Among(Column(TENANT.column), [Constant(Null)]), record, bound)
  {
    var choices: seq<Clause> := [Constant(Null)];
    assert forall i :: 0 <= i < |choices| ==> Eval(choices[i], record, bound) == Null;
  }

  lemma {:induction false} WindowSelects(dataset: Dataset, millis: int, operator: Operator, record: Record, bound: seq<Cell>, k: nat)
    requires Keyed(dataset, record) && operator in {AtLeast, Operator.Below} && k < |bound| && bound[k] == Number(millis as real)
    ensures Selects(PredicateClause(InstantOf(dataset), operator, 1, k), record, bound)
      <==> if operator == AtLeast then millis <= record[dataset.instant].millis else record[dataset.instant].millis < millis
  {
    var values := [InstantValue(millis * NANOS_PER_MILLI)];
    assert values[0].nanos / NANOS_PER_MILLI == millis && Whole(values[0]);
    assert bound[k..k + 1] == BoundAll(values);
    QuestionEvaluates(InstantOf(dataset), operator, values, record, bound, k);
  }

  lemma {:induction false} NamesCompare(a: seq<string>, b: seq<string>)
    ensures RowLess(Texts(a), Texts(b)) <==> NamesBelow(a, b)
    decreases |a|
  {
    if a != [] && b != [] {
      NamesCompare(a[1..], b[1..]);
      assert Texts(a)[1..] == Texts(a[1..]) && Texts(b)[1..] == Texts(b[1..]);
    }
  }

  lemma {:induction false} KeysCompare(a: Position, b: Position)
    ensures RowLess([Instant(a.millis)] + Texts(a.names), [Instant(b.millis)] + Texts(b.names)) <==> KeyBelow(a, b)
  {
    NamesCompare(a.names, b.names);
    assert ([Instant(a.millis)] + Texts(a.names))[1..] == Texts(a.names);
    assert ([Instant(b.millis)] + Texts(b.names))[1..] == Texts(b.names);
  }

  lemma {:induction false} ColumnsAre(names: seq<string>)
    ensures |Columns(names)| == |names| && forall i :: 0 <= i < |names| ==> Columns(names)[i] == Column(names[i])
    decreases |names|
  {
    if names != [] {
      ColumnsAre(names[1..]);
    }
  }

  lemma {:induction false} ParamsAre(count: nat, k: nat)
    ensures |Params(count, k)| == count && forall i :: 0 <= i < count ==> Params(count, k)[i] == Param(k + i)
    decreases count
  {
    if count > 0 {
      ParamsAre(count - 1, k + 1);
    }
  }

  lemma {:induction false} TupleIs(items: seq<Clause>, cells: seq<Cell>, record: Record, bound: seq<Cell>)
    requires |items| == |cells| && forall i :: 0 <= i < |items| ==> Eval(items[i], record, bound) == cells[i]
    ensures Eval(Tuple(items), record, bound) == Row(cells)
  {
    assert seq(|items|, i requires 0 <= i < |items| => Eval(items[i], record, bound)) == cells;
  }

  lemma {:induction false} KeyIs(dataset: Dataset, record: Record, bound: seq<Cell>)
    requires Keyed(dataset, record)
    ensures Eval(Tuple([Column(dataset.instant)] + Columns(dataset.names)), record, bound)
         == Row([Instant(KeyOf(dataset, record).millis)] + Texts(KeyOf(dataset, record).names))
  {
    ColumnsAre(dataset.names);
    TupleIs([Column(dataset.instant)] + Columns(dataset.names),
            [Instant(KeyOf(dataset, record).millis)] + Texts(KeyOf(dataset, record).names), record, bound);
  }

  lemma {:induction false} PositionInstant(at: Position, record: Record, bound: seq<Cell>, k: nat)
    requires BoundAt(bound, k, AfterValues(Some(at)))
    ensures Eval(HeldClause(OfInstant, k), record, bound) == Instant(at.millis)
  {
    var value := InstantValue(at.millis * NANOS_PER_MILLI);
    BoundAtIndex(bound, k, AfterValues(Some(at)), 0);
    assert value.nanos / NANOS_PER_MILLI == at.millis;
    HeldMeans(OfInstant, value, record, bound, k);
  }

  lemma {:induction false} PositionName(at: Position, record: Record, bound: seq<Cell>, k: nat, i: nat)
    requires BoundAt(bound, k, AfterValues(Some(at))) && i < |at.names|
    ensures i < |Params(|at.names|, k + 1)| && Eval(Params(|at.names|, k + 1)[i], record, bound) == Text(at.names[i])
  {
    ParamsAre(|at.names|, k + 1);
    BoundAtIndex(bound, k, AfterValues(Some(at)), i + 1);
  }

  lemma {:induction false} PositionIs(at: Position, record: Record, bound: seq<Cell>, k: nat)
    requires BoundAt(bound, k, AfterValues(Some(at)))
    ensures Eval(Tuple([HeldClause(OfInstant, k)] + Params(|at.names|, k + 1)), record, bound) == Row([Instant(at.millis)] + Texts(at.names))
  {
    PositionInstant(at, record, bound, k);
    ParamsAre(|at.names|, k + 1);
    forall i | 0 <= i < |at.names|
      ensures Eval(Params(|at.names|, k + 1)[i], record, bound) == Text(at.names[i])
    {
      PositionName(at, record, bound, k, i);
    }
    TupleIs([HeldClause(OfInstant, k)] + Params(|at.names|, k + 1), [Instant(at.millis)] + Texts(at.names), record, bound);
  }

  lemma {:induction false} BehindSelects(dataset: Dataset, at: Position, record: Record, bound: seq<Cell>, k: nat)
    requires Keyed(dataset, record) && |at.names| == |dataset.names| && BoundAt(bound, k, AfterValues(Some(at)))
    ensures Selects(BehindClause(dataset, k), record, bound) <==> KeyBelow(KeyOf(dataset, record), at)
  {
    KeyIs(dataset, record, bound);
    PositionIs(at, record, bound, k);
    KeysCompare(KeyOf(dataset, record), at);
    CompareMeans("<", Tuple([Column(dataset.instant)] + Columns(dataset.names)),
                 Tuple([HeldClause(OfInstant, k)] + Params(|dataset.names|, k + 1)), record, bound);
  }

  // ---- The whole clause ----

  /** What the store makes of a window. */
  predicate WindowRead(start: int, end: int, millis: int) {
    Millis(start) <= millis < Millis(end)
  }

  predicate WholeMillis(nanos: int) {
    nanos % NANOS_PER_MILLI == 0
  }

  /** A window that ends where it starts or before, one of whole milliseconds, or one inside a single millisecond. */
  predicate WindowExact(start: int, end: int) {
    || end <= start
    || (WholeMillis(start) && WholeMillis(end))
    || (!WholeMillis(start) && Millis(start) == Millis(end))
  }

  lemma {:induction false} ExactWindow(start: int, end: int, millis: int)
    requires WindowExact(start, end)
    ensures WindowRead(start, end, millis) <==> WindowAsked(start, end, millis)
  {
  }

  /** A millisecond an inexact window is read otherwise of: the one it starts in, or the one it ends in. */
  lemma {:induction false} InexactWindow(start: int, end: int) returns (millis: int)
    requires !WindowExact(start, end)
    ensures WindowRead(start, end, millis) != WindowAsked(start, end, millis)
  {
    millis := if WholeMillis(start) then Millis(end) else Millis(start);
  }

  /** A window is read as it was asked, of every record, exactly when it is exact. */
  lemma {:induction false} WindowReadAsAskedIffExact(start: int, end: int)
    ensures (forall millis :: WindowRead(start, end, millis) <==> WindowAsked(start, end, millis)) <==> WindowExact(start, end)
  {
    if WindowExact(start, end) {
      forall millis
        ensures WindowRead(start, end, millis) <==> WindowAsked(start, end, millis)
      {
        ExactWindow(start, end, millis);
      }
    } else {
      var millis := InexactWindow(start, end);
    }
  }

  /** From half a millisecond on, a record before it is read as inside; up to half a millisecond, a record inside is not. */
  lemma {:induction false} HalfMillisecondWindows()
    ensures WindowRead(500_000, 2_000_000, 0) && !WindowAsked(500_000, 2_000_000, 0)
    ensures !WindowRead(0, 500_000, 0) && WindowAsked(0, 500_000, 0)
  {
  }

  predicate ExactQuery(schema: Schema, query: Query)
    requires ValidQuery(schema, query)
  {
    WindowExact(query.start, query.end) && (query.where.Some? ==> ExactAll(schema, query.where.value))
  }

  /** What the store makes of a query. */
  ghost predicate Matches(dataset: Dataset, schema: Schema, query: Query, record: Record)
    requires Stored(dataset, schema, record) && ValidQuery(schema, query)
  {
    && record[TENANT.column].text in query.tenants
    && WindowRead(query.start, query.end, record[dataset.instant].millis)
    && (query.where.Some? ==> ReadTrue(schema, query.where.value, record))
  }

  /** Of an exact query the store makes what was asked. */
  lemma {:induction false} ExactMatchesWanted(dataset: Dataset, schema: Schema, query: Query, record: Record)
    requires Stored(dataset, schema, record) && ValidQuery(schema, query) && ExactQuery(schema, query)
    ensures Matches(dataset, schema, query, record) <==> Wanted(dataset, schema, query, record)
  {
    ExactWindow(query.start, query.end, record[dataset.instant].millis);
    if query.where.Some? {
      ExactIsReadAsMeant(schema, query.where.value, record);
    }
  }

  /** What the query matches and the last page had not reached. */
  ghost predicate Remaining(dataset: Dataset, schema: Schema, query: Query, record: Record)
    requires Stored(dataset, schema, record) && ValidQuery(schema, query)
  {
    Matches(dataset, schema, query, record) && (query.after.Some? ==> KeyBelow(KeyOf(dataset, record), query.after.value))
  }

  lemma {:induction false} WindowPiecesSelect(dataset: Dataset, schema: Schema, query: Query, record: Record)
    requires ValidQuery(schema, query) && Compilable(dataset, query) && Stored(dataset, schema, record)
    ensures (forall i :: 0 <= i < 3 ==> Selects(Window(dataset, |query.tenants|)[i].clause, record, Arguments(schema, query)))
      <==> (record[TENANT.column].text in query.tenants && WindowRead(query.start, query.end, record[dataset.instant].millis))
  {
    var bound, count := Arguments(schema, query), |query.tenants|;
    ArgumentsBound(dataset, schema, query);
    TenantSelects(query.tenants, record, bound);
    WindowSelects(dataset, Millis(query.start), AtLeast, record, bound, count);
    WindowSelects(dataset, Millis(query.end), Operator.Below, record, bound, count + 1);
    var pieces := Window(dataset, count);
    assert Selects(pieces[0].clause, record, bound) <==> record[TENANT.column].text in query.tenants;
    assert Selects(pieces[1].clause, record, bound) <==> Millis(query.start) <= record[dataset.instant].millis;
    assert Selects(pieces[2].clause, record, bound) <==> record[dataset.instant].millis < Millis(query.end);
  }

  lemma {:induction false} ResumedSelects(dataset: Dataset, schema: Schema, query: Query, record: Record)
    requires ValidQuery(schema, query) && Compilable(dataset, query) && Stored(dataset, schema, record) && query.after.Some?
    ensures Selects(Resumed(dataset, query)[0].clause, record, Arguments(schema, query)) <==> KeyBelow(KeyOf(dataset, record), query.after.value)
  {
    ArgumentsBound(dataset, schema, query);
    BehindSelects(dataset, query.after.value, record, Arguments(schema, query), |query.tenants| + 2);
  }

  lemma {:induction false} AskedSelects(dataset: Dataset, schema: Schema, query: Query, record: Record)
    requires ValidQuery(schema, query) && Compilable(dataset, query) && Stored(dataset, schema, record) && query.where.Some?
    ensures Selects(Asked(dataset, schema, query)[0].clause, record, Arguments(schema, query)) <==> ReadTrue(schema, query.where.value, record)
  {
    ArgumentsBound(dataset, schema, query);
    ClauseReads(schema, query.where.value, record, Arguments(schema, query), |query.tenants| + 2 + |AfterValues(query.after)|);
  }

  lemma {:induction false} PiecesSelect(dataset: Dataset, schema: Schema, query: Query, record: Record)
    requires ValidQuery(schema, query) && Compilable(dataset, query) && Stored(dataset, schema, record)
    ensures Selects(AllOf(Pieces(dataset, schema, query)), record, Arguments(schema, query)) <==> Remaining(dataset, schema, query, record)
  {
    var bound := Arguments(schema, query);
    var window, resumed, asked := Window(dataset, |query.tenants|), Resumed(dataset, query), Asked(dataset, schema, query);
    WindowPiecesSelect(dataset, schema, query, record);
    if query.after.Some? {
      ResumedSelects(dataset, schema, query, record);
    }
    if query.where.Some? {
      AskedSelects(dataset, schema, query, record);
    }
    AllOfSelects(Pieces(dataset, schema, query), record, bound);
    EachOf(window, resumed, asked, record, bound);
  }

  lemma {:induction false} EachOf(a: seq<Piece>, b: seq<Piece>, c: seq<Piece>, record: Record, bound: seq<Cell>)
    ensures (forall i :: 0 <= i < |a + b + c| ==> Selects((a + b + c)[i].clause, record, bound))
      <==> && (forall i :: 0 <= i < |a| ==> Selects(a[i].clause, record, bound))
           && (forall i :: 0 <= i < |b| ==> Selects(b[i].clause, record, bound))
           && (forall i :: 0 <= i < |c| ==> Selects(c[i].clause, record, bound))
  {
    var all := a + b + c;
    assert forall i :: 0 <= i < |a| ==> a[i] == all[i];
    assert forall i :: 0 <= i < |b| ==> b[i] == all[|a| + i];
    assert forall i :: 0 <= i < |c| ==> c[i] == all[|a| + |b| + i];
  }

  lemma {:induction false} CompiledParses(dataset: Dataset, schema: Schema, query: Query)
    requires ValidDataset(dataset) && ValidSchema(schema) && ValidQuery(schema, query)
    ensures var pieces := Pieces(dataset, schema, query);
      Parse(Join(Conditions(dataset, schema, query), " AND ")) == Some(Parsed(AllOf(pieces), [], pieces[|pieces| - 1].end))
  {
    var pieces := Pieces(dataset, schema, query);
    PiecesLinked(dataset, schema, query);
    PiecesRead(pieces);
    ConditionsJoin(dataset, schema, query);
    ConjunctionParses(Join(TextsOf(pieces), " AND "), AllOf(pieces), pieces[|pieces| - 1].end);
  }

  /**
   The conditions any query is compiled to, joined and parsed, ask for exactly as many values as are bound and select
   exactly the records the store makes the query match that come after where the last page stopped.
   */
  lemma {:induction false} CompiledReads(dataset: Dataset, schema: Schema, query: Query, record: Record)
    requires ValidDataset(dataset) && ValidSchema(schema) && ValidQuery(schema, query)
    requires Compilable(dataset, query) && Stored(dataset, schema, record)
    ensures var parsed := Parse(Join(Conditions(dataset, schema, query), " AND "));
      && parsed.Some?
      && parsed.value.params == |Arguments(schema, query)|
      && (Selects(parsed.value.it, record, Arguments(schema, query)) <==> Remaining(dataset, schema, query, record))
  {
    CompiledParses(dataset, schema, query);
    ArgumentsBound(dataset, schema, query);
    PiecesSelect(dataset, schema, query, record);
  }

  /** Of an exact query they select exactly the records it wants after its position. */
  lemma {:induction false} CompiledSelects(dataset: Dataset, schema: Schema, query: Query, record: Record)
    requires ValidDataset(dataset) && ValidSchema(schema) && ValidQuery(schema, query) && ExactQuery(schema, query)
    requires Compilable(dataset, query) && Stored(dataset, schema, record)
    ensures var parsed := Parse(Join(Conditions(dataset, schema, query), " AND "));
      && parsed.Some?
      && (Selects(parsed.value.it, record, Arguments(schema, query))
          <==> Wanted(dataset, schema, query, record) && (query.after.Some? ==> KeyBelow(KeyOf(dataset, record), query.after.value)))
  {
    CompiledReads(dataset, schema, query, record);
    ExactMatchesWanted(dataset, schema, query, record);
  }
}
