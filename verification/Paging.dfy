/**
 Walking a hunt page by page: each page is asked for after the key of the last row of the page before, and the walk
 ends at the first page that carries nothing.
 */
module Paging {
  import opened Sets
  import opened Wrappers
  import opened Lexical
  import opened Sql
  import opened Hunt
  import opened HuntWhere
  import opened HuntQuery

  // ---- Keys are totally ordered ----

  lemma {:induction false} NamesOrder(a: seq<string>, b: seq<string>)
    requires |a| == |b|
    ensures NamesBelow(a, b) || a == b || NamesBelow(b, a)
    ensures !(NamesBelow(a, b) && NamesBelow(b, a)) && !NamesBelow(a, a)
    decreases |a|
  {
    if a != [] {
      TextOrder(a[0], b[0]);
      NamesOrder(a[1..], b[1..]);
      assert a == [a[0]] + a[1..] && b == [b[0]] + b[1..];
      TextOrder(a[0], a[0]);
      NamesOrder(a[1..], a[1..]);
    }
  }

  lemma {:induction false} NamesChain(a: seq<string>, b: seq<string>, c: seq<string>)
    requires NamesBelow(a, b) && NamesBelow(b, c)
    ensures NamesBelow(a, c)
    decreases |a|
  {
    if TextLess(a[0], b[0]) && TextLess(b[0], c[0]) {
      TextChains(a[0], b[0], c[0]);
    } else if a[0] == b[0] && b[0] == c[0] && !TextLess(a[0], b[0]) && !TextLess(b[0], c[0]) {
      NamesChain(a[1..], b[1..], c[1..]);
    }
    TextOrder(a[0], a[0]);
  }

  /** Two keys of one table are one key, or one comes before the other and not the other way about. */
  lemma KeyOrder(a: Position, b: Position)
    requires |a.names| == |b.names|
    ensures KeyBelow(a, b) || a == b || KeyBelow(b, a)
    ensures !(KeyBelow(a, b) && KeyBelow(b, a)) && !KeyBelow(a, a)
  {
    NamesOrder(a.names, b.names);
    NamesOrder(a.names, a.names);
  }

  lemma KeyChains(a: Position, b: Position, c: Position)
    requires KeyBelow(a, b) && KeyBelow(b, c)
    ensures KeyBelow(a, c)
  {
    if a.millis == b.millis && b.millis == c.millis {
      NamesChain(a.names, b.names, c.names);
    }
  }

  // ---- Pages ----

  /** The rows of a table are told apart by their keys. */
  predicate Table(dataset: Dataset, schema: Schema, rows: set<Record>) {
    && (forall row :: row in rows ==> Stored(dataset, schema, row))
    && forall a, b :: a in rows && b in rows && KeyOf(dataset, a) == KeyOf(dataset, b) ==> a == b
  }

  predicate AllKeyed(dataset: Dataset, page: seq<Record>) {
    forall i :: 0 <= i < |page| ==> Keyed(dataset, page[i])
  }

  /** Newest first, and no key twice. */
  predicate Descending(dataset: Dataset, page: seq<Record>)
    requires AllKeyed(dataset, page)
  {
    forall i, j :: 0 <= i < j < |page| ==> KeyBelow(KeyOf(dataset, page[j]), KeyOf(dataset, page[i]))
  }

  /** The rows of the table the compiled statement selects. */
  function Selected(dataset: Dataset, schema: Schema, query: Query, rows: set<Record>): set<Record>
    requires ValidQuery(schema, query)
  {
    var parsed := Parse(Join(Conditions(dataset, schema, query), " AND "));
    if parsed.None? then {} else set row | row in rows && Selects(parsed.value.it, row, Arguments(schema, query))
  }

  /**
   What a store may answer with: the newest of what is selected, in order, at most as many as were asked for, and
   nothing only when there is nothing.  A store that answers within a budget may answer with fewer.
   */
  predicate Answers(dataset: Dataset, selected: set<Record>, limit: nat, page: seq<Record>)
    requires forall row :: row in selected ==> Keyed(dataset, row)
  {
    && |page| <= limit && (page == [] ==> selected == {})
    && (forall i :: 0 <= i < |page| ==> page[i] in selected)
    && Descending(dataset, page)
    && forall row, i :: row in selected && row !in page && 0 <= i < |page| ==> KeyBelow(KeyOf(dataset, row), KeyOf(dataset, page[i]))
  }

  ghost predicate Askable(dataset: Dataset, schema: Schema, query: Query, rows: set<Record>) {
    && ValidDataset(dataset) && ValidSchema(schema) && ValidQuery(schema, query)
    && Compilable(dataset, query) && Table(dataset, schema, rows)
  }

  function ResumedAt(dataset: Dataset, query: Query, page: seq<Record>): (q: Query)
    requires page != [] && AllKeyed(dataset, page)
  {
    query.(after := Some(KeyOf(dataset, page[|page| - 1])))
  }

  /** A walk asks again after each page that carried anything, and stops at the first that did not. */
  ghost predicate Walk(dataset: Dataset, schema: Schema, query: Query, rows: set<Record>, limit: nat, pages: seq<seq<Record>>)
    requires Askable(dataset, schema, query, rows)
    decreases |pages|
  {
    && pages != []
    && Answers(dataset, Selected(dataset, schema, query, rows), limit, pages[0])
    && if pages[0] == [] then |pages| == 1
       else
         var next := ResumedAt(dataset, query, pages[0]);
         Askable(dataset, schema, next, rows) && Walk(dataset, schema, next, rows, limit, pages[1..])
  }

  function RowsOf(page: seq<Record>): set<Record> {
    set row | row in page
  }

  function Flattened(pages: seq<seq<Record>>): seq<Record> {
    if pages == [] then [] else pages[0] + Flattened(pages[1..])
  }

  /** The rows a query matches that come after its position. */
  ghost function Left(dataset: Dataset, schema: Schema, query: Query, rows: set<Record>): set<Record>
    requires Askable(dataset, schema, query, rows)
  {
    set row | row in rows && Remaining(dataset, schema, query, row)
  }

  lemma SelectedIsLeft(dataset: Dataset, schema: Schema, query: Query, rows: set<Record>)
    requires Askable(dataset, schema, query, rows)
    ensures Selected(dataset, schema, query, rows) == Left(dataset, schema, query, rows)
  {
    var text := Join(Conditions(dataset, schema, query), " AND ");
    forall row | row in rows
      ensures row in Selected(dataset, schema, query, rows) <==> Remaining(dataset, schema, query, row)
    {
      CompiledReads(dataset, schema, query, row);
    }
  }

  /** Asking after a page leaves exactly what the page did not carry. */
  lemma PageLeaves(dataset: Dataset, schema: Schema, query: Query, rows: set<Record>, limit: nat, page: seq<Record>)
    requires Askable(dataset, schema, query, rows) && page != [] && Answers(dataset, Left(dataset, schema, query, rows), limit, page)
    ensures Askable(dataset, schema, ResumedAt(dataset, query, page), rows)
    ensures Left(dataset, schema, ResumedAt(dataset, query, page), rows) == Left(dataset, schema, query, rows) - RowsOf(page)
  {
    var last, next := page[|page| - 1], ResumedAt(dataset, query, page);
    assert last in Left(dataset, schema, query, rows);
    assert Askable(dataset, schema, next, rows);
    forall row | row in rows
      ensures row in Left(dataset, schema, next, rows) <==> row in Left(dataset, schema, query, rows) && row !in page
    {
      RowLeaves(dataset, schema, query, rows, limit, page, row);
    }
  }

  lemma RowLeaves(dataset: Dataset, schema: Schema, query: Query, rows: set<Record>, limit: nat, page: seq<Record>, row: Record)
    requires Askable(dataset, schema, query, rows) && page != [] && Answers(dataset, Left(dataset, schema, query, rows), limit, page)
    requires row in rows
    ensures Remaining(dataset, schema, ResumedAt(dataset, query, page), row)
      <==> Remaining(dataset, schema, query, row) && row !in page
  {
    var last := page[|page| - 1];
    var key, end := KeyOf(dataset, row), KeyOf(dataset, last);
    assert last in Left(dataset, schema, query, rows);
    assert Remaining(dataset, schema, ResumedAt(dataset, query, page), row)
      <==> Matches(dataset, schema, query, row) && KeyBelow(key, end);
    if KeyBelow(key, end) && query.after.Some? {
      KeyChains(key, end, query.after.value);
    }
    if i :| 0 <= i < |page| && page[i] == row {
      KeyOrder(key, end);
    }
  }

  lemma {:induction false} DescendingThen(dataset: Dataset, page: seq<Record>, others: seq<Record>)
    requires page != [] && AllKeyed(dataset, page) && AllKeyed(dataset, others)
    requires Descending(dataset, page) && Descending(dataset, others)
    requires forall i :: 0 <= i < |others| ==> KeyBelow(KeyOf(dataset, others[i]), KeyOf(dataset, page[|page| - 1]))
    ensures AllKeyed(dataset, page + others) && Descending(dataset, page + others)
  {
    var all := page + others;
    forall i, j | 0 <= i < j < |all|
      ensures KeyBelow(KeyOf(dataset, all[j]), KeyOf(dataset, all[i]))
    {
      if i < |page| <= j && i < |page| - 1 {
        KeyChains(KeyOf(dataset, all[j]), KeyOf(dataset, page[|page| - 1]), KeyOf(dataset, all[i]));
      }
    }
  }

  /**
   However the store fills its pages, a walk gives every row the query matches after its position, each exactly once,
   newest first, and ends within one page more than there are rows.
   */
  lemma {:induction false} WalkIsComplete(dataset: Dataset, schema: Schema, query: Query, rows: set<Record>, limit: nat, pages: seq<seq<Record>>)
    requires Askable(dataset, schema, query, rows) && Walk(dataset, schema, query, rows, limit, pages)
    ensures AllKeyed(dataset, Flattened(pages)) && Descending(dataset, Flattened(pages))
    ensures RowsOf(Flattened(pages)) == Left(dataset, schema, query, rows)
    ensures |pages| <= |Left(dataset, schema, query, rows)| + 1
    decreases |pages|
  {
    SelectedIsLeft(dataset, schema, query, rows);
    if pages[0] == [] {
      assert pages[1..] == [];
      assert Flattened(pages) == [];
    } else {
      var next := ResumedAt(dataset, query, pages[0]);
      PageLeaves(dataset, schema, query, rows, limit, pages[0]);
      WalkIsComplete(dataset, schema, next, rows, limit, pages[1..]);
      PageThenOthers(dataset, schema, query, rows, limit, pages[0], Flattened(pages[1..]));
    }
  }

  /** Of an exact query asked from the start, a walk gives exactly the rows the query wants. */
  lemma WalkGivesTheWanted(dataset: Dataset, schema: Schema, query: Query, rows: set<Record>, limit: nat, pages: seq<seq<Record>>)
    requires Askable(dataset, schema, query, rows) && ExactQuery(schema, query) && query.after.None?
    requires Walk(dataset, schema, query, rows, limit, pages)
    ensures AllKeyed(dataset, Flattened(pages)) && Descending(dataset, Flattened(pages))
    ensures RowsOf(Flattened(pages)) == set row | row in rows && Wanted(dataset, schema, query, row)
  {
    WalkIsComplete(dataset, schema, query, rows, limit, pages);
    forall row | row in rows
      ensures Matches(dataset, schema, query, row) <==> Wanted(dataset, schema, query, row)
    {
      ExactMatchesWanted(dataset, schema, query, row);
    }
  }

  lemma PageThenOthers(dataset: Dataset, schema: Schema, query: Query, rows: set<Record>, limit: nat, page: seq<Record>, others: seq<Record>)
    requires Askable(dataset, schema, query, rows) && page != [] && Answers(dataset, Left(dataset, schema, query, rows), limit, page)
    requires AllKeyed(dataset, others) && Descending(dataset, others)
    requires RowsOf(others) == Left(dataset, schema, query, rows) - RowsOf(page)
    ensures AllKeyed(dataset, page + others) && Descending(dataset, page + others)
    ensures RowsOf(page + others) == Left(dataset, schema, query, rows)
    ensures |Left(dataset, schema, query, rows) - RowsOf(page)| < |Left(dataset, schema, query, rows)|
  {
    PageLeaves(dataset, schema, query, rows, limit, page);
    OthersAreBehind(dataset, schema, ResumedAt(dataset, query, page), rows, others);
    DescendingThen(dataset, page, others);
    BothCarry(page, others, Left(dataset, schema, query, rows), RowsOf(others));
  }

  lemma OthersAreBehind(dataset: Dataset, schema: Schema, next: Query, rows: set<Record>, others: seq<Record>)
    requires Askable(dataset, schema, next, rows) && next.after.Some?
    requires RowsOf(others) == Left(dataset, schema, next, rows)
    ensures AllKeyed(dataset, others)
    ensures forall i :: 0 <= i < |others| ==> KeyBelow(KeyOf(dataset, others[i]), next.after.value)
  {
    forall i | 0 <= i < |others|
      ensures Keyed(dataset, others[i]) && KeyBelow(KeyOf(dataset, others[i]), next.after.value)
    {
      assert others[i] in RowsOf(others);
      assert Stored(dataset, schema, others[i]) && Remaining(dataset, schema, next, others[i]);
    }
  }

  lemma BothCarry(page: seq<Record>, others: seq<Record>, left: set<Record>, rest: set<Record>)
    requires page != [] && (forall i :: 0 <= i < |page| ==> page[i] in left)
    requires rest == left - RowsOf(page) && RowsOf(others) == rest
    ensures RowsOf(page + others) == left && |rest| < |left|
  {
    assert page[0] in RowsOf(page) && page[0] in left && page[0] !in rest;
    StrictlyFewer(rest, left);
    assert forall row :: row in RowsOf(page + others) <==> row in RowsOf(page) || row in RowsOf(others);
    assert RowsOf(page) <= left;
  }

  lemma StrictlyFewer(part: set<Record>, whole: set<Record>)
    requires part < whole
    ensures |part| < |whole|
  {
    var one :| one in whole && one !in part;
    assert part <= whole - {one};
    NoMore(part, whole - {one});
  }

  // ---- A walk can always go on ----

  lemma {:induction false} NewestExists(dataset: Dataset, selected: set<Record>) returns (newest: Record)
    requires selected != {} && (forall row :: row in selected ==> Keyed(dataset, row))
    requires forall a, b :: a in selected && b in selected && KeyOf(dataset, a) == KeyOf(dataset, b) ==> a == b
    ensures newest in selected
    ensures forall row :: row in selected && row != newest ==> KeyBelow(KeyOf(dataset, row), KeyOf(dataset, newest))
    decreases selected
  {
    var one :| one in selected;
    var others := selected - {one};
    assert forall row :: row in selected ==> row == one || row in others;
    newest := one;
    if others != {} {
      var other := NewestExists(dataset, others);
      KeyOrder(KeyOf(dataset, one), KeyOf(dataset, other));
      if KeyBelow(KeyOf(dataset, other), KeyOf(dataset, one)) {
        forall row | row in others && row != other
          ensures KeyBelow(KeyOf(dataset, row), KeyOf(dataset, one))
        {
          KeyChains(KeyOf(dataset, row), KeyOf(dataset, other), KeyOf(dataset, one));
        }
      } else {
        newest := other;
      }
    }
  }

  lemma {:induction false} WalkExists(dataset: Dataset, schema: Schema, query: Query, rows: set<Record>, limit: nat) returns (pages: seq<seq<Record>>)
    requires Askable(dataset, schema, query, rows) && limit > 0
    ensures Walk(dataset, schema, query, rows, limit, pages)
    decreases |Left(dataset, schema, query, rows)|
  {
    var left := Left(dataset, schema, query, rows);
    SelectedIsLeft(dataset, schema, query, rows);
    if left == {} {
      pages := [[]];
    } else {
      var newest := NewestExists(dataset, left);
      var page := [newest];
      assert Answers(dataset, left, limit, page);
      PageLeaves(dataset, schema, query, rows, limit, page);
      var next := ResumedAt(dataset, query, page);
      assert newest in left && newest !in Left(dataset, schema, next, rows);
      StrictlyFewer(Left(dataset, schema, next, rows), left);
      var others := WalkExists(dataset, schema, next, rows, limit);
      pages := [page] + others;
      assert pages[1..] == others;
    }
  }
}
