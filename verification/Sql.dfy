/**
 The part of SQL the hunt compiler writes: how a WHERE clause is read, and what it means.

 Text is cut into tokens, tokens are parsed with comparison binding tighter than NOT, NOT tighter than AND and
 AND tighter than OR, placeholders are numbered from the left, and a parsed clause is evaluated over one row
 and the values bound to the placeholders.
 */
module Sql {
  import opened Wrappers
  import opened Lexical

  // ---- Tokens ----

  datatype Token = Word(text: string) | Quoted(text: string) | Mark(text: string)

  predicate WordChar(c: char) {
    'a' <= c <= 'z' || 'A' <= c <= 'Z' || '0' <= c <= '9' || c == '_'
  }

  /** How many word characters a text begins with. */
  function WordLength(s: string): (n: nat)
    ensures n <= |s|
    ensures forall i :: 0 <= i < n ==> WordChar(s[i])
    ensures n < |s| ==> !WordChar(s[n])
  {
    WordRun(s, |s|)
  }

  function WordRun(s: string, length: nat): (n: nat)
    requires length == |s|
    ensures n <= |s|
    ensures forall i :: 0 <= i < n ==> WordChar(s[i])
    ensures n < |s| ==> !WordChar(s[n])
    decreases length
  {
    if length > 0 && WordChar(s[0]) then 1 + WordRun(s[1..], length - 1) else 0
  }

  /** How many characters come before the next quote. */
  function QuoteLength(s: string): (n: nat)
    ensures n <= |s|
    ensures n < |s| ==> s[n] == '\''
    ensures forall i :: 0 <= i < n ==> s[i] != '\''
  {
    QuoteRun(s, |s|)
  }

  function QuoteRun(s: string, length: nat): (n: nat)
    requires length == |s|
    ensures n <= |s|
    ensures n < |s| ==> s[n] == '\''
    ensures forall i :: 0 <= i < n ==> s[i] != '\''
    decreases length
  {
    if length > 0 && s[0] != '\'' then 1 + QuoteRun(s[1..], length - 1) else 0
  }

  /** The first token of a text, if it does not begin with a space, and how many characters it takes. */
  function Cut(s: string): (c: (seq<Token>, nat))
    requires s != ""
    ensures 0 < c.1 <= |s|
  {
    if s[0] == ' ' then ([], 1)
    else if WordChar(s[0]) then ([Word(s[..WordLength(s)])], WordLength(s))
    else if s[0] == '\'' then
      var n := QuoteLength(s[1..]);
      ([Quoted(s[1..n + 1])], if n + 2 <= |s| then n + 2 else |s|)
    else if |s| >= 2 && s[0] in {'!', '>', '<'} && s[1] == '=' then ([Mark(s[..2])], 2)
    else ([Mark(s[..1])], 1)
  }

  function Lex(s: string): seq<Token> {
    Tokens(s, |s|)
  }

  function Tokens(s: string, length: nat): seq<Token>
    requires length == |s|
    decreases length
  {
    if length == 0 then [] else Cut(s).0 + Tokens(s[Cut(s).1..], length - Cut(s).1)
  }

  // ---- Clauses ----

  datatype Clause =
    | Column(name: string)
    | Constant(cell: Cell)
    | Param(index: nat)
    | Call(callee: string, args: seq<Clause>)
    | Tuple(items: seq<Clause>)
    | Compare(op: string, left: Clause, right: Clause)
    | Among(item: Clause, choices: seq<Clause>)
    | Not(term: Clause)
    | And(left: Clause, right: Clause)
    | Or(left: Clause, right: Clause)

  /** What a parse read: the clause, the tokens after it, and how many placeholders were numbered. */
  datatype Parsed<T> = Parsed(it: T, rest: seq<Token>, params: nat)

  const COMPARISONS := {"=", "!=", ">", ">=", "<", "<="}
  const RESERVED := {"AND", "OR", "NOT", "IN"}

  predicate Starts(ts: seq<Token>, t: Token) {
    ts != [] && ts[0] == t
  }

  function ParseOr(ts: seq<Token>, k: nat): (r: Option<Parsed<Clause>>)
    ensures r.Some? ==> |r.value.rest| < |ts|
    decreases |ts|, 5
  {
    var left := ParseAnd(ts, k);
    if left.Some? && Starts(left.value.rest, Word("OR")) then
      var right := ParseOr(left.value.rest[1..], left.value.params);
      if right.None? then None else Some(right.value.(it := Or(left.value.it, right.value.it)))
    else left
  }

  function ParseAnd(ts: seq<Token>, k: nat): (r: Option<Parsed<Clause>>)
    ensures r.Some? ==> |r.value.rest| < |ts|
    decreases |ts|, 4
  {
    var left := ParseNot(ts, k);
    if left.Some? && Starts(left.value.rest, Word("AND")) then
      var right := ParseAnd(left.value.rest[1..], left.value.params);
      if right.None? then None else Some(right.value.(it := And(left.value.it, right.value.it)))
    else left
  }

  function ParseNot(ts: seq<Token>, k: nat): (r: Option<Parsed<Clause>>)
    ensures r.Some? ==> |r.value.rest| < |ts|
    decreases |ts|, 3
  {
    if Starts(ts, Word("NOT")) then
      var term := ParseNot(ts[1..], k);
      if term.None? then None else Some(term.value.(it := Not(term.value.it)))
    else ParseComparison(ts, k)
  }

  function ParseComparison(ts: seq<Token>, k: nat): (r: Option<Parsed<Clause>>)
    ensures r.Some? ==> |r.value.rest| < |ts|
    decreases |ts|, 2
  {
    var left := ParsePrimary(ts, k);
    if left.None? || left.value.rest == [] then left
    else
      var rest := left.value.rest;
      if rest[0].Mark? && rest[0].text in COMPARISONS then
        var right := ParsePrimary(rest[1..], left.value.params);
        if right.None? then None else Some(right.value.(it := Compare(rest[0].text, left.value.it, right.value.it)))
      else if rest[0] == Word("IN") && Starts(rest[1..], Mark("(")) then
        var choices := ParseList(rest[2..], left.value.params);
        if choices.None? then None
        else Some(Parsed(Among(left.value.it, choices.value.it), choices.value.rest, choices.value.params))
      else left
  }

  function ParsePrimary(ts: seq<Token>, k: nat): (r: Option<Parsed<Clause>>)
    ensures r.Some? ==> |r.value.rest| < |ts|
    decreases |ts|, 1
  {
    if ts == [] then None
    else
      match ts[0]
      case Quoted(text) => Some(Parsed(Constant(Text(text)), ts[1..], k))
      case Word(text) =>
        if text in RESERVED then None
        else if Starts(ts[1..], Mark("(")) then
          var args := ParseList(ts[2..], k);
          if args.None? then None else Some(Parsed(Call(text, args.value.it), args.value.rest, args.value.params))
        else Some(Parsed(Named(text), ts[1..], k))
      case Mark(text) =>
        if text == "?" then Some(Parsed(Param(k), ts[1..], k + 1))
        else if text == "(" then
          var items := ParseList(ts[1..], k);
          if items.None? then None
          else Some(Parsed(if |items.value.it| == 1 then items.value.it[0] else Tuple(items.value.it), items.value.rest, items.value.params))
        else None
  }

  /** Clauses between commas, up to the closing parenthesis. */
  function ParseList(ts: seq<Token>, k: nat): (r: Option<Parsed<seq<Clause>>>)
    ensures r.Some? ==> |r.value.rest| < |ts|
    decreases |ts|, 6
  {
    var first := ParseOr(ts, k);
    if first.None? then None
    else if Starts(first.value.rest, Mark(")")) then Some(Parsed([first.value.it], first.value.rest[1..], first.value.params))
    else if Starts(first.value.rest, Mark(",")) then
      var others := ParseList(first.value.rest[1..], first.value.params);
      if others.None? then None else Some(others.value.(it := [first.value.it] + others.value.it))
    else None
  }

  /** A word that is no function: a constant the language names, or a column. */
  function Named(text: string): Clause {
    if text == "0" then Constant(Number(0.0))
    else if text == "true" then Constant(Truth(true))
    else if text == "NULL" then Constant(Null)
    else Column(text)
  }

  /** A whole WHERE clause. */
  function Parse(text: string): Option<Parsed<Clause>> {
    var parsed := ParseOr(Lex(text), 0);
    if parsed.Some? && parsed.value.rest == [] then parsed else None
  }

  // ---- Meaning ----

  /** What a column holds, or a placeholder is bound to.  Instants are whole milliseconds, as the store keeps them. */
  datatype Cell =
    | Text(text: string)
    | Number(number: real)
    | Truth(truth: bool)
    | Instant(millis: int)
    | List(items: seq<Cell>)
    | Row(items: seq<Cell>)
    | Null

  type Record = map<string, Cell>

  /** The order of two cells of one kind; rows are compared at the first place they differ. */
  predicate Less(a: Cell, b: Cell)
    decreases a
  {
    match (a, b)
    case (Number(x), Number(y)) => x < y
    case (Instant(x), Instant(y)) => x < y
    case (Text(x), Text(y)) => TextLess(x, y)
    case (Row(xs), Row(ys)) => RowLess(xs, ys)
    case _ => false
  }

  predicate RowLess(xs: seq<Cell>, ys: seq<Cell>)
    decreases xs
  {
    && xs != [] && ys != []
    && (Less(xs[0], ys[0]) || (xs[0] == ys[0] && RowLess(xs[1..], ys[1..])))
  }

  predicate Equal(a: Cell, b: Cell) {
    a == b && a != Null
  }

  predicate Compares(op: string, a: Cell, b: Cell) {
    match op
    case "=" => Equal(a, b)
    case "!=" => a != Null && b != Null && a != b
    case "<" => Less(a, b)
    case "<=" => Less(a, b) || Equal(a, b)
    case ">" => Less(b, a)
    case ">=" => Less(b, a) || Equal(a, b)
    case _ => false
  }

  predicate Stands(whole: string, part: string, at: nat) {
    at + |part| <= |whole| && whole[at..at + |part|] == part
  }

  /** Where `part` first stands in `whole` from an index on, counted from 1, and 0 when nowhere. */
  function Position(whole: string, part: string, from: nat): (at: nat)
    ensures at > 0 ==> Stands(whole, part, at - 1)
    ensures at == 0 ==> forall i :: from <= i ==> !Stands(whole, part, i)
    decreases |whole| - from
  {
    if Stands(whole, part, from) then from + 1
    else if from >= |whole| then 0
    else Position(whole, part, from + 1)
  }

  function Apply(name: string, args: seq<Cell>): Cell {
    if name == "fromUnixTimestamp64Milli" && |args| == 2 && args[0].Number? then Instant(args[0].number.Floor)
    else if name == "position" && |args| == 2 && args[0].Text? && args[1].Text? then
      Number(Position(args[0].text, args[1].text, 0) as real)
    else if name == "startsWith" && |args| == 2 && args[0].Text? && args[1].Text? then
      Truth(args[1].text <= args[0].text)
    else if name == "endsWith" && |args| == 2 && args[0].Text? && args[1].Text? then
      Truth(|args[1].text| <= |args[0].text| && args[0].text[|args[0].text| - |args[1].text|..] == args[1].text)
    else if name == "has" && |args| == 2 && args[0].List? then Truth(args[1] in args[0].items)
    else if name == "notEmpty" && |args| == 1 && args[0].List? then Truth(args[0].items != [])
    else Null
  }

  function Eval(c: Clause, record: Record, bound: seq<Cell>): Cell
    decreases c
  {
    match c
    case Column(name) => if name in record then record[name] else Null
    case Constant(cell) => cell
    case Param(index) => if index < |bound| then bound[index] else Null
    case Call(name, args) => Apply(name, seq(|args|, i requires 0 <= i < |args| => Eval(args[i], record, bound)))
    case Tuple(items) => Row(seq(|items|, i requires 0 <= i < |items| => Eval(items[i], record, bound)))
    case Compare(op, left, right) => Truth(Compares(op, Eval(left, record, bound), Eval(right, record, bound)))
    case Among(item, choices) =>
      Truth(exists i :: 0 <= i < |choices| && Equal(Eval(item, record, bound), Eval(choices[i], record, bound)))
    case Not(term) => Truth(Eval(term, record, bound) == Truth(false))
    case And(left, right) => Truth(Eval(left, record, bound) == Truth(true) && Eval(right, record, bound) == Truth(true))
    case Or(left, right) => Truth(Eval(left, record, bound) == Truth(true) || Eval(right, record, bound) == Truth(true))
  }

  /** A row is answered when the clause is true of it. */
  predicate Selects(c: Clause, record: Record, bound: seq<Cell>) {
    Eval(c, record, bound) == Truth(true)
  }
}
