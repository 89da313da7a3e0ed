/** How texts put side by side are cut into tokens, and how a parse climbs from a primary to a clause. */
module SqlText {
  import opened Wrappers
  import opened Sql

  /** Every quote a text opens it also closes. */
  predicate Closed(s: string) {
    ClosedRun(s, |s|)
  }

  predicate ClosedRun(s: string, length: nat)
    requires length == |s|
    decreases length
  {
    if length == 0 then true
    else if s[0] == '\'' then
      var n := QuoteLength(s[1..]);
      n + 2 <= length && ClosedRun(s[n + 2..], length - n - 2)
    else ClosedRun(s[1..], length - 1)
  }

  /** Putting `b` after `a` runs no two words and no two marks together. */
  predicate Boundary(a: string, b: string) {
    a == "" || b == "" ||
    ((!WordChar(a[|a| - 1]) || !WordChar(b[0])) && !(b[0] == '=' && a[|a| - 1] in {'!', '<', '>'}))
  }

  lemma {:induction false} ClosedDrop(s: string, n: nat)
    requires Closed(s) && n <= |s| && forall i :: 0 <= i < n ==> s[i] != '\''
    ensures Closed(s[n..])
    decreases n
  {
    if n > 0 {
      ClosedDrop(s[1..], n - 1);
      assert s[1..][n - 1..] == s[n..];
    } else {
      assert s[0..] == s;
    }
  }

  lemma {:induction false} WordLengthThen(a: string, b: string)
    requires a != "" && (b == "" || WordLength(a) < |a| || !WordChar(b[0]))
    ensures WordLength(a + b) == WordLength(a)
  {
    var n := WordLength(a);
    assert forall i :: 0 <= i < |a| ==> (a + b)[i] == a[i];
    assert n < |a + b| ==> !WordChar((a + b)[n]);
  }

  lemma {:induction false} QuoteLengthThen(a: string, b: string)
    requires QuoteLength(a) < |a|
    ensures QuoteLength(a + b) == QuoteLength(a)
  {
    assert forall i :: 0 <= i < |a| ==> (a + b)[i] == a[i];
  }

  lemma {:induction false} CutWord(a: string, b: string)
    requires a != "" && Closed(a) && Boundary(a, b) && WordChar(a[0])
    ensures Cut(a + b) == Cut(a) && Closed(a[Cut(a).1..])
  {
    var n := WordLength(a);
    WordLengthThen(a, b);
    ClosedDrop(a, n);
    assert (a + b)[..n] == a[..n];
  }

  lemma {:induction false} CutQuote(a: string, b: string)
    requires a != "" && Closed(a) && a[0] == '\''
    ensures Cut(a + b) == Cut(a) && Closed(a[Cut(a).1..])
  {
    var n := QuoteLength(a[1..]);
    assert (a + b)[1..] == a[1..] + b;
    QuoteLengthThen(a[1..], b);
    assert (a + b)[1..n + 1] == a[1..n + 1];
  }

  lemma {:induction false} CutMark(a: string, b: string)
    requires a != "" && Closed(a) && Boundary(a, b) && !WordChar(a[0]) && a[0] != '\''
    ensures Cut(a + b) == Cut(a) && Closed(a[Cut(a).1..])
  {
    if |a| >= 2 && a[0] in {'!', '>', '<'} && a[1] == '=' {
      ClosedDrop(a, 2);
      assert (a + b)[..2] == a[..2];
    } else {
      assert (a + b)[..1] == a[..1];
      assert |a| == 1 && b != "" ==> (a + b)[1] == b[0];
    }
  }

  /** The first token is cut the same whatever follows the boundary. */
  lemma {:induction false} CutThen(a: string, b: string)
    requires a != "" && Closed(a) && Boundary(a, b)
    ensures Cut(a + b) == Cut(a) && Closed(a[Cut(a).1..])
  {
    if WordChar(a[0]) {
      CutWord(a, b);
    } else if a[0] == '\'' {
      CutQuote(a, b);
    } else {
      CutMark(a, b);
    }
  }

  lemma {:induction false} LexStep(s: string, first: seq<Token>, n: nat)
    requires s != "" && Cut(s) == (first, n)
    ensures Lex(s) == first + Lex(s[n..])
  {
  }

  lemma {:induction false} Regroup<T>(x: seq<T>, y: seq<T>, z: seq<T>)
    ensures x + (y + z) == x + y + z
  {
  }

  /** Texts joined at a boundary are cut into the tokens of the one and then the tokens of the other. */
  lemma {:induction false} LexConcat(a: string, b: string)
    requires Closed(a) && Boundary(a, b)
    ensures Lex(a + b) == Lex(a) + Lex(b)
    decreases |a|, 1
  {
    if a == "" {
      assert a + b == b;
    } else {
      var (first, n) := Cut(a);
      CutThen(a, b);
      LexStep(a, first, n);
      LexStep(a + b, first, n);
      RestLexes(a, b, n);
      Regroup(first, Lex(a[n..]), Lex(b));
    }
  }

  lemma {:induction false} RestLexes(a: string, b: string, n: nat)
    requires 0 < n <= |a| && Closed(a[n..]) && Boundary(a, b)
    ensures Lex((a + b)[n..]) == Lex(a[n..]) + Lex(b)
    decreases |a|, 0
  {
    assert (a + b)[n..] == a[n..] + b;
    LexConcat(a[n..], b);
  }

  /** A text is closed exactly when what comes after its first character, or after its first quotation, is. */
  lemma {:induction false} ClosedUnfolds(s: string)
    requires s != ""
    ensures s[0] != '\'' ==> (Closed(s) <==> Closed(s[1..]))
    ensures s[0] == '\'' ==> (Closed(s) <==> var n := QuoteLength(s[1..]); n + 2 <= |s| && Closed(s[n + 2..]))
  {
  }

  lemma {:induction false} ClosedConcat(a: string, b: string)
    requires Closed(a) && Closed(b)
    ensures Closed(a + b)
    decreases |a|
  {
    if a == "" {
      assert a + b == b;
    } else {
      ClosedUnfolds(a);
      ClosedUnfolds(a + b);
      assert (a + b)[0] == a[0] && (a + b)[1..] == a[1..] + b;
      if a[0] == '\'' {
        var n := QuoteLength(a[1..]);
        QuoteLengthThen(a[1..], b);
        ClosedConcat(a[n + 2..], b);
        assert (a + b)[n + 2..] == a[n + 2..] + b;
      } else {
        ClosedConcat(a[1..], b);
      }
    }
  }

  /** A text of word characters is one word. */
  lemma {:induction false} LexWord(w: string)
    requires w != "" && forall i :: 0 <= i < |w| ==> WordChar(w[i])
    ensures Lex(w) == [Word(w)] && Closed(w)
  {
    assert WordLength(w) == |w|;
    assert w[|w|..] == "" && w[..|w|] == w;
    assert Lex("") == [];
    LexStep(w, [Word(w)], |w|);
    ClosedWord(w);
  }

  lemma {:induction false} ClosedWord(w: string)
    requires forall i :: 0 <= i < |w| ==> WordChar(w[i])
    ensures Closed(w)
  {
    if w != "" { ClosedWord(w[1..]); }
  }

  /** A text that can be cut on its own, and the tokens it is cut into. */
  predicate Lexes(text: string, tokens: seq<Token>) {
    Closed(text) && Lex(text) == tokens
  }

  lemma {:induction false} Glue(a: string, ta: seq<Token>, b: string, tb: seq<Token>)
    requires Lexes(a, ta) && Lexes(b, tb) && Boundary(a, b)
    ensures Lexes(a + b, ta + tb)
  {
    LexConcat(a, b);
    ClosedConcat(a, b);
  }

  lemma {:induction false} Glue3(a: string, ta: seq<Token>, b: string, tb: seq<Token>, c: string, tc: seq<Token>)
    requires Lexes(a, ta) && Lexes(b, tb) && Lexes(c, tc) && b != "" && Boundary(a, b) && Boundary(b, c)
    ensures Lexes(a + b + c, ta + tb + tc)
  {
    Glue(a, ta, b, tb);
    assert (a + b)[|a + b| - 1] == b[|b| - 1];
    Glue(a + b, ta + tb, c, tc);
  }

  lemma {:induction false} SpaceLexes()
    ensures Lexes(" ", [])
  {
    assert " "[1..] == "";
    assert Lex("") == [];
    LexStep(" ", [], 1);
  }

  lemma {:induction false} MarkLexes(mark: string)
    requires mark in {"(", ")", ",", "?", "=", ">", "<", "!=", ">=", "<="}
    ensures Lexes(mark, [Mark(mark)])
  {
    assert mark[|mark|..] == "" && mark[..|mark|] == mark;
    LexStep(mark, [Mark(mark)], |mark|);
    if |mark| == 2 { assert Closed(mark[1..]); }
  }

  lemma {:induction false} QuotedLexes(body: string)
    requires forall i :: 0 <= i < |body| ==> body[i] != '\''
    ensures Lexes("'" + body + "'", [Quoted(body)])
  {
    var s := "'" + body + "'";
    assert s[1..] == body + "'";
    QuoteAtEnd(body);
    assert s[1..|body| + 1] == body;
    assert s[|body| + 2..] == "";
    LexStep(s, [Quoted(body)], |body| + 2);
  }

  lemma {:induction false} QuoteAtEnd(body: string)
    requires forall i :: 0 <= i < |body| ==> body[i] != '\''
    ensures QuoteLength(body + "'") == |body|
  {
    if body != "" {
      QuoteAtEnd(body[1..]);
      assert (body + "'")[1..] == body[1..] + "'";
    }
  }

  predicate IsWord(w: string) {
    w != "" && forall i :: 0 <= i < |w| ==> WordChar(w[i])
  }

  /** A mark between two spaces. */
  lemma {:induction false} SpacedMark(mark: string)
    requires mark in {"=", ">", "<", "!=", ">=", "<="}
    ensures Lexes(" " + mark + " ", [Mark(mark)])
  {
    SpaceLexes();
    MarkLexes(mark);
    Glue3(" ", [], mark, [Mark(mark)], " ", []);
    assert [] + [Mark(mark)] + [] == [Mark(mark)];
  }

  /** A word between two spaces. */
  lemma {:induction false} SpacedWord(w: string)
    requires IsWord(w)
    ensures Lexes(" " + w + " ", [Word(w)])
  {
    SpaceLexes();
    LexWord(w);
    Glue3(" ", [], w, [Word(w)], " ", []);
    assert [] + [Word(w)] + [] == [Word(w)];
  }

  /** A word and the parenthesis that opens its arguments. */
  lemma {:induction false} OpenedWord(w: string)
    requires IsWord(w)
    ensures Lexes(w + "(", [Word(w), Mark("(")])
  {
    LexWord(w);
    MarkLexes("(");
    Glue(w, [Word(w)], "(", [Mark("(")]);
    assert [Word(w)] + [Mark("(")] == [Word(w), Mark("(")];
  }

  lemma {:induction false} CommaLexes()
    ensures Lexes(", ", [Mark(",")])
  {
    MarkLexes(",");
    SpaceLexes();
    Glue(",", [Mark(",")], " ", []);
    assert "," + " " == ", " && [Mark(",")] + [] == [Mark(",")];
  }

  /** The second argument of a call, asked for, and its end. */
  lemma {:induction false} AskedArgumentLexes()
    ensures Lexes(", ?)", [Mark(","), Mark("?"), Mark(")")])
  {
    CommaLexes();
    MarkLexes("?");
    MarkLexes(")");
    Glue3(", ", [Mark(",")], "?", [Mark("?")], ")", [Mark(")")]);
    assert ", " + "?" + ")" == ", ?)";
    assert [Mark(",")] + [Mark("?")] + [Mark(")")] == [Mark(","), Mark("?"), Mark(")")];
  }

  // ---- Parsing ----

  /** A token no comparison goes on with. */
  predicate Stops(rest: seq<Token>) {
    rest == [] || rest[0] in {Mark(")"), Mark(","), Word("AND"), Word("OR")}
  }

  /** A token no clause goes on with. */
  predicate Ends(rest: seq<Token>) {
    rest == [] || rest[0] in {Mark(")"), Mark(",")}
  }

  lemma {:induction false} PrimaryIsTerm(ts: seq<Token>, k: nat, p: Parsed<Clause>)
    requires ParsePrimary(ts, k) == Some(p) && Stops(p.rest)
    ensures ParseNot(ts, k) == Some(p)
  {
    assert ParseComparison(ts, k) == Some(p);
  }

  lemma {:induction false} TermIsClause(ts: seq<Token>, k: nat, p: Parsed<Clause>)
    requires ParseNot(ts, k) == Some(p) && Ends(p.rest)
    ensures ParseAnd(ts, k) == Some(p) && ParseOr(ts, k) == Some(p)
  {
  }

  lemma {:induction false} PrimaryIsClause(ts: seq<Token>, k: nat, p: Parsed<Clause>)
    requires ParsePrimary(ts, k) == Some(p) && Ends(p.rest)
    ensures ParseOr(ts, k) == Some(p)
  {
    PrimaryIsTerm(ts, k, p);
    TermIsClause(ts, k, p);
  }
}
