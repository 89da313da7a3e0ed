/** The order of two texts, character by character. */
module Lexical {
  predicate TextLess(a: string, b: string) {
    if b == "" then false
    else if a == "" then true
    else a[0] < b[0] || (a[0] == b[0] && TextLess(a[1..], b[1..]))
  }

  lemma {:induction false} TextOrder(a: string, b: string)
    ensures TextLess(a, b) || a == b || TextLess(b, a)
    ensures !(TextLess(a, b) && TextLess(b, a)) && !TextLess(a, a)
    decreases |a|
  {
    if a != "" && b != "" {
      TextOrder(a[1..], b[1..]);
      assert a == [a[0]] + a[1..] && b == [b[0]] + b[1..];
    }
    if a != "" {
      TextOrder(a[1..], a[1..]);
    }
  }

  lemma {:induction false} TextChains(a: string, b: string, c: string)
    requires TextLess(a, b) && TextLess(b, c)
    ensures TextLess(a, c)
    decreases |a|
  {
    if a != "" && a[0] == b[0] && b[0] == c[0] {
      TextChains(a[1..], b[1..], c[1..]);
    }
  }
}
