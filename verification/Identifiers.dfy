/** The names tenants and agents go by (internal/event/validate.go). */
module Identifiers {
  const MAX_IDENTIFIER_LENGTH := 64

  predicate IdentifierStart(c: char) {
    'A' <= c <= 'Z' || 'a' <= c <= 'z' || '0' <= c <= '9'
  }

  predicate IdentifierRest(s: string) {
    s == "" || ((IdentifierStart(s[0]) || s[0] in {'.', '_', ':', '-'}) && IdentifierRest(s[1..]))
  }

  predicate ValidIdentifier(s: string) {
    0 < |s| <= MAX_IDENTIFIER_LENGTH && IdentifierStart(s[0]) && IdentifierRest(s[1..])
  }
}
