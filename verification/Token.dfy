/**
 The token a session is spent by (internal/authz/session.go): its payload, its signature, and what reading one back
 gives.  The message authentication code and the text encoding are functions given from outside.
 */
module Token {
  import opened Wrappers
  import opened Octets
  import opened Version

  const TOKEN_VERSION: char := 1 as char
  const SESSION_ID_BYTES := 16
  const BINDING_BYTES := 32
  const FIXED_BYTES := 1 + SESSION_ID_BYTES + 8 + 8 + BINDING_BYTES
  const MAX_TOKEN_BYTES := FIXED_BYTES + 128
  const MIN_LIFETIME := 60_000

  /** A session: instants are in milliseconds, and the identifier is the bytes its text is the hexadecimal of. */
  datatype Session = Session(id: Bytes, subject: string, issuedAt: int, expiresAt: int, binding: Bytes)

  datatype Error = NotIssuedHere | Expired | WrongCertificate | NotASubject | NoCertificate

  datatype Issuer = Issuer(sign: Bytes -> Bytes, encode: Bytes -> string, decode: string -> Option<Bytes>, lifetime: int)

  /** What the text encoding is: every payload is read back as it was written, and no text holds a full stop. */
  ghost predicate Faithful(issuer: Issuer) {
    && issuer.lifetime > 0
    && forall bytes :: issuer.decode(issuer.encode(bytes)) == Some(bytes) && '.' !in issuer.encode(bytes)
  }

  predicate SubjectStart(c: char) {
    'A' <= c <= 'Z' || 'a' <= c <= 'z' || '0' <= c <= '9'
  }

  predicate ValidSubject(subject: string) {
    && 0 < |subject| <= 128 && SubjectStart(subject[0])
    && forall i :: 0 <= i < |subject| ==> SubjectStart(subject[i]) || subject[i] in {'.', '_', ':', '@', '-'}
  }

  // ---- Lifetimes ----

  /** A caller may ask for less than the process gives, and gets no more, and no less than the floor where the process gives that much. */
  function Within(issuer: Issuer, asked: int): (lifetime: int)
    ensures lifetime <= issuer.lifetime
    ensures 0 < asked ==> lifetime <= asked || lifetime <= MIN_LIFETIME
    ensures issuer.lifetime >= MIN_LIFETIME ==> lifetime >= MIN_LIFETIME
    ensures asked <= 0 || asked >= issuer.lifetime >= MIN_LIFETIME ==> lifetime == issuer.lifetime
  {
    if asked <= 0 then issuer.lifetime
    else if asked < MIN_LIFETIME then (if MIN_LIFETIME < issuer.lifetime then MIN_LIFETIME else issuer.lifetime)
    else if asked < issuer.lifetime then asked else issuer.lifetime
  }

  /** The fingerprint of no certificate. */
  predicate NoBinding(binding: Bytes) {
    forall i :: 0 <= i < |binding| ==> binding[i] == '\0'
  }

  /** The identifier is drawn by the caller of this model. */
  function Issue(issuer: Issuer, subject: string, binding: Bytes, now: int, asked: int, id: Bytes): Result<(Session, string), Error> {
    if !ValidSubject(subject) then Err(NotASubject)
    else if NoBinding(binding) then Err(NoCertificate)
    else
      var session := Session(id, subject, now, now + Within(issuer, asked), binding);
      Ok((session, Encode(issuer, session)))
  }

  // ---- The payload ----

  /** A signed number of 64 bits, as the unsigned one of the same bits, and back. */
  function Unsigned(n: int): nat {
    n % WORD
  }

  function Signed(n: nat): int
    requires n < WORD
  {
    if n < WORD / 2 then n else n - WORD
  }

  predicate Storable(session: Session) {
    && |session.id| == SESSION_ID_BYTES && |session.binding| == BINDING_BYTES && ValidSubject(session.subject)
    && -(WORD / 2) <= session.issuedAt < WORD / 2 && -(WORD / 2) <= session.expiresAt < WORD / 2
  }

  function Payload(session: Session): Bytes {
    [TOKEN_VERSION] + session.id + BigEndian(Unsigned(session.issuedAt), 8) + BigEndian(Unsigned(session.expiresAt), 8)
    + session.binding + session.subject
  }

  function Encode(issuer: Issuer, session: Session): string {
    issuer.encode(Payload(session)) + "." + issuer.encode(issuer.sign(Payload(session)))
  }

  predicate Plausible(payload: Bytes) {
    && FIXED_BYTES <= |payload| <= MAX_TOKEN_BYTES
    && Number(payload[1 + SESSION_ID_BYTES..9 + SESSION_ID_BYTES]) < WORD
    && Number(payload[9 + SESSION_ID_BYTES..17 + SESSION_ID_BYTES]) < WORD
  }

  function SessionOf(payload: Bytes): Session
    requires Plausible(payload)
  {
    Session(
      payload[1..1 + SESSION_ID_BYTES], payload[FIXED_BYTES..],
      Signed(Number(payload[1 + SESSION_ID_BYTES..9 + SESSION_ID_BYTES])),
      Signed(Number(payload[9 + SESSION_ID_BYTES..17 + SESSION_ID_BYTES])),
      payload[17 + SESSION_ID_BYTES..FIXED_BYTES])
  }

  /** Signature first, and then the layout, the subject, the expiry and the certificate, in that order. */
  function Verified(issuer: Issuer, token: string, presented: Bytes, now: int): Result<Session, Error> {
    var (written, signature, found) := Cut(token, '.');
    var payload, offered := issuer.decode(written), issuer.decode(signature);
    if !found || payload.None? || offered.None? || !Plausible(payload.value) then Err(NotIssuedHere)
    else if offered.value != issuer.sign(payload.value) || payload.value[0] != TOKEN_VERSION then Err(NotIssuedHere)
    else
      var session := SessionOf(payload.value);
      if !ValidSubject(session.subject) then Err(NotIssuedHere)
      else if now >= session.expiresAt then Err(Expired)
      else if session.binding != presented then Err(WrongCertificate)
      else Ok(session)
  }

  // ---- What a token gives back ----

  lemma SignedReads(n: int)
    requires -(WORD / 2) <= n < WORD / 2
    ensures Unsigned(n) < WORD && Signed(Unsigned(n)) == n
  {
    if n < 0 {
      assert Unsigned(n) == n + WORD;
    } else {
      assert Unsigned(n) == n;
    }
  }

  lemma Slices(a: Bytes, id: Bytes, x: Bytes, y: Bytes, binding: Bytes, subject: Bytes)
    requires |a| == 1 && |id| == SESSION_ID_BYTES && |x| == 8 && |y| == 8 && |binding| == BINDING_BYTES
    ensures var p := a + id + x + y + binding + subject;
      && |p| == FIXED_BYTES + |subject| && p[0] == a[0]
      && p[1..1 + SESSION_ID_BYTES] == id && p[1 + SESSION_ID_BYTES..9 + SESSION_ID_BYTES] == x
      && p[9 + SESSION_ID_BYTES..17 + SESSION_ID_BYTES] == y && p[17 + SESSION_ID_BYTES..FIXED_BYTES] == binding
      && p[FIXED_BYTES..] == subject
  {
  }

  /** The payload of a session is read back as that session. */
  lemma PayloadReads(session: Session)
    requires Storable(session)
    ensures Plausible(Payload(session)) && Payload(session)[0] == TOKEN_VERSION
    ensures SessionOf(Payload(session)) == session
  {
    var x, y := BigEndian(Unsigned(session.issuedAt), 8), BigEndian(Unsigned(session.expiresAt), 8);
    Slices([TOKEN_VERSION], session.id, x, y, session.binding, session.subject);
    SignedReads(session.issuedAt);
    SignedReads(session.expiresAt);
    WordReads(Unsigned(session.issuedAt));
    WordReads(Unsigned(session.expiresAt));
  }

  /** A token opened here is its session again, exactly until it expires and exactly with the certificate it was bound to. */
  lemma TokenVerifies(issuer: Issuer, session: Session, presented: Bytes, now: int)
    requires Faithful(issuer) && Storable(session)
    ensures Verified(issuer, Encode(issuer, session), presented, now)
         == if now >= session.expiresAt then Err(Expired) else if presented != session.binding then Err(WrongCertificate) else Ok(session)
  {
    var payload := Payload(session);
    PayloadReads(session);
    CutAt(issuer.encode(payload), issuer.encode(issuer.sign(payload)), '.');
  }

  /** Two sessions never share a payload. */
  lemma PayloadIsInjective(a: Session, b: Session)
    requires Storable(a) && Storable(b) && Payload(a) == Payload(b)
    ensures a == b
  {
    PayloadReads(a);
    PayloadReads(b);
  }
}
