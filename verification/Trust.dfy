/**
 What update metadata is trusted by: the bytes a signature is over, the keys that count as having signed, and the chain
 of roots (internal/agentpolicy/policy.go, internal/agentupdate/update.go, root.go; the pre-authentication encoding is
 that of the DSSE v1 protocol, and the chain of roots is section 5.3 of The Update Framework specification).

 Signatures, digests and message encodings are functions given from outside.
 */
module Trust {
  import opened Wrappers
  import opened Version

  type Bytes = string

  // ---- What is signed ----

  function PAE(payloadType: string, payload: Bytes): Bytes {
    "DSSEv1 " + Decimal(|payloadType|) + " " + payloadType + " " + Decimal(|payload|) + " " + payload
  }

  /** A length, a space, and that many bytes. */
  function Counted(s: Bytes): Option<(Bytes, Bytes)> {
    var (length, rest, found) := Cut(s, ' ');
    if !found || !Digits(length) || ValueOf(length) > |rest| then None
    else Some((rest[..ValueOf(length)], rest[ValueOf(length)..]))
  }

  /** Reads back what was encoded. */
  function Opened(encoded: Bytes): Option<(string, Bytes)> {
    if |encoded| < 7 || encoded[..7] != "DSSEv1 " then None
    else
      var first := Counted(encoded[7..]);
      if first.None? || first.value.1 == "" || first.value.1[0] != ' ' then None
      else
        var second := Counted(first.value.1[1..]);
        if second.None? || second.value.1 != "" then None else Some((first.value.0, second.value.0))
  }

  lemma CountedReads(s: Bytes, rest: Bytes)
    ensures Counted(Decimal(|s|) + " " + s + rest) == Some((s, rest))
  {
    CutAt(Decimal(|s|), s + rest, ' ');
    assert Decimal(|s|) + [' '] + (s + rest) == Decimal(|s|) + " " + s + rest;
    assert (s + rest)[..|s|] == s && (s + rest)[|s|..] == rest;
  }

  /** What is encoded is read back whole, type and payload. */
  lemma OpenedReads(payloadType: string, payload: Bytes)
    ensures Opened(PAE(payloadType, payload)) == Some((payloadType, payload))
  {
    var second := Decimal(|payload|) + " " + payload;
    var body := Decimal(|payloadType|) + " " + payloadType + (" " + second);
    assert PAE(payloadType, payload) == "DSSEv1 " + body;
    CountedReads(payloadType, " " + second);
    CountedReads(payload, "");
    assert second + "" == second && (" " + second)[1..] == second;
  }

  /** No two things are signed as the same bytes. */
  lemma PAEIsInjective(typeA: string, a: Bytes, typeB: string, b: Bytes)
    requires PAE(typeA, a) == PAE(typeB, b)
    ensures typeA == typeB && a == b
  {
    OpenedReads(typeA, a);
    OpenedReads(typeB, b);
  }

  const POLICY_TYPE := "application/vnd.seagull.policy.v1+protobuf"
  const ROOT_TYPE := "application/vnd.seagull.update.v1.root+protobuf"
  const CATALOG_TYPE := "application/vnd.seagull.update.v1.catalog+protobuf"

  /** What is signed as a policy, as a root and as a catalog is never the same bytes. */
  lemma KindsAreApart(a: Bytes, b: Bytes)
    ensures PAE(POLICY_TYPE, a) != PAE(ROOT_TYPE, b)
    ensures PAE(POLICY_TYPE, a) != PAE(CATALOG_TYPE, b)
    ensures PAE(ROOT_TYPE, a) != PAE(CATALOG_TYPE, b)
  {
    OpenedReads(POLICY_TYPE, a);
    OpenedReads(ROOT_TYPE, b);
    OpenedReads(ROOT_TYPE, a);
    OpenedReads(CATALOG_TYPE, b);
    assert |POLICY_TYPE| != |ROOT_TYPE| && |POLICY_TYPE| != |CATALOG_TYPE| && |ROOT_TYPE| != |CATALOG_TYPE|;
  }

  // ---- Which keys signed ----

  datatype Role = Role(keyIds: seq<string>, threshold: nat)

  datatype Envelope = Envelope(payloadType: string, payload: Bytes, signatures: seq<Bytes>)

  /** A key a root names: the identifier it gives it, and its encoding. */
  datatype NamedKey = NamedKey(id: string, encoding: Bytes)

  datatype Message = Message(
    schema: nat, version: nat, issued: Option<int>, expires: Option<int>,
    keys: seq<NamedKey>, root: Option<Role>, catalog: Option<Role>)

  type Key = Bytes

  /** What is given from outside: whether a key made a signature over some bytes, and how metadata and keys are decoded. */
  datatype Codec = Codec(
    verifies: (Key, Bytes, Bytes) -> bool,
    envelope: Bytes -> Option<Envelope>, message: Bytes -> Option<Message>,
    keyId: Bytes -> string, key: Bytes -> Option<Key>)

  datatype Error = Malformed | Unsigned | Stale

  const MAX_PAYLOAD_BYTES := 0x10_0000
  const MAX_SIGNATURES := 16
  const MAX_KEYS := 16
  const MAX_ROLE_KEYS := 8
  const SCHEMA_VERSION := 1
  const MAX_VERSION := 0x7FFF_FFFF_FFFF_FFFF
  // In nanoseconds, as every instant here is.
  const MAX_AHEAD := 5 * 60 * 1_000_000_000
  const MAX_LIFETIME := 366 * 24 * 3600 * 1_000_000_000

  function Carries(envelope: Envelope, payloadType: string): Option<Error> {
    if envelope.payloadType != payloadType then Some(Malformed)
    else if envelope.payload == "" then Some(Malformed)
    else if |envelope.payload| > MAX_PAYLOAD_BYTES then Some(Malformed)
    else if envelope.signatures == [] then Some(Unsigned)
    else if |envelope.signatures| > MAX_SIGNATURES then Some(Malformed)
    else None
  }

  predicate Signs(codec: Codec, keys: map<string, Key>, id: string, signed: Bytes, signatures: set<Bytes>) {
    id in keys && exists signature :: signature in signatures && codec.verifies(keys[id], signed, signature)
  }

  /** The keys of a role that made one of the signatures. */
  function Signers(codec: Codec, keys: map<string, Key>, ids: set<string>, signed: Bytes, signatures: set<Bytes>): set<string> {
    set id | id in ids && Signs(codec, keys, id, signed, signatures)
  }

  function SetOf<T>(s: seq<T>): set<T> {
    set x | x in s
  }

  /** Who vouched for an envelope: as many distinct keys of the role as its threshold, or more. */
  function Vouched(codec: Codec, keys: map<string, Key>, role: Role, payloadType: string, envelope: Envelope): Result<set<string>, Error> {
    var refused := Carries(envelope, payloadType);
    var signers := Signers(codec, keys, SetOf(role.keyIds), PAE(payloadType, envelope.payload), SetOf(envelope.signatures));
    if refused.Some? then Err(refused.value) else if |signers| < role.threshold then Err(Unsigned) else Ok(signers)
  }

  /** The keys one signature adds to those that signed: a key counts once however many signatures it made. */
  method SignedWith(codec: Codec, keys: map<string, Key>, ids: seq<string>, encoded: Bytes, signature: Bytes, held: seq<string>) returns (signed: seq<string>)
    requires |SetOf(held)| == |held|
    ensures SetOf(signed) == SetOf(held) + Signers(codec, keys, SetOf(ids), encoded, {signature})
    ensures |SetOf(signed)| == |signed|
  {
    signed := held;
    HeldNone(codec, keys, ids, encoded, signature, held);
    for j := 0 to |ids|
      invariant HeldWith(codec, keys, ids[..j], encoded, signature, held, signed)
    {
      var id := ids[j];
      HeldThen(codec, keys, ids, j, encoded, signature, held, signed);
      if id in keys && id !in signed && codec.verifies(keys[id], encoded, signature) {
        signed := signed + [id];
      }
    }
    assert ids[..|ids|] == ids;
  }

  predicate HeldWith(codec: Codec, keys: map<string, Key>, ids: seq<string>, encoded: Bytes, signature: Bytes, held: seq<string>, signed: seq<string>) {
    SetOf(signed) == SetOf(held) + Signers(codec, keys, SetOf(ids), encoded, {signature}) && |SetOf(signed)| == |signed|
  }

  lemma HeldNone(codec: Codec, keys: map<string, Key>, ids: seq<string>, encoded: Bytes, signature: Bytes, held: seq<string>)
    requires |SetOf(held)| == |held|
    ensures HeldWith(codec, keys, ids[..0], encoded, signature, held, held)
  {
    assert SetOf(ids[..0]) == {};
    assert Signers(codec, keys, {}, encoded, {signature}) == {};
  }

  lemma HeldThen(codec: Codec, keys: map<string, Key>, ids: seq<string>, j: nat, encoded: Bytes, signature: Bytes, held: seq<string>, signed: seq<string>)
    requires j < |ids| && HeldWith(codec, keys, ids[..j], encoded, signature, held, signed)
    ensures HeldWith(codec, keys, ids[..j + 1], encoded, signature, held,
                     if ids[j] in keys && ids[j] !in signed && codec.verifies(keys[ids[j]], encoded, signature) then signed + [ids[j]] else signed)
  {
    var id := ids[j];
    SignersByKey(codec, keys, ids, j, encoded, {signature});
    SignsOne(codec, keys, id, encoded, signature);
    AddedOnce(signed, SetOf(held), Signers(codec, keys, SetOf(ids[..j]), encoded, {signature}), id, Signs(codec, keys, id, encoded, {signature}));
  }

  lemma AddedOnce(signed: seq<string>, held: set<string>, before: set<string>, id: string, signs: bool)
    requires SetOf(signed) == held + before && |SetOf(signed)| == |signed|
    ensures var after := if signs && id !in signed then signed + [id] else signed;
      SetOf(after) == held + (before + if signs then {id} else {}) && |SetOf(after)| == |after|
  {
    if id in signed {
      assert id in SetOf(signed);
      assert held + (before + {id}) == held + before;
    } else {
      SetThen(signed, id);
      assert held + (before + {id}) == held + before + {id};
    }
    assert before + {} == before;
  }

  lemma SignsOne(codec: Codec, keys: map<string, Key>, id: string, signed: Bytes, signature: Bytes)
    ensures Signs(codec, keys, id, signed, {signature}) <==> id in keys && codec.verifies(keys[id], signed, signature)
  {
  }

  method SignedBy(codec: Codec, keys: map<string, Key>, role: Role, payloadType: string, envelope: Envelope) returns (r: Result<set<string>, Error>)
    ensures r == Vouched(codec, keys, role, payloadType, envelope)
  {
    var refused := Carries(envelope, payloadType);
    if refused.Some? {
      return Err(refused.value);
    }
    var encoded := PAE(payloadType, envelope.payload);
    var signed: seq<string> := [];
    for i := 0 to |envelope.signatures|
      invariant SetOf(signed) == Signers(codec, keys, SetOf(role.keyIds), encoded, SetOf(envelope.signatures[..i]))
      invariant |SetOf(signed)| == |signed|
    {
      SignersThen(codec, keys, SetOf(role.keyIds), encoded, envelope.signatures, i);
      signed := SignedWith(codec, keys, role.keyIds, encoded, envelope.signatures[i], signed);
    }
    assert envelope.signatures[..|envelope.signatures|] == envelope.signatures;
    if |signed| < role.threshold {
      return Err(Unsigned);
    }
    r := Ok(SetOf(signed));
  }

  lemma SignersThen(codec: Codec, keys: map<string, Key>, ids: set<string>, signed: Bytes, signatures: seq<Bytes>, i: nat)
    requires i < |signatures|
    ensures Signers(codec, keys, ids, signed, SetOf(signatures[..i + 1]))
         == Signers(codec, keys, ids, signed, SetOf(signatures[..i])) + Signers(codec, keys, ids, signed, {signatures[i]})
  {
    assert signatures[..i + 1] == signatures[..i] + [signatures[i]];
    assert SetOf(signatures[..i + 1]) == SetOf(signatures[..i]) + {signatures[i]};
    SignersBySignature(codec, keys, ids, signed, SetOf(signatures[..i]), signatures[i]);
  }

  lemma SetThen(s: seq<string>, x: string)
    requires x !in s
    ensures SetOf(s + [x]) == SetOf(s) + {x} && |SetOf(s + [x])| == |SetOf(s)| + 1
  {
    assert x !in SetOf(s);
    assert SetOf(s + [x]) == SetOf(s) + {x};
  }

  lemma SignersByKey(codec: Codec, keys: map<string, Key>, ids: seq<string>, j: nat, signed: Bytes, signatures: set<Bytes>)
    requires j < |ids|
    ensures Signers(codec, keys, SetOf(ids[..j + 1]), signed, signatures)
         == Signers(codec, keys, SetOf(ids[..j]), signed, signatures) + if Signs(codec, keys, ids[j], signed, signatures) then {ids[j]} else {}
  {
    assert ids[..j + 1] == ids[..j] + [ids[j]];
    assert SetOf(ids[..j + 1]) == SetOf(ids[..j]) + {ids[j]};
  }

  lemma SignersBySignature(codec: Codec, keys: map<string, Key>, ids: set<string>, signed: Bytes, before: set<Bytes>, signature: Bytes)
    ensures Signers(codec, keys, ids, signed, before + {signature})
         == Signers(codec, keys, ids, signed, before) + Signers(codec, keys, ids, signed, {signature})
  {
    var both := before + {signature};
    forall id | id in ids
      ensures Signs(codec, keys, id, signed, both) <==> Signs(codec, keys, id, signed, before) || Signs(codec, keys, id, signed, {signature})
    {
    }
  }

  /** Who vouched does not depend on the order of signatures or of the role's keys, nor on how often each comes. */
  lemma VouchedIsOrderFree(codec: Codec, keys: map<string, Key>, a: Role, b: Role, payloadType: string, e: Envelope, f: Envelope)
    requires a.threshold == b.threshold && SetOf(a.keyIds) == SetOf(b.keyIds)
    requires e.payloadType == f.payloadType && e.payload == f.payload && SetOf(e.signatures) == SetOf(f.signatures)
    requires |e.signatures| <= MAX_SIGNATURES && |f.signatures| <= MAX_SIGNATURES
    ensures Vouched(codec, keys, a, payloadType, e) == Vouched(codec, keys, b, payloadType, f)
  {
    SetIsEmpty(e.signatures);
    SetIsEmpty(f.signatures);
  }

  lemma SetIsEmpty(s: seq<Bytes>)
    ensures SetOf(s) == {} <==> s == []
  {
    if s != [] {
      assert s[0] in SetOf(s);
    }
  }

  // ---- The chain of roots ----

  /** A root the platform trusts, with the keys it names decoded. */
  datatype Root = Root(version: nat, keys: map<string, Key>, root: Role, catalog: Role, signedBy: set<string>)

  predicate ValidRole(role: Role, keys: map<string, Key>) {
    && 1 <= |role.keyIds| <= MAX_ROLE_KEYS && 1 <= role.threshold <= |role.keyIds|
    && (forall i :: 0 <= i < |role.keyIds| ==> role.keyIds[i] in keys)
    && forall i, j :: 0 <= i < j < |role.keyIds| ==> role.keyIds[i] != role.keyIds[j]
  }

  predicate ValidLifetime(issued: Option<int>, expires: Option<int>, now: int) {
    && issued.Some? && expires.Some? && issued.value <= now + MAX_AHEAD
    && issued.value < expires.value <= issued.value + MAX_LIFETIME
  }

  predicate ValidKey(codec: Codec, key: NamedKey) {
    key.id == codec.keyId(key.encoding) && codec.key(key.encoding).Some?
  }

  predicate SelfNamed(codec: Codec, named: seq<NamedKey>) {
    forall i :: 0 <= i < |named| ==> ValidKey(codec, named[i])
  }

  predicate DifferentlyNamed(named: seq<NamedKey>) {
    forall i, j :: 0 <= i < j < |named| ==> named[i].id != named[j].id
  }

  predicate ValidKeys(codec: Codec, named: seq<NamedKey>) {
    1 <= |named| <= MAX_KEYS && SelfNamed(codec, named) && DifferentlyNamed(named)
  }

  function KeysOf(codec: Codec, named: seq<NamedKey>): map<string, Key>
    requires SelfNamed(codec, named)
  {
    if named == [] then map[]
    else
      var last := |named| - 1;
      assert ValidKey(codec, named[last]);
      KeysOf(codec, named[..last])[named[last].id := codec.key(named[last].encoding).value]
  }

  function Ids(named: seq<NamedKey>): set<string> {
    set key | key in named :: key.id
  }

  lemma IdsThen(named: seq<NamedKey>, key: NamedKey)
    ensures Ids(named + [key]) == Ids(named) + {key.id}
  {
  }

  lemma DifferentThen(named: seq<NamedKey>, key: NamedKey)
    requires DifferentlyNamed(named)
    ensures DifferentlyNamed(named + [key]) <==> key.id !in Ids(named)
  {
    var all := named + [key];
    assert all[|named|] == key && forall i :: 0 <= i < |named| ==> all[i] == named[i];
    if key.id in Ids(named) {
      var other :| other in named && other.id == key.id;
      var i :| 0 <= i < |named| && named[i] == other;
      assert all[i].id == all[|named|].id;
    } else {
      forall i | 0 <= i < |named|
        ensures named[i].id != key.id
      {
        assert named[i] in named;
      }
    }
  }

  lemma KeysThen(codec: Codec, named: seq<NamedKey>, key: NamedKey)
    requires SelfNamed(codec, named) && ValidKey(codec, key)
    ensures SelfNamed(codec, named + [key])
    ensures KeysOf(codec, named + [key]) == KeysOf(codec, named)[key.id := codec.key(key.encoding).value]
  {
    assert (named + [key])[..|named|] == named;
  }

  lemma {:induction false} KeysAreNamed(codec: Codec, named: seq<NamedKey>)
    requires SelfNamed(codec, named)
    ensures KeysOf(codec, named).Keys == Ids(named)
    decreases |named|
  {
    if named != [] {
      var last := |named| - 1;
      KeysAreNamed(codec, named[..last]);
      assert named == named[..last] + [named[last]];
      KeysThen(codec, named[..last], named[last]);
      IdsThen(named[..last], named[last]);
    }
  }

  lemma {:induction false} KeyIsHeld(codec: Codec, named: seq<NamedKey>, i: nat)
    requires i < |named| && SelfNamed(codec, named) && DifferentlyNamed(named)
    ensures named[i].id in KeysOf(codec, named) && KeysOf(codec, named)[named[i].id] == codec.key(named[i].encoding).value
    decreases |named|
  {
    var last := |named| - 1;
    if i < last {
      KeyIsHeld(codec, named[..last], i);
      assert named[..last][i] == named[i] && named[i].id != named[last].id;
    }
  }

  lemma KeysRefused(codec: Codec, named: seq<NamedKey>, i: nat)
    requires i < |named| && DifferentlyNamed(named[..i])
    ensures !ValidKey(codec, named[i]) || named[i].id in Ids(named[..i]) ==> !ValidKeys(codec, named)
  {
    DifferentThen(named[..i], named[i]);
    assert named[..i + 1] == named[..i] + [named[i]];
    if DifferentlyNamed(named) {
      assert DifferentlyNamed(named[..i + 1]);
    }
  }

  /** Each key is named by the digest of its own encoding, and none is named twice. */
  method PublicKeys(codec: Codec, named: seq<NamedKey>) returns (r: Option<map<string, Key>>)
    ensures r.Some? <==> ValidKeys(codec, named)
    ensures r.Some? ==> r.value == KeysOf(codec, named) && r.value.Keys == Ids(named)
    ensures r.Some? ==> forall i :: 0 <= i < |named| ==> named[i].id in r.value && Some(r.value[named[i].id]) == codec.key(named[i].encoding)
  {
    if |named| == 0 || |named| > MAX_KEYS {
      return None;
    }
    var keys: map<string, Key> := map[];
    for i := 0 to |named|
      invariant SelfNamed(codec, named[..i]) && DifferentlyNamed(named[..i]) && keys == KeysOf(codec, named[..i])
    {
      var key := named[i];
      assert named[..i + 1] == named[..i] + [key];
      KeysAreNamed(codec, named[..i]);
      KeysRefused(codec, named, i);
      if key.id != codec.keyId(key.encoding) {
        return None;
      }
      if key.id in keys {
        return None;
      }
      var parsed := codec.key(key.encoding);
      if parsed.None? {
        return None;
      }
      KeysThen(codec, named[..i], key);
      DifferentThen(named[..i], key);
      keys := keys[key.id := parsed.value];
    }
    assert named[..|named|] == named;
    KeysAreNamed(codec, named);
    forall i | 0 <= i < |named|
      ensures named[i].id in keys && Some(keys[named[i].id]) == codec.key(named[i].encoding)
    {
      KeyIsHeld(codec, named, i);
    }
    return Some(keys);
  }

  /** A root as it is decoded, or why it is not one this platform takes. */
  function DecodedRoot(codec: Codec, payload: Bytes, now: int): Option<Root> {
    var message := codec.message(payload);
    if message.None? || message.value.schema != SCHEMA_VERSION || !(1 <= message.value.version <= MAX_VERSION) then None
    else if !ValidLifetime(message.value.issued, message.value.expires, now) || !ValidKeys(codec, message.value.keys) then None
    else
      var keys := KeysOf(codec, message.value.keys);
      if message.value.root.None? || !ValidRole(message.value.root.value, keys) then None
      else if message.value.catalog.None? || !ValidRole(message.value.catalog.value, keys) then None
      else Some(Root(message.value.version, keys, message.value.root.value, message.value.catalog.value, {}))
  }

  /** A file that is not a root its own keys signed is refused. */
  function Anchor(codec: Codec, served: Bytes, now: int): Option<Root> {
    var envelope := codec.envelope(served);
    if envelope.None? || envelope.value.payloadType != ROOT_TYPE then None
    else
      var root := DecodedRoot(codec, envelope.value.payload, now);
      if root.None? then None
      else
        var signed := Vouched(codec, root.value.keys, root.value.root, ROOT_TYPE, envelope.value);
        if signed.Err? then None else Some(root.value.(signedBy := signed.value))
  }

  /** The root after one, which a threshold of its own root keys and a threshold of the root keys before it both signed. */
  function Next(codec: Codec, current: Root, envelope: Envelope, now: int): Result<Root, Error> {
    var before := Vouched(codec, current.keys, current.root, ROOT_TYPE, envelope);
    if before.Err? then Err(before.error)
    else
      var root := DecodedRoot(codec, envelope.payload, now);
      if root.None? then Err(Malformed)
      else if root.value.version <= current.version then Err(Stale)
      else if root.value.version != current.version + 1 then Err(Malformed)
      else
        var after := Vouched(codec, root.value.keys, root.value.root, ROOT_TYPE, envelope);
        if after.Err? then Err(after.error) else Ok(root.value.(signedBy := before.value + after.value))
  }

  function Served(codec: Codec, current: Root, served: Bytes, now: int): Result<Root, Error> {
    var envelope := codec.envelope(served);
    if envelope.None? then Err(Malformed) else Next(codec, current, envelope.value, now)
  }

  function Walked(codec: Codec, root: Root, served: seq<Bytes>, now: int): Result<Root, Error>
    decreases |served|
  {
    if served == [] then Ok(root)
    else
      var next := Served(codec, root, served[0], now);
      if next.Err? then next else Walked(codec, next.value, served[1..], now)
  }

  method Walk(codec: Codec, root: Root, served: seq<Bytes>, now: int) returns (r: Result<Root, Error>)
    ensures r == Walked(codec, root, served, now)
  {
    var current := root;
    for i := 0 to |served|
      invariant Walked(codec, root, served, now) == Walked(codec, current, served[i..], now)
    {
      assert served[i..][1..] == served[i + 1..];
      var envelope := codec.envelope(served[i]);
      if envelope.None? {
        return Err(Malformed);
      }
      var next := Next(codec, current, envelope.value, now);
      if next.Err? {
        return next;
      }
      current := next.value;
    }
    return Ok(current);
  }

  // ---- What a walk shows ----

  /** As many distinct keys of a role as its threshold made signatures over the root an envelope carries. */
  predicate Threshold(codec: Codec, keys: map<string, Key>, role: Role, envelope: Envelope) {
    |Signers(codec, keys, SetOf(role.keyIds), PAE(ROOT_TYPE, envelope.payload), SetOf(envelope.signatures))| >= role.threshold
  }

  predicate Sound(root: Root) {
    1 <= root.version <= MAX_VERSION && ValidRole(root.root, root.keys) && ValidRole(root.catalog, root.keys)
  }

  /** One root vouches for the next, and the next for itself. */
  predicate Link(codec: Codec, root: Root, served: Bytes, next: Root, now: int) {
    && codec.envelope(served).Some? && next.version == root.version + 1 && Sound(next)
    && Threshold(codec, root.keys, root.root, codec.envelope(served).value)
    && Threshold(codec, next.keys, next.root, codec.envelope(served).value)
    && codec.message(codec.envelope(served).value.payload).Some?
    && var message := codec.message(codec.envelope(served).value.payload).value;
    && message.schema == SCHEMA_VERSION && ValidLifetime(message.issued, message.expires, now)
    && message.version == next.version && message.root == Some(next.root) && message.catalog == Some(next.catalog)
    && ValidKeys(codec, message.keys) && next.keys == KeysOf(codec, message.keys)
  }

  lemma DecodedIsSound(codec: Codec, payload: Bytes, now: int)
    requires DecodedRoot(codec, payload, now).Some?
    ensures Sound(DecodedRoot(codec, payload, now).value)
  {
  }

  lemma VouchedIsThreshold(codec: Codec, keys: map<string, Key>, role: Role, envelope: Envelope)
    requires Vouched(codec, keys, role, ROOT_TYPE, envelope).Ok?
    ensures Threshold(codec, keys, role, envelope)
  {
  }

  lemma ServedLinks(codec: Codec, root: Root, served: Bytes, now: int)
    requires Served(codec, root, served, now).Ok?
    ensures Link(codec, root, served, Served(codec, root, served, now).value, now)
  {
    var envelope := codec.envelope(served).value;
    var decoded := DecodedRoot(codec, envelope.payload, now);
    DecodedIsSound(codec, envelope.payload, now);
    VouchedIsThreshold(codec, root.keys, root.root, envelope);
    VouchedIsThreshold(codec, decoded.value.keys, decoded.value.root, envelope);
  }

  /** Every root of a chain is linked to the one before it. */
  predicate Chain(codec: Codec, roots: seq<Root>, served: seq<Bytes>, now: int) {
    |roots| == |served| + 1 && forall i :: 0 <= i < |served| ==> Link(codec, roots[i], served[i], roots[i + 1], now)
  }

  /**
   A walk that succeeds over n envelopes ends n versions on, and shows the chain it went: every link of it carries a
   threshold of distinct root keys of the root before and of the root itself.
   */
  lemma {:induction false} WalkIsAChain(codec: Codec, root: Root, served: seq<Bytes>, now: int) returns (roots: seq<Root>)
    requires Walked(codec, root, served, now).Ok?
    ensures Chain(codec, roots, served, now) && roots[0] == root && roots[|served|] == Walked(codec, root, served, now).value
    ensures Walked(codec, root, served, now).value.version == root.version + |served|
    decreases |served|
  {
    if served == [] {
      roots := [root];
    } else {
      var next := Served(codec, root, served[0], now).value;
      ServedLinks(codec, root, served[0], now);
      var others := WalkIsAChain(codec, next, served[1..], now);
      roots := [root] + others;
      forall i | 0 <= i < |served|
        ensures Link(codec, roots[i], served[i], roots[i + 1], now)
      {
        if i > 0 {
          assert Link(codec, others[i - 1], served[1..][i - 1], others[i], now);
        }
      }
    }
  }

  /** Walking one chain after another is walking the two as one. */
  lemma {:induction false} WalkInTwoParts(codec: Codec, root: Root, a: seq<Bytes>, b: seq<Bytes>, now: int)
    ensures Walked(codec, root, a + b, now) ==
      var first := Walked(codec, root, a, now);
      if first.Err? then first else Walked(codec, first.value, b, now)
    decreases |a|
  {
    if a == [] {
      assert a + b == b;
    } else {
      assert (a + b)[0] == a[0] && (a + b)[1..] == a[1..] + b;
      var next := Served(codec, root, a[0], now);
      if next.Ok? {
        WalkInTwoParts(codec, next.value, a[1..], b, now);
      }
    }
  }

  /** An anchor is a sound root that a threshold of its own root keys signed. */
  lemma AnchorIsSound(codec: Codec, served: Bytes, now: int)
    requires Anchor(codec, served, now).Some?
    ensures Sound(Anchor(codec, served, now).value)
    ensures Threshold(codec, Anchor(codec, served, now).value.keys, Anchor(codec, served, now).value.root, codec.envelope(served).value)
  {
  }
}
