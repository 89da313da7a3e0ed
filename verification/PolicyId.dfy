/**
 The name a policy goes by (internal/authz/policy.go): a digest of its roles and bindings, every part of them written with
 its length in front.  What is written can be read back, so two policies that differ anywhere are never written alike.
 */
module PolicyId {
  import opened Wrappers
  import opened Octets

  datatype Role = Role(name: string, description: string, permissions: seq<string>)
  datatype Binding = Binding(subject: string, roles: seq<string>, tenants: seq<string>)
  datatype Policy = Policy(roles: map<string, Role>, bindings: map<string, Binding>)

  // ---- Compiling ----

  predicate Compilable(roles: seq<Role>, bindings: seq<Binding>) {
    && (forall i :: 0 <= i < |roles| ==> roles[i].name != "")
    && (forall i, j :: 0 <= i < j < |roles| ==> roles[i].name != roles[j].name)
    && bindings != []
    && (forall i :: 0 <= i < |bindings| ==> bindings[i].subject != "" && Declared(bindings[i], roles))
    && forall i, j :: 0 <= i < j < |bindings| ==> bindings[i].subject != bindings[j].subject
  }

  predicate Names(roles: seq<Role>, name: string) {
    exists j :: 0 <= j < |roles| && roles[j].name == name
  }

  predicate Declared(binding: Binding, roles: seq<Role>) {
    forall i :: 0 <= i < |binding.roles| ==> Names(roles, binding.roles[i])
  }

  /** A compiled policy files every role and binding under its own name, and binds nobody to a role it does not declare. */
  predicate Compiled(policy: Policy) {
    && (forall name :: name in policy.roles ==> policy.roles[name].name == name)
    && (forall subject :: subject in policy.bindings ==> policy.bindings[subject].subject == subject)
    && forall subject :: subject in policy.bindings ==>
         forall i :: 0 <= i < |policy.bindings[subject].roles| ==> policy.bindings[subject].roles[i] in policy.roles
  }

  method CompileRoles(roles: seq<Role>) returns (byName: Option<map<string, Role>>)
    ensures byName.Some? <==> (forall i :: 0 <= i < |roles| ==> roles[i].name != "") && forall i, j :: 0 <= i < j < |roles| ==> roles[i].name != roles[j].name
    ensures byName.Some? ==> (forall i :: 0 <= i < |roles| ==> roles[i].name in byName.value && byName.value[roles[i].name] == roles[i])
                             && forall name :: name in byName.value ==> Names(roles, name)
  {
    var held: map<string, Role> := map[];
    for i := 0 to |roles|
      invariant forall j :: 0 <= j < i ==> roles[j].name != "" && roles[j].name in held && held[roles[j].name] == roles[j]
      invariant forall j, k :: 0 <= j < k < i ==> roles[j].name != roles[k].name
      invariant forall name :: name in held ==> exists j :: 0 <= j < i && roles[j].name == name
    {
      if roles[i].name == "" || roles[i].name in held {
        return None;
      }
      held := held[roles[i].name := roles[i]];
    }
    return Some(held);
  }

  method CompileBindings(bindings: seq<Binding>, roles: seq<Role>, byName: map<string, Role>) returns (bySubject: Option<map<string, Binding>>)
    requires forall name :: name in byName <==> Names(roles, name)
    ensures bySubject.Some? <==>
      && (forall i :: 0 <= i < |bindings| ==> bindings[i].subject != "" && Declared(bindings[i], roles))
      && forall i, j :: 0 <= i < j < |bindings| ==> bindings[i].subject != bindings[j].subject
    ensures bySubject.Some? ==> (forall i :: 0 <= i < |bindings| ==> bindings[i].subject in bySubject.value && bySubject.value[bindings[i].subject] == bindings[i])
                                && forall subject :: subject in bySubject.value ==> exists i :: 0 <= i < |bindings| && bindings[i].subject == subject
  {
    var held: map<string, Binding> := map[];
    for i := 0 to |bindings|
      invariant forall j :: 0 <= j < i ==> bindings[j].subject != "" && bindings[j].subject in held && held[bindings[j].subject] == bindings[j] && Declared(bindings[j], roles)
      invariant forall j, k :: 0 <= j < k < i ==> bindings[j].subject != bindings[k].subject
      invariant forall subject :: subject in held ==> exists j :: 0 <= j < i && bindings[j].subject == subject
    {
      if bindings[i].subject == "" || bindings[i].subject in held {
        return None;
      }
      for j := 0 to |bindings[i].roles|
        invariant forall k :: 0 <= k < j ==> bindings[i].roles[k] in byName
      {
        if bindings[i].roles[j] !in byName {
          return None;
        }
      }
      assert Declared(bindings[i], roles);
      held := held[bindings[i].subject := bindings[i]];
    }
    return Some(held);
  }

  /** A policy holds exactly the roles and bindings it was compiled from, each under its own name. */
  method Compile(roles: seq<Role>, bindings: seq<Binding>) returns (r: Option<Policy>)
    ensures r.Some? <==> Compilable(roles, bindings)
    ensures r.Some? ==>
      && Compiled(r.value)
      && (forall i :: 0 <= i < |roles| ==> roles[i].name in r.value.roles && r.value.roles[roles[i].name] == roles[i])
      && (forall i :: 0 <= i < |bindings| ==> bindings[i].subject in r.value.bindings && r.value.bindings[bindings[i].subject] == bindings[i])
      && (forall name :: name in r.value.roles ==> Names(roles, name))
      && (forall subject :: subject in r.value.bindings ==> exists i :: 0 <= i < |bindings| && bindings[i].subject == subject)
  {
    var byName := CompileRoles(roles);
    if byName.None? {
      return None;
    }
    forall name
      ensures name in byName.value <==> Names(roles, name)
    {
    }
    var bySubject := CompileBindings(bindings, roles, byName.value);
    if bySubject.None? || bindings == [] {
      return None;
    }
    var policy := Policy(byName.value, bySubject.value);
    forall subject | subject in policy.bindings
      ensures policy.bindings[subject].subject == subject
      ensures forall i :: 0 <= i < |policy.bindings[subject].roles| ==> policy.bindings[subject].roles[i] in policy.roles
    {
      var i :| 0 <= i < |bindings| && bindings[i].subject == subject;
      assert Declared(bindings[i], roles);
    }
    return Some(policy);
  }

  // ---- What is written ----

  function Tagged(tag: string, items: seq<string>): seq<string> {
    if items == [] then [] else [tag, items[0]] + Tagged(tag, items[1..])
  }

  function RoleParts(role: Role): seq<string> {
    ["role", role.name, role.description] + Tagged("permission", role.permissions)
  }

  function BindingParts(binding: Binding): seq<string> {
    ["binding", binding.subject] + Tagged("holds", binding.roles) + Tagged("within", binding.tenants)
  }

  function RolesParts(roles: seq<Role>): seq<string> {
    if roles == [] then [] else RoleParts(roles[0]) + RolesParts(roles[1..])
  }

  function BindingsParts(bindings: seq<Binding>): seq<string> {
    if bindings == [] then [] else BindingParts(bindings[0]) + BindingsParts(bindings[1..])
  }

  function Framed(parts: seq<string>): Bytes {
    if parts == [] then "" else BigEndian(|parts[0]|, 8) + parts[0] + Framed(parts[1..])
  }

  /** An order of a policy's names lists each of them, and nothing else. */
  predicate Lists(order: seq<string>, names: set<string>) {
    (set name | name in order) == names
  }

  function RolesIn(policy: Policy, order: seq<string>): seq<Role>
    requires Lists(order, policy.roles.Keys)
  {
    seq(|order|, i requires 0 <= i < |order| => assert order[i] in policy.roles.Keys; policy.roles[order[i]])
  }

  function BindingsIn(policy: Policy, order: seq<string>): seq<Binding>
    requires Lists(order, policy.bindings.Keys)
  {
    seq(|order|, i requires 0 <= i < |order| => assert order[i] in policy.bindings.Keys; policy.bindings[order[i]])
  }

  function Preimage(policy: Policy, names: seq<string>, subjects: seq<string>): Bytes
    requires Lists(names, policy.roles.Keys) && Lists(subjects, policy.bindings.Keys)
  {
    Framed(RolesParts(RolesIn(policy, names)) + BindingsParts(BindingsIn(policy, subjects)))
  }

  // ---- What is read back ----

  function Unframed(bytes: Bytes): Option<seq<string>>
    decreases |bytes|
  {
    if bytes == "" then Some([])
    else if |bytes| < 8 || 8 + Number(bytes[..8]) > |bytes| then None
    else
      var end := 8 + Number(bytes[..8]);
      var rest := Unframed(bytes[end..]);
      if rest.None? then None else Some([bytes[8..end]] + rest.value)
  }

  function TakeTagged(parts: seq<string>, tag: string): (r: (seq<string>, seq<string>))
    ensures |r.1| <= |parts|
  {
    if |parts| >= 2 && parts[0] == tag then
      var (items, rest) := TakeTagged(parts[2..], tag);
      ([parts[1]] + items, rest)
    else ([], parts)
  }

  function TakeRoles(parts: seq<string>): (r: (seq<Role>, seq<string>))
    decreases |parts|
  {
    if |parts| >= 3 && parts[0] == "role" then
      var (permissions, rest) := TakeTagged(parts[3..], "permission");
      var (roles, others) := TakeRoles(rest);
      ([Role(parts[1], parts[2], permissions)] + roles, others)
    else ([], parts)
  }

  function TakeBindings(parts: seq<string>): (r: (seq<Binding>, seq<string>))
    decreases |parts|
  {
    if |parts| >= 2 && parts[0] == "binding" then
      var (held, afterHeld) := TakeTagged(parts[2..], "holds");
      var (within, rest) := TakeTagged(afterHeld, "within");
      var (bindings, others) := TakeBindings(rest);
      ([Binding(parts[1], held, within)] + bindings, others)
    else ([], parts)
  }

  /** No part is longer than its length can say. */
  predicate Sized(parts: seq<string>) {
    forall i :: 0 <= i < |parts| ==> |parts[i]| < WORD
  }

  lemma UnframedOne(part: string, rest: Bytes, items: seq<string>)
    requires Sized([part]) && Unframed(rest) == Some(items)
    ensures Unframed(BigEndian(|part|, 8) + part + rest) == Some([part] + items)
  {
    var bytes := BigEndian(|part|, 8) + part + rest;
    assert |[part][0]| == |part|;
    WordReads(|part|);
    assert bytes[..8] == BigEndian(|part|, 8);
    assert bytes[8..8 + |part|] == part && bytes[8 + |part|..] == rest;
  }

  lemma {:induction false} UnframedReads(parts: seq<string>)
    requires Sized(parts)
    ensures Unframed(Framed(parts)) == Some(parts)
    decreases |parts|
  {
    if parts != [] {
      UnframedReads(parts[1..]);
      assert Sized([parts[0]]);
      UnframedOne(parts[0], Framed(parts[1..]), parts[1..]);
      assert [parts[0]] + parts[1..] == parts;
    }
  }

  /** What comes next does not look like another item. */
  predicate Other(rest: seq<string>, tag: string) {
    rest == [] || rest[0] != tag
  }

  lemma TakeOneTagged(tag: string, item: string, more: seq<string>)
    ensures TakeTagged([tag, item] + more, tag) == ([item] + TakeTagged(more, tag).0, TakeTagged(more, tag).1)
  {
    assert ([tag, item] + more)[2..] == more;
  }

  lemma {:induction false} TaggedReads(tag: string, items: seq<string>, rest: seq<string>)
    requires Other(rest, tag)
    ensures TakeTagged(Tagged(tag, items) + rest, tag) == (items, rest)
    decreases |items|
  {
    if items == [] {
      assert Tagged(tag, items) + rest == rest;
    } else {
      var more := Tagged(tag, items[1..]) + rest;
      TaggedReads(tag, items[1..], rest);
      TakeOneTagged(tag, items[0], more);
      assert Tagged(tag, items) + rest == [tag, items[0]] + more;
      assert [items[0]] + items[1..] == items;
    }
  }

  lemma RolePartsStart(roles: seq<Role>, rest: seq<string>, tag: string)
    requires Other(rest, tag) && tag != "role"
    ensures Other(RolesParts(roles) + rest, tag)
  {
    if roles != [] {
      assert (RolesParts(roles) + rest)[0] == "role";
    } else {
      assert RolesParts(roles) + rest == rest;
    }
  }

  lemma OneRoleReads(role: Role, after: seq<string>)
    requires Other(after, "permission")
    ensures TakeRoles(RoleParts(role) + after) == ([role] + TakeRoles(after).0, TakeRoles(after).1)
  {
    var tagged := Tagged("permission", role.permissions);
    TaggedReads("permission", role.permissions, after);
    ThreeThen("role", role.name, role.description, tagged, after);
  }

  lemma ThreeThen(a: string, b: string, c: string, d: seq<string>, e: seq<string>)
    ensures var parts := [a, b, c] + d + e;
      |parts| >= 3 && parts[0] == a && parts[1] == b && parts[2] == c && parts[3..] == d + e
  {
  }

  lemma {:induction false} RolesRead(roles: seq<Role>, rest: seq<string>)
    requires Other(rest, "role") && Other(rest, "permission")
    ensures TakeRoles(RolesParts(roles) + rest) == (roles, rest)
    decreases |roles|
  {
    if roles == [] {
      assert RolesParts(roles) + rest == rest;
    } else {
      var after := RolesParts(roles[1..]) + rest;
      RolePartsStart(roles[1..], rest, "permission");
      OneRoleReads(roles[0], after);
      RolesRead(roles[1..], rest);
      Regroup(RoleParts(roles[0]), RolesParts(roles[1..]), rest);
      assert [roles[0]] + roles[1..] == roles;
    }
  }

  lemma Regroup(a: seq<string>, b: seq<string>, c: seq<string>)
    ensures a + b + c == a + (b + c)
  {
  }

  lemma BindingPartsStart(bindings: seq<Binding>, tag: string)
    requires tag != "binding"
    ensures Other(BindingsParts(bindings), tag)
  {
    if bindings != [] {
      assert BindingsParts(bindings)[0] == "binding";
    }
  }

  lemma OneBindingReads(binding: Binding, after: seq<string>)
    requires Other(after, "holds") && Other(after, "within")
    ensures TakeBindings(BindingParts(binding) + after) == ([binding] + TakeBindings(after).0, TakeBindings(after).1)
  {
    var held, within := Tagged("holds", binding.roles), Tagged("within", binding.tenants);
    TaggedReads("within", binding.tenants, after);
    WithinStarts(binding.tenants, after);
    TaggedReads("holds", binding.roles, within + after);
    TwoThen("binding", binding.subject, held, within, after);
  }

  lemma WithinStarts(tenants: seq<string>, after: seq<string>)
    requires Other(after, "holds")
    ensures Other(Tagged("within", tenants) + after, "holds")
  {
    if tenants != [] {
      assert (Tagged("within", tenants) + after)[0] == "within";
    } else {
      assert Tagged("within", tenants) + after == after;
    }
  }

  lemma TwoThen(a: string, b: string, c: seq<string>, d: seq<string>, e: seq<string>)
    ensures var parts := [a, b] + c + d + e;
      |parts| >= 2 && parts[0] == a && parts[1] == b && parts[2..] == c + (d + e)
  {
  }

  lemma {:induction false} BindingsRead(bindings: seq<Binding>)
    ensures TakeBindings(BindingsParts(bindings)) == (bindings, [])
    decreases |bindings|
  {
    if bindings != [] {
      BindingPartsStart(bindings[1..], "within");
      BindingPartsStart(bindings[1..], "holds");
      OneBindingReads(bindings[0], BindingsParts(bindings[1..]));
      BindingsRead(bindings[1..]);
      assert [bindings[0]] + bindings[1..] == bindings;
    }
  }

  /** The roles and bindings written can be read back from the bytes. */
  lemma PreimageReads(roles: seq<Role>, bindings: seq<Binding>)
    requires Sized(RolesParts(roles) + BindingsParts(bindings))
    ensures var parts := Unframed(Framed(RolesParts(roles) + BindingsParts(bindings)));
      parts.Some? && TakeRoles(parts.value) == (roles, BindingsParts(bindings)) && TakeBindings(BindingsParts(bindings)) == (bindings, [])
  {
    UnframedReads(RolesParts(roles) + BindingsParts(bindings));
    BindingPartsStart(bindings, "role");
    BindingPartsStart(bindings, "permission");
    RolesRead(roles, BindingsParts(bindings));
    BindingsRead(bindings);
  }

  predicate Writable(policy: Policy, names: seq<string>, subjects: seq<string>) {
    && Compiled(policy) && Lists(names, policy.roles.Keys) && Lists(subjects, policy.bindings.Keys)
    && Sized(RolesParts(RolesIn(policy, names)) + BindingsParts(BindingsIn(policy, subjects)))
  }

  /** Two policies written alike, in whatever order each was written, are one policy. */
  lemma PreimageIsInjective(a: Policy, namesA: seq<string>, subjectsA: seq<string>, b: Policy, namesB: seq<string>, subjectsB: seq<string>)
    requires Writable(a, namesA, subjectsA) && Writable(b, namesB, subjectsB)
    requires Preimage(a, namesA, subjectsA) == Preimage(b, namesB, subjectsB)
    ensures a == b
  {
    PreimageReads(RolesIn(a, namesA), BindingsIn(a, subjectsA));
    PreimageReads(RolesIn(b, namesB), BindingsIn(b, subjectsB));
    RolesDecide(a, namesA, b, namesB);
    BindingsDecide(a, subjectsA, b, subjectsB);
  }

  lemma RolesDecide(a: Policy, namesA: seq<string>, b: Policy, namesB: seq<string>)
    requires Compiled(a) && Compiled(b) && Lists(namesA, a.roles.Keys) && Lists(namesB, b.roles.Keys)
    requires RolesIn(a, namesA) == RolesIn(b, namesB)
    ensures a.roles == b.roles
  {
    SameNames(a, namesA, b, namesB);
    forall name | name in a.roles.Keys
      ensures a.roles[name] == b.roles[name]
    {
      assert name in set n | n in namesA;
      var i :| 0 <= i < |namesA| && namesA[i] == name;
      assert RolesIn(a, namesA)[i] == RolesIn(b, namesB)[i];
    }
  }

  lemma SameNames(a: Policy, namesA: seq<string>, b: Policy, namesB: seq<string>)
    requires Compiled(a) && Compiled(b) && Lists(namesA, a.roles.Keys) && Lists(namesB, b.roles.Keys)
    requires RolesIn(a, namesA) == RolesIn(b, namesB)
    ensures namesA == namesB && a.roles.Keys == b.roles.Keys
  {
    assert |namesA| == |RolesIn(a, namesA)| == |namesB|;
    forall i | 0 <= i < |namesA|
      ensures namesA[i] == namesB[i]
    {
      assert namesA[i] in a.roles.Keys && namesB[i] in b.roles.Keys;
      assert RolesIn(a, namesA)[i].name == namesA[i] && RolesIn(b, namesB)[i].name == namesB[i];
    }
  }

  lemma BindingsDecide(a: Policy, subjectsA: seq<string>, b: Policy, subjectsB: seq<string>)
    requires Compiled(a) && Compiled(b) && Lists(subjectsA, a.bindings.Keys) && Lists(subjectsB, b.bindings.Keys)
    requires BindingsIn(a, subjectsA) == BindingsIn(b, subjectsB)
    ensures a.bindings == b.bindings
  {
    SameSubjects(a, subjectsA, b, subjectsB);
    forall subject | subject in a.bindings.Keys
      ensures a.bindings[subject] == b.bindings[subject]
    {
      assert subject in set n | n in subjectsA;
      var i :| 0 <= i < |subjectsA| && subjectsA[i] == subject;
      assert BindingsIn(a, subjectsA)[i] == BindingsIn(b, subjectsB)[i];
    }
  }

  lemma SameSubjects(a: Policy, subjectsA: seq<string>, b: Policy, subjectsB: seq<string>)
    requires Compiled(a) && Compiled(b) && Lists(subjectsA, a.bindings.Keys) && Lists(subjectsB, b.bindings.Keys)
    requires BindingsIn(a, subjectsA) == BindingsIn(b, subjectsB)
    ensures subjectsA == subjectsB && a.bindings.Keys == b.bindings.Keys
  {
    assert |subjectsA| == |BindingsIn(a, subjectsA)| == |subjectsB|;
    forall i | 0 <= i < |subjectsA|
      ensures subjectsA[i] == subjectsB[i]
    {
      assert subjectsA[i] in a.bindings.Keys && subjectsB[i] in b.bindings.Keys;
      assert BindingsIn(a, subjectsA)[i].subject == subjectsA[i] && BindingsIn(b, subjectsB)[i].subject == subjectsB[i];
    }
  }
}
