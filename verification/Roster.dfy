/**
 What a gateway keeps of the registry (internal/agent/roster.go), and how it reads the log the registry's decisions
 are carried by (cmd/ingest-gateway/roster.go).  Records come in any order and any number of times: what the roster
 holds is the decision of the highest revision, or a refusal where that revision was decided two ways.
 */
module Roster {
  import opened Wrappers
  import opened Identifiers

  datatype State = Pending | Active | Disabled | Revoked | Decommissioned

  predicate Final(state: State) {
    state == Revoked || state == Decommissioned
  }

  predicate Admits(state: State) {
    state == Pending || state == Active
  }

  /** What the log says was decided about an agent; a state this build does not know is no state. */
  datatype Admission = Admission(agent: string, tenant: string, state: Option<State>, revision: nat)

  datatype Decided = Decided(admits: bool, tenant: string, revision: nat)

  type Known = map<string, Decided>

  datatype Error = Malformed | Conflict | Unattributable | Unreadable

  const MAX_TENANT_LENGTH := 64

  predicate ValidTenant(tenant: string) {
    |tenant| <= MAX_TENANT_LENGTH && ValidIdentifier(tenant)
  }

  predicate Valid(record: Admission) {
    record.agent != "" && record.state.Some? && ValidTenant(record.tenant)
  }

  function DecisionOf(record: Admission): Decided
    requires Valid(record)
  {
    Decided(Admits(record.state.value), record.tenant, record.revision)
  }

  /** What is held of an agent whose revision was decided two ways. */
  function Undecided(revision: nat): Decided {
    Decided(false, "", revision)
  }

  predicate Clashes(known: Known, record: Admission)
    requires Valid(record)
  {
    && record.agent in known && record.revision == known[record.agent].revision
    && (known[record.agent].admits != Admits(record.state.value) || known[record.agent].tenant != record.tenant)
  }

  function Applied(known: Known, record: Admission): Known {
    if !Valid(record) then known
    else if record.agent in known && record.revision < known[record.agent].revision then known
    else if Clashes(known, record) then known[record.agent := Undecided(record.revision)]
    else known[record.agent := DecisionOf(record)]
  }

  function Refused(known: Known, agent: string): Known {
    if agent == "" then known
    else known[agent := if agent in known then known[agent].(admits := false) else Decided(false, "", 0)]
  }

  /** The tenant an agent's telemetry is admitted into. */
  function TenantOf(known: Known, agent: string): Option<string> {
    if agent in known && known[agent].admits then Some(known[agent].tenant) else None
  }

  /** A record of the log: its key, and what its value was read as, if it could be read. */
  datatype Record = Record(key: string, value: Option<Admission>)

  /** Whether a record was applied under the name it is keyed by. */
  function Outcome(known: Known, record: Record): Result<(), Error> {
    if record.value.None? then Err(Unreadable)
    else if record.value.value.agent != record.key then Err(Unattributable)
    else if !Valid(record.value.value) then Err(Malformed)
    else if Clashes(known, record.value.value) then Err(Conflict)
    else Ok(())
  }

  /** The roster after one record: applied, and where that failed the agent it is keyed by is refused. */
  function Read(known: Known, record: Record): Known {
    var applied := if record.value.Some? && record.value.value.agent == record.key then Applied(known, record.value.value) else known;
    if Outcome(known, record).Ok? then applied else Refused(applied, record.key)
  }

  /** How many records are read before one that names no agent and could not be applied; all of them if there is none. */
  function ReadThrough(known: Known, records: seq<Record>): (n: nat)
    ensures n <= |records|
    decreases |records|
  {
    if records == [] || (records[0].key == "" && Outcome(known, records[0]).Err?) then 0
    else 1 + ReadThrough(Read(known, records[0]), records[1..])
  }

  function ReadAll(known: Known, records: seq<Record>): Known
    decreases |records|
  {
    if records == [] then known else ReadAll(Read(known, records[0]), records[1..])
  }

  class Roster {
    var known: Known

    constructor ()
      ensures known == map[]
    {
      known := map[];
    }

    method Apply(record: Admission) returns (r: Result<(), Error>)
      modifies this
      ensures known == Applied(old(known), record)
      ensures r.Ok? <==> Valid(record) && !Clashes(old(known), record)
      ensures r == Err(Conflict) <==> Valid(record) && Clashes(old(known), record)
    {
      if record.agent == "" || record.state.None? || !ValidTenant(record.tenant) {
        return Err(Malformed);
      }
      var admits := Admits(record.state.value);
      if record.agent in known {
        var held := known[record.agent];
        if record.revision < held.revision {
          return Ok(());
        } else if record.revision == held.revision && held.admits != admits {
          known := known[record.agent := Decided(false, "", held.revision)];
          return Err(Conflict);
        } else if record.revision == held.revision && held.tenant != record.tenant {
          known := known[record.agent := Decided(false, "", held.revision)];
          return Err(Conflict);
        }
      }
      known := known[record.agent := Decided(admits, record.tenant, record.revision)];
      return Ok(());
    }

    method Refuse(agent: string)
      modifies this
      ensures known == Refused(old(known), agent)
    {
      if agent == "" {
        return;
      }
      var held := if agent in known then known[agent] else Decided(false, "", 0);
      known := known[agent := held.(admits := false)];
    }

    method Tenant(agent: string) returns (tenant: Option<string>)
      ensures tenant == TenantOf(known, agent)
    {
      if agent !in known || !known[agent].admits {
        return None;
      }
      return Some(known[agent].tenant);
    }
  }

  /** The gateway's reading of one record. */
  method ReadOne(held: Roster, record: Record) returns (r: Result<(), Error>)
    modifies held
    ensures r.Ok? <==> Outcome(old(held.known), record).Ok?
    ensures held.known == if record.value.Some? && record.value.value.agent == record.key then Applied(old(held.known), record.value.value) else old(held.known)
  {
    if record.value.None? {
      return Err(Unreadable);
    }
    if record.value.value.agent != record.key {
      return Err(Unattributable);
    }
    r := held.Apply(record.value.value);
  }

  /** The gateway's reading of a batch: it ends at a record that names no agent and could not be applied. */
  method Deliver(held: Roster, records: seq<Record>) returns (r: Result<(), Error>)
    modifies held
    ensures r.Ok? <==> ReadThrough(old(held.known), records) == |records|
    ensures held.known == ReadAll(old(held.known), records[..ReadThrough(old(held.known), records)])
  {
    ghost var start := held.known;
    for i := 0 to |records|
      invariant ReadAll(start, records[..i]) == held.known
      invariant ReadThrough(start, records) == i + ReadThrough(held.known, records[i..])
    {
      ReadAllThen(start, records[..i], records[i]);
      assert records[..i] + [records[i]] == records[..i + 1];
      ReadThroughNext(held.known, records, i);
      ghost var before := held.known;
      var one := ReadOne(held, records[i]);
      if one.Err? {
        if records[i].key == "" {
          assert held.known == before;
          return Err(one.error);
        }
        held.Refuse(records[i].key);
      }
    }
    assert records[..|records|] == records;
    r := Ok(());
  }

  lemma ReadThroughNext(known: Known, records: seq<Record>, i: nat)
    requires i < |records|
    ensures ReadThrough(known, records[i..])
         == if records[i].key == "" && Outcome(known, records[i]).Err? then 0 else 1 + ReadThrough(Read(known, records[i]), records[i + 1..])
  {
    assert records[i..][1..] == records[i + 1..] && records[i..][0] == records[i];
  }

  lemma {:induction false} ReadAllThen(known: Known, records: seq<Record>, next: Record)
    ensures ReadAll(known, records + [next]) == Read(ReadAll(known, records), next)
    decreases |records|
  {
    if records == [] {
      assert [] + [next] == [next] && [next][1..] == [];
    } else {
      ReadAllThen(Read(known, records[0]), records[1..], next);
      assert (records + [next])[1..] == records[1..] + [next];
    }
  }

  // ---- Refused until decided again ----

  /** A record that could put an agent back: one keyed by it, readable, well formed, and of a higher revision. */
  predicate Supersedes(record: Record, agent: string, revision: nat) {
    && record.key == agent && record.value.Some? && record.value.value.agent == agent
    && Valid(record.value.value) && record.value.value.revision > revision
  }

  /** However a refusal came about, it stands, at its revision, until a strictly higher revision is read. */
  lemma {:induction false} RefusedUntilHigher(known: Known, records: seq<Record>, agent: string)
    requires agent in known && !known[agent].admits
    requires forall i :: 0 <= i < |records| ==> !Supersedes(records[i], agent, known[agent].revision)
    ensures agent in ReadAll(known, records) && !ReadAll(known, records)[agent].admits
    ensures ReadAll(known, records)[agent].revision == known[agent].revision
    ensures TenantOf(ReadAll(known, records), agent) == None
    decreases |records|
  {
    if records != [] {
      assert !Supersedes(records[0], agent, known[agent].revision);
      RefusedUntilHigher(Read(known, records[0]), records[1..], agent);
    }
  }

  // ---- Order and repetition ----

  function Folded(known: Known, records: seq<Admission>): Known
    decreases |records|
  {
    if records == [] then known else Applied(Folded(known, records[..|records| - 1]), records[|records| - 1])
  }

  predicate AllValid(records: seq<Admission>) {
    forall i :: 0 <= i < |records| ==> Valid(records[i])
  }

  predicate Names(records: seq<Admission>, agent: string) {
    exists i :: 0 <= i < |records| && records[i].agent == agent
  }

  /** Every record of an agent's revision decides this. */
  predicate Agreed(records: seq<Admission>, agent: string, d: Decided)
    requires AllValid(records)
  {
    forall i :: 0 <= i < |records| && records[i].agent == agent && records[i].revision == d.revision ==> DecisionOf(records[i]) == d
  }

  /** Two records of an agent's revision decide differently. */
  predicate TwoWays(records: seq<Admission>, agent: string, revision: nat)
    requires AllValid(records)
  {
    exists i, j :: 0 <= i < |records| && 0 <= j < |records| && Differ(records[i], records[j], agent, revision)
  }

  predicate Differ(a: Admission, b: Admission, agent: string, revision: nat)
    requires Valid(a) && Valid(b)
  {
    a.agent == agent && b.agent == agent && a.revision == revision && b.revision == revision && DecisionOf(a) != DecisionOf(b)
  }

  /** The decision of the highest revision, or a refusal where that revision was decided two ways. */
  ghost predicate Verdict(records: seq<Admission>, agent: string, d: Decided)
    requires AllValid(records)
  {
    && (exists i :: 0 <= i < |records| && records[i].agent == agent && records[i].revision == d.revision)
    && (forall i :: 0 <= i < |records| && records[i].agent == agent ==> records[i].revision <= d.revision)
    && (Agreed(records, agent, d)
        || (d == Undecided(d.revision) && TwoWays(records, agent, d.revision)))
  }

  lemma VerdictStep(records: seq<Admission>, next: Admission, known: Known, agent: string)
    requires AllValid(records) && Valid(next) && next.agent == agent
    requires agent in known <==> Names(records, agent)
    requires agent in known ==> Verdict(records, agent, known[agent])
    ensures Verdict(records + [next], agent, Applied(known, next)[agent])
  {
    var all := records + [next];
    assert forall i :: 0 <= i < |records| ==> all[i] == records[i];
    assert all[|records|] == next;
    if agent in known {
      var d := known[agent];
      var at :| 0 <= at < |records| && records[at].agent == agent && records[at].revision == d.revision;
      assert all[at] == records[at];
      if next.revision == d.revision && Clashes(known, next) {
        if Agreed(records, agent, d) {
          assert Differ(all[at], all[|records|], agent, d.revision);
        } else {
          TwoWaysStill(records, next, agent, d.revision);
        }
      } else if next.revision <= d.revision && !Agreed(records, agent, d) {
        TwoWaysStill(records, next, agent, d.revision);
      }
    }
  }

  lemma TwoWaysStill(records: seq<Admission>, next: Admission, agent: string, revision: nat)
    requires AllValid(records) && Valid(next) && TwoWays(records, agent, revision)
    ensures TwoWays(records + [next], agent, revision)
  {
    var i, j :| 0 <= i < |records| && 0 <= j < |records| && Differ(records[i], records[j], agent, revision);
    var all := records + [next];
    assert Differ(all[i], all[j], agent, revision);
  }

  lemma VerdictOther(records: seq<Admission>, next: Admission, agent: string, d: Decided)
    requires AllValid(records) && Valid(next) && next.agent != agent && Verdict(records, agent, d)
    ensures Verdict(records + [next], agent, d)
  {
    var all := records + [next];
    assert forall i :: 0 <= i < |records| ==> all[i] == records[i];
    if !Agreed(records, agent, d) {
      TwoWaysStill(records, next, agent, d.revision);
    }
  }

  lemma NamesThen(records: seq<Admission>, next: Admission, agent: string)
    ensures Names(records + [next], agent) <==> Names(records, agent) || next.agent == agent
  {
    var all := records + [next];
    assert all[|records|] == next && forall i :: 0 <= i < |records| ==> all[i] == records[i];
    if Names(records, agent) {
      var i :| 0 <= i < |records| && records[i].agent == agent;
      assert all[i].agent == agent;
    }
  }

  /** What folding records gives is the verdict on them, of exactly the agents they name. */
  lemma {:induction false} FoldIsVerdict(records: seq<Admission>, agent: string)
    requires AllValid(records)
    ensures agent in Folded(map[], records) <==> Names(records, agent)
    ensures agent in Folded(map[], records) ==> Verdict(records, agent, Folded(map[], records)[agent])
    decreases |records|
  {
    if records != [] {
      var before, next := records[..|records| - 1], records[|records| - 1];
      assert before + [next] == records;
      FoldIsVerdict(before, agent);
      NamesThen(before, next, agent);
      var known := Folded(map[], before);
      if next.agent == agent {
        VerdictStep(before, next, known, agent);
      } else if agent in known {
        VerdictOther(before, next, agent, known[agent]);
      }
    }
  }

  function SetOf(records: seq<Admission>): set<Admission> {
    set r | r in records
  }

  lemma VerdictIsOne(a: seq<Admission>, b: seq<Admission>, agent: string, d: Decided, e: Decided)
    requires AllValid(a) && AllValid(b) && SetOf(a) == SetOf(b) && Verdict(a, agent, d) && Verdict(b, agent, e)
    ensures d == e
  {
    Carried(a, b);
    Carried(b, a);
    var i :| 0 <= i < |a| && a[i].agent == agent && a[i].revision == d.revision;
    var j :| 0 <= j < |b| && b[j].agent == agent && b[j].revision == e.revision;
    assert a[i] in b && b[j] in a;
    var k :| 0 <= k < |b| && b[k] == a[i];
    var l :| 0 <= l < |a| && a[l] == b[j];
    assert d.revision == e.revision;
    if Agreed(a, agent, d) {
      NotTwoWays(a, b, agent, d);
      assert Agreed(b, agent, e);
    } else if Agreed(b, agent, e) {
      NotTwoWays(b, a, agent, e);
    }
  }

  lemma Carried(a: seq<Admission>, b: seq<Admission>)
    requires SetOf(a) == SetOf(b)
    ensures forall i :: 0 <= i < |a| ==> a[i] in b
  {
    forall i | 0 <= i < |a|
      ensures a[i] in b
    {
      assert a[i] in SetOf(a);
    }
  }

  lemma NotTwoWays(a: seq<Admission>, b: seq<Admission>, agent: string, d: Decided)
    requires AllValid(a) && AllValid(b) && SetOf(a) == SetOf(b) && Agreed(a, agent, d)
    ensures !TwoWays(b, agent, d.revision)
  {
    Carried(b, a);
    forall i, j | 0 <= i < |b| && 0 <= j < |b|
      ensures !Differ(b[i], b[j], agent, d.revision)
    {
      var k :| 0 <= k < |a| && a[k] == b[i];
      var l :| 0 <= l < |a| && a[l] == b[j];
    }
  }

  /** Folding records depends on which they are, and on neither their order nor how often each came. */
  lemma FoldIsOrderFree(a: seq<Admission>, b: seq<Admission>)
    requires AllValid(a) && AllValid(b) && SetOf(a) == SetOf(b)
    ensures Folded(map[], a) == Folded(map[], b)
  {
    var x, y := Folded(map[], a), Folded(map[], b);
    Carried(a, b);
    Carried(b, a);
    forall agent
      ensures agent in x <==> agent in y
      ensures agent in x && agent in y ==> x[agent] == y[agent]
    {
      FoldIsVerdict(a, agent);
      FoldIsVerdict(b, agent);
      if agent in x && agent in y {
        VerdictIsOne(a, b, agent, x[agent], y[agent]);
      }
    }
  }

  // ---- The gateway's reading is the fold ----

  function Keyed(records: seq<Admission>): seq<Record> {
    seq(|records|, i requires 0 <= i < |records| => Record(records[i].agent, Some(records[i])))
  }

  /** A conflict the gateway met leaves what the fold leaves: refusing again changes nothing. */
  lemma {:induction false} ReadingIsFolding(records: seq<Admission>)
    requires AllValid(records)
    ensures ReadAll(map[], Keyed(records)) == Folded(map[], records)
    decreases |records|
  {
    if records != [] {
      var before, next := records[..|records| - 1], records[|records| - 1];
      ReadingIsFolding(before);
      ReadAllThen(map[], Keyed(before), Record(next.agent, Some(next)));
      assert Keyed(records) == Keyed(before) + [Record(next.agent, Some(next))];
      var known := Folded(map[], before);
      if Clashes(known, next) {
        var applied := Applied(known, next);
        assert Refused(applied, next.agent) == applied;
      }
    }
  }

  /** What a gateway holds after reading well-formed records does not depend on their order or repetition. */
  lemma ReadingIsOrderFree(a: seq<Admission>, b: seq<Admission>)
    requires AllValid(a) && AllValid(b) && SetOf(a) == SetOf(b)
    ensures ReadAll(map[], Keyed(a)) == ReadAll(map[], Keyed(b))
  {
    ReadingIsFolding(a);
    ReadingIsFolding(b);
    FoldIsOrderFree(a, b);
  }
}
