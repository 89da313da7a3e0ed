/**
 The agent registry and the log its decisions are carried to the gateways by (internal/agent/move.go, state.go,
 register.go, internal/control/admissions.go).

 A decision is recorded first and published after, by whoever recorded it or by a sweep of what is outstanding, so
 records reach the log late, out of order and more than once.  The log is compacted, which keeps its offsets and the last
 record of each agent.  A gateway reads what the log holds from the start and follows it.
 */
module Registry {
  import opened Wrappers
  import opened Roster

  datatype Identity = Identity(fingerprint: string, bindable: bool)

  /** The state a move names: none, one of the registry's, or one it does not know. */
  datatype Target = Nowhere | To(state: State) | Unheard

  /** What a renewal asked with. */
  datatype Asked = Asked(presented: string, request: string)

  datatype Move = Move(
    target: Target, identity: Option<Identity>, note: string, actor: string,
    presented: string, request: string, bound: Asked, renewal: bool, expected: nat)

  datatype Agent = Agent(id: string, tenant: string, state: State, revision: nat, fingerprint: string)

  /** A line of the agent's trail. */
  datatype Transition = Transition(id: string, revision: nat, from: State, to: State, actor: string, note: string)

  datatype Refusal = NoActor | Moved | TooLong | UnknownState | NothingAsked | MalformedIdentity | IllegalMove | CertificateReplaced | NeedsReason

  const MAX_NOTE_LENGTH := 512

  function Reachable(from: State): set<State> {
    match from
    case Pending => {Disabled, Revoked, Decommissioned}
    case Active => {Disabled, Revoked, Decommissioned}
    case Disabled => {Active, Revoked, Decommissioned}
    case Revoked => {}
    case Decommissioned => {}
  }

  predicate AsksAgain(move: Move) {
    move.request != "" && move.request == move.bound.request && move.presented == move.bound.presented
  }

  predicate Changing(from: State, move: Move) {
    move.target.To? && move.target.state != from
  }

  function Refuses(current: Agent, move: Move): Option<Refusal> {
    var from, binding, changing := current.state, move.identity.Some?, Changing(current.state, move) || move.target.Unheard?;
    if move.actor == "" then Some(NoActor)
    else if move.expected != 0 && move.expected != current.revision then Some(Moved)
    else if |move.note| > MAX_NOTE_LENGTH then Some(TooLong)
    else if move.target.Unheard? then Some(UnknownState)
    else if !changing && !binding then Some(NothingAsked)
    else if binding && Final(from) then Some(MalformedIdentity)
    else if binding && move.renewal && !Admits(from) then Some(IllegalMove)
    else if binding && move.renewal && move.presented != current.fingerprint && !AsksAgain(move) then Some(CertificateReplaced)
    else if changing && move.target.state !in Reachable(from) then Some(IllegalMove)
    else if changing && move.note == "" then Some(NeedsReason)
    else if binding && !move.identity.value.bindable then Some(MalformedIdentity)
    else None
  }

  /** What a move must be to be taken, whichever of it is looked at first. */
  predicate Acceptable(current: Agent, move: Move) {
    && move.actor != "" && (move.expected == 0 || move.expected == current.revision) && |move.note| <= MAX_NOTE_LENGTH
    && !move.target.Unheard? && (Changing(current.state, move) || move.identity.Some?)
    && (Changing(current.state, move) ==> move.target.state in Reachable(current.state) && move.note != "")
    && (move.identity.Some? ==> !Final(current.state) && move.identity.value.bindable)
    && (move.identity.Some? && move.renewal ==>
          Admits(current.state) && (move.presented == current.fingerprint || AsksAgain(move)))
  }

  /**
   A move is decided by the agent as it is.  An agent at an ending takes no move; any other move it takes counts the
   revision up by one, keeps its name and tenant, and goes only where the state machine leads, or from pending to active
   by being given an identity.
   */
  function Apply(current: Agent, move: Move): (r: Result<(Agent, Transition), Refusal>)
    ensures r.Ok? ==>
      var (moved, line) := r.value;
      && !Final(current.state)
      && moved.revision == current.revision + 1 && moved.id == current.id && moved.tenant == current.tenant
      && (moved.state == current.state || moved.state in Reachable(current.state)
          || (current.state == Pending && moved.state == Active && move.identity.Some?))
      && (move.expected == 0 || move.expected == current.revision)
      && line == Transition(current.id, moved.revision, current.state, moved.state, move.actor, move.note)
      && (moved.state != current.state && move.target == To(moved.state) ==> move.note != "")
      && (Final(moved.state) ==> move.target == To(moved.state))
      && moved.fingerprint == (if move.identity.Some? then move.identity.value.fingerprint else current.fingerprint)
      && (current.state == Pending && move.identity.Some? ==> moved.state != Pending)
    ensures Final(current.state) ==> r.Err?
    ensures r.Ok? <==> Acceptable(current, move)
  {
    var refused := Refuses(current, move);
    if refused.Some? then Err(refused.value)
    else
      var bound := if move.identity.None? then current
                   else current.(fingerprint := move.identity.value.fingerprint,
                                 state := if current.state == Pending then Active else current.state);
      var moved := bound.(revision := current.revision + 1,
                          state := if Changing(current.state, move) then move.target.state else bound.state);
      Ok((moved, Transition(current.id, moved.revision, current.state, moved.state, move.actor, move.note)))
  }

  function AdmissionOf(agent: Agent): Admission {
    Admission(agent.id, agent.tenant, Some(agent.state), agent.revision)
  }

  // ---- Every run ----

  /** What a gateway has read: how far, which records, and what its roster holds of them. */
  datatype Gateway = Gateway(read: nat, gotten: seq<Admission>, known: Known)

  /**
   `trail` is every decision recorded about an agent, `published` the revision its row says was announced, `log` all that
   was published, by offset, and `kept` the offsets the topic still holds.
   */
  datatype World = World(
    agents: map<string, Agent>, trail: map<string, seq<Admission>>, published: map<string, nat>,
    log: seq<Admission>, kept: set<nat>, gateway: Gateway)

  datatype Action =
    | Register(id: string, tenant: string)
    | Decide(id: string, move: Move)
    | Publish(id: string, revision: nat)
    | Announce(id: string, revision: nat)
    | Compact(keep: set<nat>)
    | Follow
    | Restart

  function Initial(): World {
    World(map[], map[], map[], [], {}, Gateway(0, [], map[]))
  }

  predicate Carries(log: seq<Admission>, id: string, revision: nat) {
    exists i :: 0 <= i < |log| && log[i].agent == id && log[i].revision == revision
  }

  /** The records at the places kept, in their order. */
  function Pick(log: seq<Admission>, keep: set<nat>): (picked: seq<Admission>)
    ensures forall r :: r in picked ==> r in log
    decreases |log|
  {
    if log == [] then []
    else
      var last := |log| - 1;
      Pick(log[..last], keep) + (if last in keep then [log[last]] else [])
  }

  predicate LastOf(log: seq<Admission>, i: nat) {
    i < |log| && forall j :: i < j < |log| ==> log[j].agent != log[i].agent
  }

  /** Compaction may drop any record but the last of each agent. */
  predicate Compacts(log: seq<Admission>, keep: set<nat>) {
    forall i {:trigger LastOf(log, i)} :: 0 <= i < |log| && LastOf(log, i) ==> i in keep
  }

  /** The last record of each agent carries its highest revision. */
  ghost predicate LastIsNewest(log: seq<Admission>) {
    forall i: nat, j: nat :: LastOf(log, i) && j < |log| && log[j].agent == log[i].agent ==> log[j].revision <= log[i].revision
  }

  /** The next offset, and the record there if the topic still holds it. */
  function Followed(log: seq<Admission>, kept: set<nat>, g: Gateway): Gateway {
    if g.read >= |log| then g
    else if g.read in kept then Gateway(g.read + 1, g.gotten + [log[g.read]], Applied(g.known, log[g.read]))
    else g.(read := g.read + 1)
  }

  /** A gateway started again serves once it has read all that the topic holds. */
  function Restarted(log: seq<Admission>, kept: set<nat>): Gateway {
    Gateway(|log|, Pick(log, kept), Folded(map[], Pick(log, kept)))
  }

  /** An action the world does not allow changes nothing: a refused move, a publication of nothing, a crash. */
  function Step(w: World, action: Action): World {
    match action
    case Register(id, tenant) =>
      if id == "" || !ValidTenant(tenant) || id in w.agents then w
      else
        var registered := Agent(id, tenant, Pending, 1, "");
        w.(agents := w.agents[id := registered], trail := w.trail[id := [AdmissionOf(registered)]], published := w.published[id := 0])
    case Decide(id, move) =>
      if id !in w.agents || id !in w.trail || Apply(w.agents[id], move).Err? then w
      else
        var moved := Apply(w.agents[id], move).value.0;
        w.(agents := w.agents[id := moved], trail := w.trail[id := w.trail[id] + [AdmissionOf(moved)]])
    case Publish(id, revision) =>
      if id !in w.trail || !(1 <= revision <= |w.trail[id]|) then w
      else w.(log := w.log + [w.trail[id][revision - 1]], kept := w.kept + {|w.log|})
    case Announce(id, revision) =>
      if id !in w.published || w.published[id] >= revision || !Carries(w.log, id, revision) then w
      else w.(published := w.published[id := revision])
    case Compact(keep) => if Compacts(w.log, keep) then w.(kept := w.kept * keep) else w
    case Follow => w.(gateway := Followed(w.log, w.kept, w.gateway))
    case Restart => w.(gateway := Restarted(w.log, w.kept))
  }

  function Run(w: World, actions: seq<Action>): World
    decreases |actions|
  {
    if actions == [] then w else Run(Step(w, actions[0]), actions[1..])
  }

  // ---- What every step keeps ----

  /** The trail of an agent: one decision a revision, of its one tenant, the last of them where it is, and none after an ending. */
  predicate TrailOf(agent: Agent, trail: seq<Admission>) {
    && agent.id != "" && ValidTenant(agent.tenant)
    && |trail| == agent.revision && trail != [] && trail[|trail| - 1] == AdmissionOf(agent)
    && (forall i :: 0 <= i < |trail| ==> trail[i].agent == agent.id && trail[i].tenant == agent.tenant && trail[i].revision == i + 1 && trail[i].state.Some?)
    && forall i :: 0 <= i < |trail| - 1 ==> !Final(trail[i].state.value)
  }

  predicate Trails(agents: map<string, Agent>, trail: map<string, seq<Admission>>, published: map<string, nat>) {
    && trail.Keys == agents.Keys && published.Keys == agents.Keys
    && forall id {:trigger TrailOf(agents[id], trail[id])} :: id in agents ==> agents[id].id == id && TrailOf(agents[id], trail[id])
  }

  predicate Recorded(w: World) {
    Trails(w.agents, w.trail, w.published)
  }

  predicate IsDecision(trail: map<string, seq<Admission>>, record: Admission) {
    && Valid(record) && record.agent in trail && 1 <= record.revision <= |trail[record.agent]|
    && trail[record.agent][record.revision - 1] == record
  }

  predicate AllDecisions(trail: map<string, seq<Admission>>, records: seq<Admission>) {
    forall i {:trigger IsDecision(trail, records[i])} :: 0 <= i < |records| ==> IsDecision(trail, records[i])
  }

  /** The log carries only what was recorded. */
  predicate Logged(w: World) {
    AllDecisions(w.trail, w.log)
  }

  predicate AllCarried(published: map<string, nat>, log: seq<Admission>) {
    forall id :: id in published && published[id] > 0 ==> Carries(log, id, published[id])
  }

  predicate Announced(w: World) {
    AllCarried(w.published, w.log)
  }

  /** What a gateway read: its roster is the fold of it, it came from the log, and no agent's last record was passed by. */
  ghost predicate ReadingOf(log: seq<Admission>, g: Gateway) {
    g.read <= |log| && g.known == Folded(map[], g.gotten) && From(log, g.gotten) && Passed(log, g.read, g.gotten)
  }

  predicate From(log: seq<Admission>, gotten: seq<Admission>) {
    forall k :: 0 <= k < |gotten| ==> gotten[k] in log
  }

  predicate Passed(log: seq<Admission>, read: nat, gotten: seq<Admission>)
    requires read <= |log|
  {
    forall i {:trigger LastOf(log, i)} :: 0 <= i < read && LastOf(log, i) ==> log[i] in gotten
  }

  ghost predicate Inv(w: World) {
    Recorded(w) && Logged(w) && Announced(w) && Compacts(w.log, w.kept) && ReadingOf(w.log, w.gateway)
  }

  /** What the log carries stays recorded while trails only grow. */
  lemma LoggedStill(trail: map<string, seq<Admission>>, grown: map<string, seq<Admission>>, log: seq<Admission>)
    requires AllDecisions(trail, log)
    requires forall id :: id in trail ==> id in grown && trail[id] <= grown[id]
    ensures AllDecisions(grown, log)
  {
    forall i | 0 <= i < |log|
      ensures IsDecision(grown, log[i])
    {
      assert IsDecision(trail, log[i]);
    }
  }

  lemma TrailsWith(agents: map<string, Agent>, trail: map<string, seq<Admission>>, published: map<string, nat>, agent: Agent, line: seq<Admission>, n: nat)
    requires Trails(agents, trail, published) && TrailOf(agent, line)
    ensures Trails(agents[agent.id := agent], trail[agent.id := line], published[agent.id := n])
  {
  }

  lemma ApplyMoves(current: Agent, move: Move)
    requires Apply(current, move).Ok?
    ensures var moved := Apply(current, move).value.0;
      !Final(current.state) && moved.id == current.id && moved.tenant == current.tenant && moved.revision == current.revision + 1
  {
  }

  lemma DecideKeeps(w: World, id: string, move: Move)
    requires Inv(w)
    ensures Inv(Step(w, Decide(id, move)))
  {
    if id !in w.agents || id !in w.trail || Apply(w.agents[id], move).Err? {
      assert Step(w, Decide(id, move)) == w;
    } else {
      var moved := Apply(w.agents[id], move).value.0;
      ApplyMoves(w.agents[id], move);
      AgentFacts(w, id);
      DecidedKeeps(w, id, moved);
      assert Step(w, Decide(id, move)) == w.(agents := w.agents[id := moved], trail := w.trail[id := w.trail[id] + [AdmissionOf(moved)]]);
    }
  }

  lemma DecidedKeeps(w: World, id: string, moved: Agent)
    requires Inv(w) && id in w.agents && !Final(w.agents[id].state)
    requires moved.id == id && moved.tenant == w.agents[id].tenant && moved.revision == w.agents[id].revision + 1
    ensures Inv(w.(agents := w.agents[id := moved], trail := w.trail[id := w.trail[id] + [AdmissionOf(moved)]]))
  {
    var trail := w.trail[id := w.trail[id] + [AdmissionOf(moved)]];
    assert TrailOf(w.agents[id], w.trail[id]);
    TrailGrows(w.agents[id], w.trail[id], moved);
    TrailsWith(w.agents, w.trail, w.published, moved, trail[id], w.published[id]);
    assert w.published[id := w.published[id]] == w.published;
    LoggedStill(w.trail, trail, w.log);
  }

  lemma TrailGrows(agent: Agent, trail: seq<Admission>, moved: Agent)
    requires TrailOf(agent, trail) && !Final(agent.state)
    requires moved.id == agent.id && moved.tenant == agent.tenant && moved.revision == agent.revision + 1
    ensures TrailOf(moved, trail + [AdmissionOf(moved)])
  {
    var grown := trail + [AdmissionOf(moved)];
    assert trail[|trail| - 1].state.value == agent.state;
    forall i | 0 <= i < |grown| - 1
      ensures !Final(grown[i].state.value)
    {
      assert grown[i] == trail[i];
    }
  }

  lemma RegisterKeeps(w: World, id: string, tenant: string)
    requires Inv(w)
    ensures Inv(Step(w, Register(id, tenant)))
  {
    if id != "" && ValidTenant(tenant) && id !in w.agents {
      var registered := Agent(id, tenant, Pending, 1, "");
      var trail := w.trail[id := [AdmissionOf(registered)]];
      assert TrailOf(registered, trail[id]);
      TrailsWith(w.agents, w.trail, w.published, registered, trail[id], 0);
      LoggedStill(w.trail, trail, w.log);
      assert AllCarried(w.published[id := 0], w.log);
      assert Step(w, Register(id, tenant)) == w.(agents := w.agents[id := registered], trail := trail, published := w.published[id := 0]);
    }
  }

  lemma CarriesStill(log: seq<Admission>, record: Admission, id: string, revision: nat)
    requires Carries(log, id, revision)
    ensures Carries(log + [record], id, revision)
  {
    var i :| 0 <= i < |log| && log[i].agent == id && log[i].revision == revision;
    assert (log + [record])[i] == log[i];
  }

  lemma LoggedThen(trail: map<string, seq<Admission>>, log: seq<Admission>, record: Admission)
    requires AllDecisions(trail, log) && IsDecision(trail, record)
    ensures AllDecisions(trail, log + [record])
  {
  }

  lemma AllCarriedThen(published: map<string, nat>, log: seq<Admission>, record: Admission)
    requires AllCarried(published, log)
    ensures AllCarried(published, log + [record])
  {
    forall id | id in published && published[id] > 0
      ensures Carries(log + [record], id, published[id])
    {
      CarriesStill(log, record, id, published[id]);
    }
  }

  lemma LastBefore(log: seq<Admission>, record: Admission, i: nat)
    requires i < |log| && LastOf(log + [record], i)
    ensures LastOf(log, i)
  {
    assert forall j :: i < j < |log| ==> (log + [record])[j] == log[j];
  }

  lemma PassedThen(log: seq<Admission>, read: nat, gotten: seq<Admission>, record: Admission)
    requires read <= |log| && Passed(log, read, gotten)
    ensures Passed(log + [record], read, gotten)
  {
    var all := log + [record];
    forall i | 0 <= i < read && LastOf(all, i)
      ensures all[i] in gotten
    {
      LastBefore(log, record, i);
    }
  }

  lemma FromThen(log: seq<Admission>, gotten: seq<Admission>, record: Admission)
    requires From(log, gotten)
    ensures From(log + [record], gotten)
  {
  }

  lemma ReadingThen(log: seq<Admission>, g: Gateway, record: Admission)
    requires ReadingOf(log, g)
    ensures ReadingOf(log + [record], g)
  {
    PassedThen(log, g.read, g.gotten, record);
    FromThen(log, g.gotten, record);
  }

  lemma CompactsThen(log: seq<Admission>, kept: set<nat>, record: Admission)
    requires Compacts(log, kept)
    ensures Compacts(log + [record], kept + {|log|})
  {
    var all := log + [record];
    forall i | 0 <= i < |all| && LastOf(all, i)
      ensures i in kept + {|log|}
    {
      if i < |log| {
        LastBefore(log, record, i);
      }
    }
  }

  lemma LineIsDecisions(agent: Agent, trail: map<string, seq<Admission>>, revision: nat)
    requires agent.id in trail && TrailOf(agent, trail[agent.id]) && 1 <= revision <= |trail[agent.id]|
    ensures IsDecision(trail, trail[agent.id][revision - 1])
  {
  }

  lemma PublishKeeps(w: World, id: string, revision: nat)
    requires Inv(w)
    ensures Inv(Step(w, Publish(id, revision)))
  {
    if id in w.trail && 1 <= revision <= |w.trail[id]| {
      AgentFacts(w, id);
      LineIsDecisions(w.agents[id], w.trail, revision);
      PublishedKeeps(w, w.trail[id][revision - 1]);
    }
  }

  /** What the registry recorded of one agent. */
  lemma AgentFacts(w: World, id: string)
    requires Recorded(w) && (id in w.agents || id in w.trail || id in w.published)
    ensures id in w.agents && id in w.trail && id in w.published && w.agents[id].id == id && TrailOf(w.agents[id], w.trail[id])
  {
    assert id in w.agents.Keys;
    assert TrailOf(w.agents[id], w.trail[id]);
  }

  lemma PublishedKeeps(w: World, record: Admission)
    requires Inv(w) && IsDecision(w.trail, record)
    ensures Inv(w.(log := w.log + [record], kept := w.kept + {|w.log|}))
  {
    LoggedThen(w.trail, w.log, record);
    AllCarriedThen(w.published, w.log, record);
    CompactsThen(w.log, w.kept, record);
    ReadingThen(w.log, w.gateway, record);
  }

  lemma FoldThen(records: seq<Admission>, next: Admission)
    ensures Folded(map[], records + [next]) == Applied(Folded(map[], records), next)
  {
    assert (records + [next])[..|records|] == records;
  }

  lemma FromOneMore(log: seq<Admission>, gotten: seq<Admission>, i: nat)
    requires From(log, gotten) && i < |log|
    ensures From(log, gotten + [log[i]])
  {
  }

  lemma PassedOneMore(log: seq<Admission>, read: nat, gotten: seq<Admission>)
    requires read < |log| && Passed(log, read, gotten)
    ensures Passed(log, read + 1, gotten + [log[read]])
    ensures !LastOf(log, read) ==> Passed(log, read + 1, gotten)
  {
    var more := gotten + [log[read]];
    assert more[|gotten|] == log[read];
    forall i | 0 <= i < read && LastOf(log, i)
      ensures log[i] in more
    {
      assert log[i] in gotten;
    }
  }

  lemma FollowKeeps(log: seq<Admission>, kept: set<nat>, g: Gateway)
    requires Compacts(log, kept) && ReadingOf(log, g)
    ensures ReadingOf(log, Followed(log, kept, g))
  {
    if g.read < |log| {
      PassedOneMore(log, g.read, g.gotten);
      if g.read in kept {
        FoldThen(g.gotten, log[g.read]);
        FromOneMore(log, g.gotten, g.read);
      } else {
        assert !LastOf(log, g.read);
      }
    }
  }

  lemma RestartReads(log: seq<Admission>, kept: set<nat>)
    requires Compacts(log, kept)
    ensures ReadingOf(log, Restarted(log, kept))
  {
    var picked := Pick(log, kept);
    forall i | 0 <= i < |log| && LastOf(log, i)
      ensures log[i] in picked
    {
      PickKeeps(log, kept, i);
    }
    forall k | 0 <= k < |picked|
      ensures picked[k] in log
    {
      assert picked[k] in picked;
    }
  }

  lemma AnnounceKeeps(w: World, id: string, revision: nat)
    requires Inv(w)
    ensures Inv(Step(w, Announce(id, revision)))
  {
    var next := Step(w, Announce(id, revision));
    if next != w {
      var published := w.published[id := revision];
      assert next == w.(published := published);
      assert AllCarried(published, w.log);
      AgentFacts(w, id);
      TrailsWith(w.agents, w.trail, w.published, w.agents[id], w.trail[id], revision);
      assert w.agents[id := w.agents[id]] == w.agents && w.trail[id := w.trail[id]] == w.trail;
    }
  }

  lemma CompactKeeps(w: World, keep: set<nat>)
    requires Inv(w)
    ensures Inv(Step(w, Compact(keep)))
  {
    if Compacts(w.log, keep) {
      assert Compacts(w.log, w.kept * keep);
      assert Step(w, Compact(keep)) == w.(kept := w.kept * keep);
    }
  }

  lemma StepKeeps(w: World, action: Action)
    requires Inv(w)
    ensures Inv(Step(w, action))
  {
    match action
    case Register(id, tenant) => RegisterKeeps(w, id, tenant);
    case Decide(id, move) => DecideKeeps(w, id, move);
    case Publish(id, revision) => PublishKeeps(w, id, revision);
    case Announce(id, revision) => AnnounceKeeps(w, id, revision);
    case Compact(keep) => CompactKeeps(w, keep);
    case Follow => FollowKeeps(w.log, w.kept, w.gateway);
    case Restart => RestartReads(w.log, w.kept);
  }

  lemma {:induction false} RunKeeps(w: World, actions: seq<Action>)
    requires Inv(w)
    ensures Inv(Run(w, actions))
    decreases |actions|
  {
    if actions != [] {
      StepKeeps(w, actions[0]);
      RunKeeps(Step(w, actions[0]), actions[1..]);
    }
  }

  // ---- What the gateway holds ----

  lemma FromAreDecisions(trail: map<string, seq<Admission>>, log: seq<Admission>, gotten: seq<Admission>)
    requires AllDecisions(trail, log) && From(log, gotten)
    ensures AllDecisions(trail, gotten) && AllValid(gotten)
  {
    forall i | 0 <= i < |gotten|
      ensures IsDecision(trail, gotten[i])
    {
      assert gotten[i] in log;
    }
  }

  lemma DecisionsAgree(trail: map<string, seq<Admission>>, records: seq<Admission>, id: string, revision: nat)
    requires AllValid(records) && AllDecisions(trail, records)
    ensures !TwoWays(records, id, revision)
  {
    forall i, j | 0 <= i < |records| && 0 <= j < |records|
      ensures !Differ(records[i], records[j], id, revision)
    {
      assert IsDecision(trail, records[i]) && IsDecision(trail, records[j]);
    }
  }

  lemma VerdictIsADecision(trail: map<string, seq<Admission>>, records: seq<Admission>, id: string, d: Decided)
    requires AllValid(records) && AllDecisions(trail, records) && Verdict(records, id, d)
    ensures Carries(records, id, d.revision)
    ensures id in trail && 1 <= d.revision <= |trail[id]| && IsDecision(trail, trail[id][d.revision - 1])
    ensures d == DecisionOf(trail[id][d.revision - 1])
  {
    DecisionsAgree(trail, records, id, d.revision);
    var i :| 0 <= i < |records| && records[i].agent == id && records[i].revision == d.revision;
    assert IsDecision(trail, records[i]) && DecisionOf(records[i]) == d;
  }

  lemma FoldIsADecision(trail: map<string, seq<Admission>>, records: seq<Admission>, id: string)
    requires AllValid(records) && AllDecisions(trail, records) && id in Folded(map[], records)
    ensures HeldAsDecided(trail, id, Folded(map[], records)[id])
  {
    FoldIsVerdict(records, id);
    VerdictIsADecision(trail, records, id, Folded(map[], records)[id]);
  }

  /** What is held of an agent is what its trail says was decided at that revision. */
  predicate HeldAsDecided(trail: map<string, seq<Admission>>, id: string, held: Decided) {
    && id in trail && 1 <= held.revision <= |trail[id]|
    && IsDecision(trail, trail[id][held.revision - 1]) && held == DecisionOf(trail[id][held.revision - 1])
  }

  lemma HoldsADecision(w: World, id: string)
    requires Logged(w) && ReadingOf(w.log, w.gateway) && id in w.gateway.known
    ensures HeldAsDecided(w.trail, id, w.gateway.known[id])
  {
    FromAreDecisions(w.trail, w.log, w.gateway.gotten);
    FoldIsADecision(w.trail, w.gateway.gotten, id);
  }

  /** What the registry decides about an agent now. */
  function Current(agent: Agent): Decided {
    Decided(Admits(agent.state), agent.tenant, agent.revision)
  }

  predicate Holds(w: World, id: string) {
    id in w.gateway.known && id in w.agents && w.gateway.known[id] == Current(w.agents[id])
  }

  /** No agent's revision is ahead of the one its row says was announced. */
  predicate NothingOutstanding(w: World) {
    forall id :: id in w.agents ==> id in w.published && w.published[id] >= w.agents[id].revision
  }

  /** In every run, no record of the log decides a revision a gateway holds otherwise, whatever compaction left it to read. */
  lemma NoConflict(actions: seq<Action>, i: nat)
    ensures var w := Run(Initial(), actions);
      i < |w.log| ==> Valid(w.log[i]) && !Clashes(w.gateway.known, w.log[i])
  {
    RunKeeps(Initial(), actions);
    var w := Run(Initial(), actions);
    if i < |w.log| {
      LoggedAgrees(w, i);
    }
  }

  lemma DecidedAlike(trail: map<string, seq<Admission>>, known: Known, record: Admission)
    requires IsDecision(trail, record) && (record.agent in known ==> HeldAsDecided(trail, record.agent, known[record.agent]))
    ensures !Clashes(known, record)
  {
  }

  lemma LoggedAgrees(w: World, i: nat)
    requires Inv(w) && i < |w.log|
    ensures Valid(w.log[i]) && !Clashes(w.gateway.known, w.log[i])
  {
    var record := w.log[i];
    assert IsDecision(w.trail, record);
    if record.agent in w.gateway.known {
      HoldsADecision(w, record.agent);
    }
    DecidedAlike(w.trail, w.gateway.known, record);
  }

  /** A record of this agent, of this revision or a higher one, is among these. */
  predicate Reaches(records: seq<Admission>, id: string, revision: nat) {
    exists i :: 0 <= i < |records| && records[i].agent == id && records[i].revision >= revision
  }

  predicate HeldUpTo(known: Known, id: string, revision: nat) {
    id in known && known[id].revision >= revision
  }

  /** A fold holds an agent up to a revision exactly when its records reach it. */
  lemma FoldHoldsIffReached(records: seq<Admission>, id: string, revision: nat)
    requires AllValid(records)
    ensures HeldUpTo(Folded(map[], records), id, revision) <==> Reaches(records, id, revision)
  {
    FoldIsVerdict(records, id);
    if id in Folded(map[], records) {
      var d := Folded(map[], records)[id];
      var at :| 0 <= at < |records| && records[at].agent == id && records[at].revision == d.revision;
    }
    if i :| 0 <= i < |records| && records[i].agent == id && records[i].revision >= revision {
      assert Names(records, id);
    }
  }

  lemma HoldsIffRead(w: World, id: string, revision: nat)
    requires Logged(w) && ReadingOf(w.log, w.gateway)
    ensures HeldUpTo(w.gateway.known, id, revision) <==> Reaches(w.gateway.gotten, id, revision)
  {
    FromAreDecisions(w.trail, w.log, w.gateway.gotten);
    FoldHoldsIffReached(w.gateway.gotten, id, revision);
  }

  /** Holding as high a revision of an agent as the registry decided is holding what it decides now. */
  lemma NewestDecision(agent: Agent, trail: map<string, seq<Admission>>, held: Decided)
    requires agent.id in trail && TrailOf(agent, trail[agent.id]) && HeldAsDecided(trail, agent.id, held) && held.revision >= agent.revision
    ensures held == Current(agent)
  {
    assert held.revision == agent.revision;
  }

  /** A gateway holds what the registry decides of an agent exactly when it read the agent's newest revision. */
  lemma HoldsIffNewestRead(w: World, id: string)
    requires Inv(w) && id in w.agents
    ensures Holds(w, id) <==> Reaches(w.gateway.gotten, id, w.agents[id].revision)
  {
    var revision := w.agents[id].revision;
    HoldsIffRead(w, id, revision);
    if HeldUpTo(w.gateway.known, id, revision) {
      AgentFacts(w, id);
      HoldsADecision(w, id);
      NewestDecision(w.agents[id], w.trail, w.gateway.known[id]);
    }
  }

  /** Where the last record of each agent is its newest, a gateway that read all the topic holds has read what the log reaches. */
  lemma LastIsRead(log: seq<Admission>, g: Gateway, id: string, revision: nat)
    requires ReadingOf(log, g) && g.read == |log| && LastIsNewest(log) && Reaches(log, id, revision)
    ensures Reaches(g.gotten, id, revision)
  {
    var at :| 0 <= at < |log| && log[at].agent == id && log[at].revision >= revision;
    assert Names(log, id);
    var i := LastExists(log, id);
    assert log[at].revision <= log[i].revision;
    assert log[i] in g.gotten;
    var k :| 0 <= k < |g.gotten| && g.gotten[k] == log[i];
  }

  /**
   In every run, a gateway holds what the registry decides of an agent exactly when it read the agent's newest revision;
   and it has, if it read all the topic holds of a log that carries it, where the last record published about each agent
   is its newest, whatever was compacted away.
   */
  lemma NewestIsHeld(actions: seq<Action>, id: string)
    ensures var w := Run(Initial(), actions);
      id in w.agents ==>
        && (Holds(w, id) <==> Reaches(w.gateway.gotten, id, w.agents[id].revision))
        && (Carries(w.log, id, w.agents[id].revision) && w.gateway.read == |w.log| && LastIsNewest(w.log) ==> Holds(w, id))
  {
    RunKeeps(Initial(), actions);
    var w := Run(Initial(), actions);
    if id in w.agents {
      HoldsIffNewestRead(w, id);
      if Carries(w.log, id, w.agents[id].revision) && w.gateway.read == |w.log| && LastIsNewest(w.log) {
        LastIsRead(w.log, w.gateway, id, w.agents[id].revision);
      }
    }
  }

  /** The roster holds exactly the registry's decisions about exactly its agents. */
  predicate RosterIsRegistry(w: World) {
    w.gateway.known.Keys == w.agents.Keys && forall id :: id in w.agents ==> Holds(w, id)
  }

  predicate NewestRead(w: World) {
    forall id :: id in w.agents ==> Reaches(w.gateway.gotten, id, w.agents[id].revision)
  }

  lemma KnownIsAnAgent(w: World, id: string)
    requires Inv(w) && id in w.gateway.known
    ensures id in w.agents
  {
    HoldsADecision(w, id);
    AgentFacts(w, id);
  }

  lemma RegistryIffNewestRead(w: World)
    requires Inv(w)
    ensures RosterIsRegistry(w) <==> NewestRead(w)
  {
    forall id | id in w.agents
      ensures Holds(w, id) <==> Reaches(w.gateway.gotten, id, w.agents[id].revision)
    {
      HoldsIffNewestRead(w, id);
    }
    forall id | id in w.gateway.known
      ensures id in w.agents
    {
      KnownIsAnAgent(w, id);
    }
  }

  /**
   In every run the roster is the registry exactly when what the gateway read carries every agent's newest revision; and
   it does when nothing is outstanding, all the topic holds is read and the last record of each agent is its newest.
   */
  lemma NothingOutstandingIsAgreed(actions: seq<Action>)
    ensures var w := Run(Initial(), actions);
      && (RosterIsRegistry(w) <==> NewestRead(w))
      && (w.gateway.read == |w.log| && NothingOutstanding(w) && LastIsNewest(w.log) ==> RosterIsRegistry(w))
  {
    RunKeeps(Initial(), actions);
    var w := Run(Initial(), actions);
    RegistryIffNewestRead(w);
    if w.gateway.read == |w.log| && NothingOutstanding(w) && LastIsNewest(w.log) {
      forall id | id in w.agents
        ensures Reaches(w.gateway.gotten, id, w.agents[id].revision)
      {
        AnnouncedIsCurrent(w, id);
        LastIsRead(w.log, w.gateway, id, w.agents[id].revision);
      }
    }
  }

  lemma AnnouncedIsCurrent(w: World, id: string)
    requires Recorded(w) && Announced(w) && id in w.agents && w.published[id] >= w.agents[id].revision
    ensures Reaches(w.log, id, w.agents[id].revision)
  {
    AgentFacts(w, id);
    assert Carries(w.log, id, w.published[id]);
  }

  // ---- What was read is gone back on only by a restart the topic does not tell ----

  /** The topic still holds this revision of an agent, or a higher one. */
  predicate TopicTells(log: seq<Admission>, kept: set<nat>, id: string, revision: nat) {
    exists i :: 0 <= i < |log| && i in kept && log[i].agent == id && log[i].revision >= revision
  }

  /** Wherever the gateway is started again, the topic tells of this revision of an agent, or of a higher one. */
  predicate ToldAtRestarts(w: World, actions: seq<Action>, id: string, revision: nat)
    decreases |actions|
  {
    actions != [] ==>
      && (actions[0].Restart? ==> TopicTells(w.log, w.kept, id, revision))
      && ToldAtRestarts(Step(w, actions[0]), actions[1..], id, revision)
  }

  /** At every moment of a run the gateway holds this revision of an agent, or a higher one. */
  predicate HeldThroughout(w: World, actions: seq<Action>, id: string, revision: nat)
    decreases |actions|
  {
    HeldUpTo(w.gateway.known, id, revision) && (actions != [] ==> HeldThroughout(Step(w, actions[0]), actions[1..], id, revision))
  }

  lemma PickReachesIffTold(log: seq<Admission>, kept: set<nat>, id: string, revision: nat)
    ensures Reaches(Pick(log, kept), id, revision) <==> TopicTells(log, kept, id, revision)
  {
    var picked := Pick(log, kept);
    if k :| 0 <= k < |picked| && picked[k].agent == id && picked[k].revision >= revision {
      var i := PickedIsAt(log, kept, picked[k]);
    }
    if i :| 0 <= i < |log| && i in kept && log[i].agent == id && log[i].revision >= revision {
      PickKeeps(log, kept, i);
      var k :| 0 <= k < |picked| && picked[k] == log[i];
    }
  }

  lemma RestartHolds(trail: map<string, seq<Admission>>, log: seq<Admission>, kept: set<nat>, id: string, revision: nat)
    requires AllDecisions(trail, log)
    ensures HeldUpTo(Restarted(log, kept).known, id, revision) <==> TopicTells(log, kept, id, revision)
  {
    PickedAreDecisions(trail, log, kept);
    FoldHoldsIffReached(Pick(log, kept), id, revision);
    PickReachesIffTold(log, kept, id, revision);
  }

  /** In every run, a gateway started again holds an agent up to a revision exactly when the topic tells of it. */
  lemma RestartHoldsIffTold(actions: seq<Action>, id: string, revision: nat)
    ensures var w := Run(Initial(), actions);
      HeldUpTo(Step(w, Restart).gateway.known, id, revision) <==> TopicTells(w.log, w.kept, id, revision)
  {
    RunKeeps(Initial(), actions);
    var w := Run(Initial(), actions);
    RestartHolds(w.trail, w.log, w.kept, id, revision);
  }

  lemma AppliedHolds(known: Known, record: Admission, id: string, revision: nat)
    requires HeldUpTo(known, id, revision)
    ensures HeldUpTo(Applied(known, record), id, revision)
  {
  }

  /** Whatever is published, in whatever order, only a restart can take back what is held. */
  lemma StepHolds(w: World, action: Action, id: string, revision: nat)
    requires Logged(w) && HeldUpTo(w.gateway.known, id, revision)
    ensures HeldUpTo(Step(w, action).gateway.known, id, revision) <==> (action.Restart? ==> TopicTells(w.log, w.kept, id, revision))
  {
    if action.Restart? {
      RestartHolds(w.trail, w.log, w.kept, id, revision);
    } else if action.Follow? {
      if w.gateway.read < |w.log| {
        AppliedHolds(w.gateway.known, w.log[w.gateway.read], id, revision);
      }
    } else {
      assert Step(w, action).gateway == w.gateway;
    }
  }

  lemma {:induction false} HeldIffTold(w: World, actions: seq<Action>, id: string, revision: nat)
    requires Inv(w) && HeldUpTo(w.gateway.known, id, revision)
    ensures HeldThroughout(w, actions, id, revision) <==> ToldAtRestarts(w, actions, id, revision)
    decreases |actions|
  {
    if actions != [] {
      var next := Step(w, actions[0]);
      StepKeeps(w, actions[0]);
      StepHolds(w, actions[0], id, revision);
      if HeldUpTo(next.gateway.known, id, revision) {
        HeldIffTold(next, actions[1..], id, revision);
      }
    }
  }

  lemma {:induction false} HeldToTheEnd(w: World, actions: seq<Action>, id: string, revision: nat)
    requires HeldThroughout(w, actions, id, revision)
    ensures HeldUpTo(Run(w, actions).gateway.known, id, revision)
    decreases |actions|
  {
    if actions != [] {
      HeldToTheEnd(Step(w, actions[0]), actions[1..], id, revision);
    }
  }

  /**
   In every run, with publications late, repeated and out of order, and with compactions and restarts, what a gateway
   holds of an agent is never gone back on exactly when, wherever it is started again, the topic tells of that revision or
   a later one.
   */
  lemma NeverGoesBack(before: seq<Action>, after: seq<Action>, id: string, revision: nat)
    requires HeldUpTo(Run(Initial(), before).gateway.known, id, revision)
    ensures var w := Run(Initial(), before);
      && (HeldThroughout(w, after, id, revision) <==> ToldAtRestarts(w, after, id, revision))
      && (ToldAtRestarts(w, after, id, revision) ==> HeldUpTo(Run(w, after).gateway.known, id, revision))
  {
    var w := Run(Initial(), before);
    RunKeeps(Initial(), before);
    HeldIffTold(w, after, id, revision);
    if HeldThroughout(w, after, id, revision) {
      HeldToTheEnd(w, after, id, revision);
    }
  }

  // ---- Where the topic always tells ----

  /** No record of the log follows a higher revision of its agent. */
  predicate Rising(log: seq<Admission>) {
    forall i, j :: 0 <= i < j < |log| && log[i].agent == log[j].agent ==> log[i].revision <= log[j].revision
  }

  predicate NoneHigher(log: seq<Admission>, id: string, revision: nat) {
    forall i :: 0 <= i < |log| && log[i].agent == id ==> log[i].revision <= revision
  }

  /** A run in which nothing is published after a higher revision of its agent, which whoever publishes can see in the log. */
  predicate Orderly(w: World, actions: seq<Action>)
    decreases |actions|
  {
    actions != [] ==>
      && (actions[0].Publish? ==> NoneHigher(w.log, actions[0].id, actions[0].revision))
      && Orderly(Step(w, actions[0]), actions[1..])
  }

  lemma RisesThen(log: seq<Admission>, record: Admission)
    requires Rising(log) && NoneHigher(log, record.agent, record.revision)
    ensures Rising(log + [record])
  {
  }

  lemma StepRises(w: World, action: Action)
    requires Recorded(w) && Rising(w.log) && (action.Publish? ==> NoneHigher(w.log, action.id, action.revision))
    ensures Rising(Step(w, action).log)
  {
    if action.Publish? && action.id in w.trail && 1 <= action.revision <= |w.trail[action.id]| {
      AgentFacts(w, action.id);
      RisesThen(w.log, w.trail[action.id][action.revision - 1]);
    }
  }

  lemma {:induction false} RunRises(w: World, actions: seq<Action>)
    requires Inv(w) && Rising(w.log) && Orderly(w, actions)
    ensures Rising(Run(w, actions).log)
    decreases |actions|
  {
    if actions != [] {
      StepKeeps(w, actions[0]);
      StepRises(w, actions[0]);
      RunRises(Step(w, actions[0]), actions[1..]);
    }
  }

  /** The last record of an agent is never compacted away, so a rising log goes on telling what it reached. */
  lemma RisingTells(log: seq<Admission>, kept: set<nat>, id: string, revision: nat)
    requires Rising(log) && Compacts(log, kept) && Reaches(log, id, revision)
    ensures TopicTells(log, kept, id, revision)
  {
    var at :| 0 <= at < |log| && log[at].agent == id && log[at].revision >= revision;
    assert Names(log, id);
    var last := LastExists(log, id);
    assert at <= last;
  }

  lemma StepReaches(w: World, action: Action, id: string, revision: nat)
    requires Reaches(w.log, id, revision)
    ensures Reaches(Step(w, action).log, id, revision)
  {
    var i :| 0 <= i < |w.log| && w.log[i].agent == id && w.log[i].revision >= revision;
    assert Step(w, action).log[i] == w.log[i];
  }

  lemma {:induction false} OrderlyTells(w: World, actions: seq<Action>, id: string, revision: nat)
    requires Inv(w) && Rising(w.log) && Orderly(w, actions) && Reaches(w.log, id, revision)
    ensures ToldAtRestarts(w, actions, id, revision)
    decreases |actions|
  {
    if actions != [] {
      RisingTells(w.log, w.kept, id, revision);
      StepKeeps(w, actions[0]);
      StepRises(w, actions[0]);
      StepReaches(w, actions[0], id, revision);
      OrderlyTells(Step(w, actions[0]), actions[1..], id, revision);
    }
  }

  lemma GottenIsLogged(log: seq<Admission>, gotten: seq<Admission>, id: string, revision: nat)
    requires From(log, gotten) && Reaches(gotten, id, revision)
    ensures Reaches(log, id, revision)
  {
    var i :| 0 <= i < |gotten| && gotten[i].agent == id && gotten[i].revision >= revision;
    assert gotten[i] in log;
  }

  /** In a run that publishes in order the topic tells at every restart of what a gateway holds, so nothing is gone back on. */
  lemma OrderlyIsTold(before: seq<Action>, after: seq<Action>, id: string, revision: nat)
    requires Orderly(Initial(), before) && Orderly(Run(Initial(), before), after)
    requires HeldUpTo(Run(Initial(), before).gateway.known, id, revision)
    ensures ToldAtRestarts(Run(Initial(), before), after, id, revision)
  {
    var w := Run(Initial(), before);
    RunKeeps(Initial(), before);
    RunRises(Initial(), before);
    HoldsIffRead(w, id, revision);
    GottenIsLogged(w.log, w.gateway.gotten, id, revision);
    OrderlyTells(w, after, id, revision);
  }

  /** Nor is anything in a run without a restart, whatever it publishes. */
  lemma {:induction false} NoRestartIsTold(w: World, actions: seq<Action>, id: string, revision: nat)
    requires forall i :: 0 <= i < |actions| ==> !actions[i].Restart?
    ensures ToldAtRestarts(w, actions, id, revision)
    decreases |actions|
  {
    if actions != [] {
      NoRestartIsTold(Step(w, actions[0]), actions[1..], id, revision);
    }
  }

  // ---- An ending is the end ----

  predicate Ends(record: Admission, id: string) {
    record.agent == id && record.state.Some? && Final(record.state.value)
  }

  /** The gateway has read that an agent came to an ending. */
  predicate ReadEnding(g: Gateway, id: string) {
    exists i :: 0 <= i < |g.gotten| && Ends(g.gotten[i], id)
  }

  /** The registry ended an agent at a revision. */
  predicate EndedAt(w: World, id: string, revision: nat) {
    id in w.agents && w.agents[id].revision == revision && Final(w.agents[id].state)
  }

  lemma EndingIsLast(agent: Agent, trail: map<string, seq<Admission>>, record: Admission)
    requires agent.id in trail && TrailOf(agent, trail[agent.id]) && IsDecision(trail, record) && Ends(record, agent.id)
    ensures agent.revision == record.revision && Final(agent.state)
  {
    assert trail[agent.id][record.revision - 1] == record;
  }

  lemma EndingIsNewest(w: World, record: Admission)
    requires Recorded(w) && IsDecision(w.trail, record) && Ends(record, record.agent)
    ensures EndedAt(w, record.agent, record.revision)
  {
    AgentFacts(w, record.agent);
    EndingIsLast(w.agents[record.agent], w.trail, record);
  }

  lemma EndedStays(w: World, action: Action, id: string, revision: nat)
    requires EndedAt(w, id, revision)
    ensures EndedAt(Step(w, action), id, revision)
  {
  }

  lemma {:induction false} EndedStaysOverRuns(w: World, actions: seq<Action>, id: string, revision: nat)
    requires EndedAt(w, id, revision)
    ensures EndedAt(Run(w, actions), id, revision)
    decreases |actions|
  {
    if actions != [] {
      EndedStays(w, actions[0], id, revision);
      EndedStaysOverRuns(Step(w, actions[0]), actions[1..], id, revision);
    }
  }

  lemma EndedIsRefused(w: World, id: string, revision: nat)
    requires Inv(w) && EndedAt(w, id, revision) && HeldUpTo(w.gateway.known, id, revision)
    ensures TenantOf(w.gateway.known, id) == None
  {
    HoldsADecision(w, id);
    AgentFacts(w, id);
    NewestDecision(w.agents[id], w.trail, w.gateway.known[id]);
  }

  lemma ReadEndingIsEnded(w: World, i: nat)
    requires Inv(w) && i < |w.gateway.gotten| && Ends(w.gateway.gotten[i], w.gateway.gotten[i].agent)
    ensures var record := w.gateway.gotten[i];
      EndedAt(w, record.agent, record.revision) && HeldUpTo(w.gateway.known, record.agent, record.revision)
  {
    var record := w.gateway.gotten[i];
    FromAreDecisions(w.trail, w.log, w.gateway.gotten);
    EndingIsNewest(w, record);
    HoldsIffRead(w, record.agent, record.revision);
  }

  /**
   In every run, with publications late, repeated and out of order, once the gateway has read that an agent ended nothing
   that happens after, compactions and restarts included, admits it again, if wherever the gateway is started again the
   topic still tells of the ending.
   */
  lemma NeverAdmittedAgain(before: seq<Action>, after: seq<Action>, id: string, revision: nat)
    requires ReadEnding(Run(Initial(), before).gateway, id) && EndedAt(Run(Initial(), before), id, revision)
    requires ToldAtRestarts(Run(Initial(), before), after, id, revision)
    ensures TenantOf(Run(Run(Initial(), before), after).gateway.known, id) == None
  {
    var w := Run(Initial(), before);
    RunKeeps(Initial(), before);
    var i :| 0 <= i < |w.gateway.gotten| && Ends(w.gateway.gotten[i], id);
    ReadEndingIsEnded(w, i);
    NeverGoesBack(before, after, id, revision);
    RunKeeps(w, after);
    EndedStaysOverRuns(w, after, id, revision);
    EndedIsRefused(Run(w, after), id, revision);
  }

  /** Nothing admits an agent again that a gateway read the ending of, in a run that publishes in order or one that never restarts. */
  lemma NeverAdmittedInOrder(before: seq<Action>, after: seq<Action>, id: string)
    requires ReadEnding(Run(Initial(), before).gateway, id)
    requires || (Orderly(Initial(), before) && Orderly(Run(Initial(), before), after))
             || forall i :: 0 <= i < |after| ==> !after[i].Restart?
    ensures TenantOf(Run(Run(Initial(), before), after).gateway.known, id) == None
  {
    var w := Run(Initial(), before);
    RunKeeps(Initial(), before);
    var i :| 0 <= i < |w.gateway.gotten| && Ends(w.gateway.gotten[i], id);
    var revision := w.gateway.gotten[i].revision;
    ReadEndingIsEnded(w, i);
    if forall i :: 0 <= i < |after| ==> !after[i].Restart? {
      NoRestartIsTold(w, after, id, revision);
    } else {
      OrderlyIsTold(before, after, id, revision);
    }
    NeverAdmittedAgain(before, after, id, revision);
  }

  // ---- Sweeping what is outstanding ----

  /** How carrying one record went: it reached the log and its row says so, only reached the log, or did neither. */
  datatype Carriage = Carried | Unrecorded | Unpublished

  function CarryActions(record: Admission, carriage: Carriage): seq<Action> {
    match carriage
    case Carried => [Publish(record.agent, record.revision), Announce(record.agent, record.revision)]
    case Unrecorded => [Publish(record.agent, record.revision)]
    case Unpublished => []
  }

  /** A sweep carries records in order and stops at the first it could not. */
  function SweepActions(outstanding: seq<Admission>, carriages: seq<Carriage>): seq<Action>
    requires |outstanding| == |carriages|
    decreases |outstanding|
  {
    if outstanding == [] then []
    else CarryActions(outstanding[0], carriages[0])
         + (if carriages[0] == Carried then SweepActions(outstanding[1..], carriages[1..]) else [])
  }

  lemma RunFirst(w: World, actions: seq<Action>, next: World)
    requires actions != [] && Step(w, actions[0]) == next
    ensures Run(w, actions) == Run(next, actions[1..])
  {
  }

  lemma {:induction false} RunThen(w: World, a: seq<Action>, b: seq<Action>)
    ensures Run(w, a + b) == Run(Run(w, a), b)
    decreases |a|
  {
    if a == [] {
      assert a + b == b;
    } else {
      var next := Step(w, a[0]);
      RunFirst(w, a, next);
      assert (a + b)[0] == a[0] && (a + b)[1..] == a[1..] + b;
      RunFirst(w, a + b, next);
      RunThen(next, a[1..], b);
    }
  }

  method Carry(w: World, record: Admission, carriage: Carriage) returns (after: World, failed: bool)
    ensures after == Run(w, CarryActions(record, carriage)) && (failed <==> carriage != Carried)
  {
    if carriage == Unpublished {
      return w, true;
    }
    var published := Step(w, Publish(record.agent, record.revision));
    assert Run(w, [Publish(record.agent, record.revision)]) == published;
    if carriage == Unrecorded {
      return published, true;
    }
    after, failed := Step(published, Announce(record.agent, record.revision)), false;
    ghost var actions := CarryActions(record, carriage);
    assert actions[1..] == [Announce(record.agent, record.revision)];
    assert Run(published, actions[1..]) == after;
  }

  /** The announcer's sweep; `left` is how many of the records it did not carry. */
  method Sweep(w: World, outstanding: seq<Admission>, carriages: seq<Carriage>) returns (after: World, left: nat)
    requires |outstanding| == |carriages|
    ensures after == Run(w, SweepActions(outstanding, carriages))
    ensures left == 0 <==> forall i :: 0 <= i < |carriages| ==> carriages[i] == Carried
  {
    after := w;
    for i := 0 to |outstanding|
      invariant forall j :: 0 <= j < i ==> carriages[j] == Carried
      invariant Run(w, SweepActions(outstanding, carriages)) == Run(after, SweepActions(outstanding[i..], carriages[i..]))
    {
      ghost var rest := if carriages[i] == Carried then SweepActions(outstanding[i + 1..], carriages[i + 1..]) else [];
      assert outstanding[i..][1..] == outstanding[i + 1..] && carriages[i..][1..] == carriages[i + 1..];
      assert SweepActions(outstanding[i..], carriages[i..]) == CarryActions(outstanding[i], carriages[i]) + rest;
      RunThen(after, CarryActions(outstanding[i], carriages[i]), rest);
      var failed;
      after, failed := Carry(after, outstanding[i], carriages[i]);
      if failed {
        return after, |outstanding| - i;
      }
    }
    left := 0;
  }

  /** A record of the registry as it stands. */
  predicate IsCurrent(w: World, record: Admission) {
    record.agent in w.agents && AdmissionOf(w.agents[record.agent]) == record
  }

  lemma RunTwo(w: World, a: Action, b: Action)
    ensures Run(w, [a, b]) == Step(Step(w, a), b)
  {
    assert [a, b][1..] == [b] && [b][1..] == [];
    assert Run(Step(w, a), [b]) == Step(Step(w, a), b);
  }

  lemma PublishCurrent(w: World, record: Admission)
    requires Inv(w) && IsCurrent(w, record)
    ensures Step(w, Publish(record.agent, record.revision)) == w.(log := w.log + [record], kept := w.kept + {|w.log|})
    ensures Carries(w.log + [record], record.agent, record.revision)
  {
    assert TrailOf(w.agents[record.agent], w.trail[record.agent]);
    assert (w.log + [record])[|w.log|] == record;
  }

  lemma AnnounceCounts(w: World, id: string, revision: nat)
    requires id in w.published && Carries(w.log, id, revision)
    ensures var after := Step(w, Announce(id, revision));
      && after.agents == w.agents && after.published.Keys == w.published.Keys && after.published[id] >= revision
      && forall other :: other in w.published ==> after.published[other] >= w.published[other]
  {
  }

  lemma CarryAnnounces(w: World, record: Admission)
    requires Inv(w) && IsCurrent(w, record)
    ensures var after := Run(w, CarryActions(record, Carried));
      && Inv(after) && after.agents == w.agents && after.published.Keys == w.published.Keys
      && after.published[record.agent] >= record.revision
      && forall other :: other in w.published ==> after.published[other] >= w.published[other]
  {
    var publish, announce := Publish(record.agent, record.revision), Announce(record.agent, record.revision);
    RunTwo(w, publish, announce);
    RunKeeps(w, CarryActions(record, Carried));
    PublishCurrent(w, record);
    AnnounceCounts(Step(w, publish), record.agent, record.revision);
  }

  predicate IsDue(w: World, id: string) {
    id in w.agents && id in w.published && w.published[id] < w.agents[id].revision
  }

  /** Everything outstanding is among these records. */
  predicate Covers(w: World, outstanding: seq<Admission>) {
    forall id :: id in w.agents && IsDue(w, id) ==> AdmissionOf(w.agents[id]) in outstanding
  }

  lemma CarryCovers(w: World, outstanding: seq<Admission>)
    requires Inv(w) && outstanding != [] && IsCurrent(w, outstanding[0]) && Covers(w, outstanding)
    ensures var after := Run(w, CarryActions(outstanding[0], Carried));
      Inv(after) && after.agents == w.agents && Covers(after, outstanding[1..])
  {
    var record, after := outstanding[0], Run(w, CarryActions(outstanding[0], Carried));
    CarryAnnounces(w, record);
    forall id | id in after.agents && IsDue(after, id)
      ensures AdmissionOf(after.agents[id]) in outstanding[1..]
    {
      AgentFacts(w, id);
      assert IsDue(w, id) && id != record.agent;
    }
  }

  predicate AllCurrent(agents: map<string, Agent>, records: seq<Admission>) {
    forall i :: 0 <= i < |records| ==> records[i].agent in agents && AdmissionOf(agents[records[i].agent]) == records[i]
  }

  predicate AllCarriedOn(carriages: seq<Carriage>) {
    forall i :: 0 <= i < |carriages| ==> carriages[i] == Carried
  }

  lemma SweepStep(w: World, outstanding: seq<Admission>, carriages: seq<Carriage>)
    requires |outstanding| == |carriages| && outstanding != [] && carriages[0] == Carried
    ensures Run(w, SweepActions(outstanding, carriages))
         == Run(Run(w, CarryActions(outstanding[0], Carried)), SweepActions(outstanding[1..], carriages[1..]))
  {
    RunThen(w, CarryActions(outstanding[0], Carried), SweepActions(outstanding[1..], carriages[1..]));
  }

  /** A sweep that carries everything that was outstanding leaves nothing outstanding. */
  lemma {:induction false} SweepSettles(w: World, outstanding: seq<Admission>, carriages: seq<Carriage>)
    requires Inv(w) && |outstanding| == |carriages| && Covers(w, outstanding)
    requires AllCurrent(w.agents, outstanding) && AllCarriedOn(carriages)
    ensures NothingOutstanding(Run(w, SweepActions(outstanding, carriages)))
    decreases |outstanding|
  {
    if outstanding == [] {
      assert Run(w, SweepActions(outstanding, carriages)) == w;
      NothingDue(w);
    } else {
      assert IsCurrent(w, outstanding[0]);
      CarryCovers(w, outstanding);
      SweepStep(w, outstanding, carriages);
      SweepRest(Run(w, CarryActions(outstanding[0], Carried)), outstanding, carriages);
    }
  }

  lemma {:induction false} SweepRest(w: World, outstanding: seq<Admission>, carriages: seq<Carriage>)
    requires Inv(w) && |outstanding| == |carriages| && outstanding != [] && Covers(w, outstanding[1..])
    requires AllCurrent(w.agents, outstanding) && AllCarriedOn(carriages)
    ensures NothingOutstanding(Run(w, SweepActions(outstanding[1..], carriages[1..])))
    decreases |outstanding|, 0
  {
    SweepSettles(w, outstanding[1..], carriages[1..]);
  }

  lemma NothingDue(w: World)
    requires Recorded(w) && Covers(w, [])
    ensures NothingOutstanding(w)
  {
    assert forall id :: id in w.agents ==> !IsDue(w, id);
  }

  // ---- A compacted log ----

  lemma {:induction false} PickKeeps(log: seq<Admission>, keep: set<nat>, i: nat)
    requires i < |log| && i in keep
    ensures log[i] in Pick(log, keep)
    decreases |log|
  {
    var last := |log| - 1;
    if i < last {
      PickKeeps(log[..last], keep, i);
    }
  }

  lemma {:induction false} PickedIsAt(log: seq<Admission>, keep: set<nat>, r: Admission) returns (i: nat)
    requires r in Pick(log, keep)
    ensures i < |log| && i in keep && log[i] == r
    decreases |log|
  {
    var last := |log| - 1;
    if r in Pick(log[..last], keep) {
      i := PickedIsAt(log[..last], keep, r);
    } else {
      i := last;
    }
  }

  lemma {:induction false} LastExists(log: seq<Admission>, agent: string) returns (i: nat)
    requires Names(log, agent)
    ensures LastOf(log, i) && log[i].agent == agent
    decreases |log|
  {
    var last := |log| - 1;
    if log[last].agent == agent {
      i := last;
    } else {
      var before := log[..last];
      var at :| 0 <= at < |log| && log[at].agent == agent;
      assert before[at].agent == agent;
      i := LastExists(before, agent);
      forall j | i < j < |log|
        ensures log[j].agent != log[i].agent
      {
        assert j < last ==> before[j] == log[j];
      }
    }
  }

  lemma DecisionsAreValid(trail: map<string, seq<Admission>>, records: seq<Admission>)
    requires AllDecisions(trail, records)
    ensures AllValid(records)
  {
    forall i | 0 <= i < |records|
      ensures Valid(records[i])
    {
      assert IsDecision(trail, records[i]);
    }
  }

  lemma PickedAreDecisions(trail: map<string, seq<Admission>>, log: seq<Admission>, keep: set<nat>)
    requires AllDecisions(trail, log)
    ensures AllDecisions(trail, Pick(log, keep)) && AllValid(Pick(log, keep)) && AllValid(log)
  {
    var picked := Pick(log, keep);
    forall k | 0 <= k < |picked|
      ensures IsDecision(trail, picked[k])
    {
      var i := PickedIsAt(log, keep, picked[k]);
      assert IsDecision(trail, log[i]);
    }
    DecisionsAreValid(trail, log);
    DecisionsAreValid(trail, picked);
  }

  /** What folding decisions gives is the decision of the highest revision among them. */
  lemma FoldIsNewest(trail: map<string, seq<Admission>>, records: seq<Admission>, newest: Admission)
    requires AllDecisions(trail, records) && AllValid(records) && newest in records
    requires forall i :: 0 <= i < |records| && records[i].agent == newest.agent ==> records[i].revision <= newest.revision
    ensures newest.agent in Folded(map[], records) && Folded(map[], records)[newest.agent] == DecisionOf(newest)
  {
    var at :| 0 <= at < |records| && records[at] == newest;
    FoldIsVerdict(records, newest.agent);
    assert Names(records, newest.agent);
    var d := Folded(map[], records)[newest.agent];
    VerdictIsADecision(trail, records, newest.agent, d);
    assert IsDecision(trail, records[at]);
  }

  lemma NewestLastIsFolded(trail: map<string, seq<Admission>>, log: seq<Admission>, keep: set<nat>, agent: string)
    requires AllDecisions(trail, log) && Compacts(log, keep) && LastIsNewest(log)
    ensures agent in Folded(map[], Pick(log, keep)) <==> agent in Folded(map[], log)
    ensures agent in Folded(map[], log) ==> Folded(map[], Pick(log, keep))[agent] == Folded(map[], log)[agent]
  {
    var picked := Pick(log, keep);
    PickedAreDecisions(trail, log, keep);
    FoldIsVerdict(log, agent);
    FoldIsVerdict(picked, agent);
    if Names(log, agent) {
      var i := LastExists(log, agent);
      PickKeeps(log, keep, i);
      FoldIsNewest(trail, log, log[i]);
      forall k | 0 <= k < |picked| && picked[k].agent == agent
        ensures picked[k].revision <= log[i].revision
      {
        var at := PickedIsAt(log, keep, picked[k]);
      }
      FoldIsNewest(trail, picked, log[i]);
    } else if Names(picked, agent) {
      var k :| 0 <= k < |picked| && picked[k].agent == agent;
      var at := PickedIsAt(log, keep, picked[k]);
    }
  }

  lemma OneLast(log: seq<Admission>, i: nat, j: nat)
    requires LastOf(log, i) && LastOf(log, j) && log[i].agent == log[j].agent
    ensures i == j
  {
  }

  function LastPlaces(log: seq<Admission>): set<nat> {
    set i: nat | i < |log| && LastOf(log, i)
  }

  /** Keeping only the last of each agent loses the newest decision of one whose last record is older. */
  lemma OlderLastIsLost(trail: map<string, seq<Admission>>, log: seq<Admission>, i: nat, j: nat)
    requires AllDecisions(trail, log) && LastOf(log, i) && j < |log| && log[j].agent == log[i].agent && log[j].revision > log[i].revision
    ensures Compacts(log, LastPlaces(log))
    ensures Folded(map[], Pick(log, LastPlaces(log))) != Folded(map[], log)
  {
    var keep, agent := LastPlaces(log), log[i].agent;
    var picked := Pick(log, keep);
    PickedAreDecisions(trail, log, keep);
    PickKeeps(log, keep, i);
    forall k | 0 <= k < |picked| && picked[k].agent == agent
      ensures picked[k].revision <= log[i].revision
    {
      var at := PickedIsAt(log, keep, picked[k]);
      OneLast(log, at, i);
    }
    FoldIsNewest(trail, picked, log[i]);
    FoldIsVerdict(log, agent);
    assert Names(log, agent);
  }

  /**
   The log is compacted by the place of a record, not by its revision: every compaction of it folds to what the whole
   log folds to exactly when the last record published about each agent carries its highest revision.
   */
  lemma CompactionIsSafeIffLastIsNewest(trail: map<string, seq<Admission>>, log: seq<Admission>)
    requires AllDecisions(trail, log)
    ensures (forall keep :: Compacts(log, keep) ==> Folded(map[], Pick(log, keep)) == Folded(map[], log)) <==> LastIsNewest(log)
  {
    if LastIsNewest(log) {
      forall keep | Compacts(log, keep)
        ensures Folded(map[], Pick(log, keep)) == Folded(map[], log)
      {
        forall agent
          ensures agent in Folded(map[], Pick(log, keep)) <==> agent in Folded(map[], log)
          ensures agent in Folded(map[], log) ==> Folded(map[], Pick(log, keep))[agent] == Folded(map[], log)[agent]
        {
          NewestLastIsFolded(trail, log, keep, agent);
        }
      }
    } else {
      var i: nat, j: nat :| LastOf(log, i) && j < |log| && log[j].agent == log[i].agent && log[j].revision > log[i].revision;
      OlderLastIsLost(trail, log, i, j);
    }
  }

  lemma KeptLast(log: seq<Admission>, kept: set<nat>)
    requires Compacts(log, kept)
    ensures Compacts(log, LastPlaces(log)) && kept * LastPlaces(log) == LastPlaces(log)
  {
  }

  lemma CompactThenRestart(w: World, keep: set<nat>)
    requires Compacts(w.log, keep)
    ensures Run(w, [Compact(keep), Restart]) == w.(kept := w.kept * keep, gateway := Restarted(w.log, w.kept * keep))
  {
    RunTwo(w, Compact(keep), Restart);
  }

  /**
   In every run, a gateway started again after whatever compaction holds what the whole log decides exactly when the last
   record published about each agent carries its highest revision.
   */
  lemma RestartIsSafeIffLastIsNewest(actions: seq<Action>)
    ensures var w := Run(Initial(), actions);
      (forall keep :: Compacts(w.log, keep) ==> Run(w, [Compact(keep), Restart]).gateway.known == Folded(map[], w.log))
      <==> LastIsNewest(w.log)
  {
    var w := Run(Initial(), actions);
    RunKeeps(Initial(), actions);
    CompactionIsSafeIffLastIsNewest(w.trail, w.log);
    if LastIsNewest(w.log) {
      forall keep | Compacts(w.log, keep)
        ensures Run(w, [Compact(keep), Restart]).gateway.known == Folded(map[], w.log)
      {
        CompactThenRestart(w, keep);
        assert Compacts(w.log, w.kept * keep);
      }
    } else {
      var i: nat, j: nat :| LastOf(w.log, i) && j < |w.log| && w.log[j].agent == w.log[i].agent && w.log[j].revision > w.log[i].revision;
      OlderLastIsLost(w.trail, w.log, i, j);
      KeptLast(w.log, w.kept);
      CompactThenRestart(w, LastPlaces(w.log));
    }
  }

  /** The world once an agent was registered and revoked, and nothing was published. */
  function RevokedWorld(id: string, tenant: string): World {
    World(map[id := Agent(id, tenant, Revoked, 2, "")],
          map[id := [Admission(id, tenant, Some(Pending), 1), Admission(id, tenant, Some(Revoked), 2)]],
          map[id := 0], [], {}, Gateway(0, [], map[]))
  }

  const REVOKE := Move(To(Revoked), None, "lost", "operator", "", "", Asked("", ""), false, 0)

  lemma RevokeApplies(id: string, tenant: string)
    ensures Apply(Agent(id, tenant, Pending, 1, ""), REVOKE).Ok?
    ensures Apply(Agent(id, tenant, Pending, 1, ""), REVOKE).value.0 == Agent(id, tenant, Revoked, 2, "")
  {
    assert |REVOKE.note| <= MAX_NOTE_LENGTH && REVOKE.note != "" && REVOKE.actor != "";
  }

  lemma RegisterThenRevoke(id: string, tenant: string)
    requires id != "" && ValidTenant(tenant)
    ensures Run(Initial(), [Register(id, tenant), Decide(id, REVOKE)]) == RevokedWorld(id, tenant)
  {
    RunTwo(Initial(), Register(id, tenant), Decide(id, REVOKE));
    RevokeApplies(id, tenant);
    var w := Step(Initial(), Register(id, tenant));
    assert w.agents[id] == Agent(id, tenant, Pending, 1, "");
    var next := Step(w, Decide(id, REVOKE));
    assert next.agents == RevokedWorld(id, tenant).agents;
    var first, second := Admission(id, tenant, Some(Pending), 1), Admission(id, tenant, Some(Revoked), 2);
    assert next.trail[id] == [first] + [second] == [first, second];
    assert next.trail == RevokedWorld(id, tenant).trail;
    assert next.published == RevokedWorld(id, tenant).published;
  }

  lemma RunThree(w: World, a: Action, b: Action, c: Action)
    ensures Run(w, [a, b, c]) == Step(Step(Step(w, a), b), c)
  {
    assert [a, b, c][1..] == [b, c];
    RunTwo(Step(w, a), b, c);
  }

  /** The world once the revocation was published and announced, and the gateway read it. */
  function ToldWorld(id: string, tenant: string): World
    requires id != "" && ValidTenant(tenant)
  {
    var second := Admission(id, tenant, Some(Revoked), 2);
    RevokedWorld(id, tenant).(log := [second], kept := {0}, published := map[id := 2], gateway := Gateway(1, [second], map[id := DecisionOf(second)]))
  }

  lemma TellRevocation(id: string, tenant: string)
    requires id != "" && ValidTenant(tenant)
    ensures Run(RevokedWorld(id, tenant), [Publish(id, 2), Announce(id, 2), Follow]) == ToldWorld(id, tenant)
  {
    var w, second := RevokedWorld(id, tenant), Admission(id, tenant, Some(Revoked), 2);
    RunThree(w, Publish(id, 2), Announce(id, 2), Follow);
    var published := Step(w, Publish(id, 2));
    assert [] + [second] == [second] && {} + {0} == {0};
    assert published == w.(log := [second], kept := {0});
    assert published.log[0] == second && Carries(published.log, id, 2);
    var announced := Step(published, Announce(id, 2));
    assert announced == w.(log := [second], kept := {0}, published := map[id := 2]);
    assert Applied(map[], second) == map[id := DecisionOf(second)];
  }

  lemma LatePublished(id: string, tenant: string)
    requires id != "" && ValidTenant(tenant)
    ensures var first, second := Admission(id, tenant, Some(Pending), 1), Admission(id, tenant, Some(Revoked), 2);
      Step(ToldWorld(id, tenant), Publish(id, 1)) == ToldWorld(id, tenant).(log := [second, first], kept := {0, 1})
  {
    var w, first, second := ToldWorld(id, tenant), Admission(id, tenant, Some(Pending), 1), Admission(id, tenant, Some(Revoked), 2);
    assert [second] + [first] == [second, first] && {0} + {1} == {0, 1};
    assert w.trail[id] == [first, second];
  }

  lemma CompactedAdmits(w: World, id: string, tenant: string, second: Admission)
    requires id != "" && ValidTenant(tenant) && second.agent == id && second.revision == 2
    requires w.log == [second, Admission(id, tenant, Some(Pending), 1)] && w.kept == {0, 1}
    ensures TenantOf(Run(w, [Compact({1}), Restart]).gateway.known, id) == Some(tenant)
  {
    var first := Admission(id, tenant, Some(Pending), 1);
    LastOfTwo(second, first);
    CompactThenRestart(w, {1});
    assert {0, 1} * {1} == {1};
    PickSecond(second, first, {1});
  }

  lemma LateThenCompacted(id: string, tenant: string)
    requires id != "" && ValidTenant(tenant)
    ensures TenantOf(Run(ToldWorld(id, tenant), [Publish(id, 1), Compact({1}), Restart]).gateway.known, id) == Some(tenant)
  {
    var w := ToldWorld(id, tenant);
    var actions := [Publish(id, 1), Compact({1}), Restart];
    assert actions[1..] == [Compact({1}), Restart];
    LatePublished(id, tenant);
    RunFirst(w, actions, Step(w, Publish(id, 1)));
    CompactedAdmits(Step(w, Publish(id, 1)), id, tenant, Admission(id, tenant, Some(Revoked), 2));
  }

  lemma PickSecond(a: Admission, b: Admission, keep: set<nat>)
    requires Valid(b) && 0 !in keep && 1 in keep
    ensures Pick([a, b], keep) == [b]
    ensures Folded(map[], [b]) == map[b.agent := DecisionOf(b)]
  {
    PickThen([], a, keep);
    PickThen([a], b, keep);
    assert [] + [a] == [a] && [a] + [b] == [a, b] && [b][..0] == [];
    assert Folded(map[], [b]) == Applied(Folded(map[], []), b);
  }

  lemma PickThen(log: seq<Admission>, next: Admission, keep: set<nat>)
    ensures Pick(log + [next], keep) == Pick(log, keep) + if |log| in keep then [next] else []
  {
    assert (log + [next])[..|log|] == log;
  }

  lemma LastOfTwo(a: Admission, b: Admission)
    requires a.agent == b.agent && a.revision > b.revision
    ensures !LastIsNewest([a, b]) && forall keep: set<nat> :: 1 in keep ==> Compacts([a, b], keep)
  {
    var log := [a, b];
    assert LastOf(log, 1) && log[0].revision > log[1].revision;
    assert !LastOf(log, 0) by {
      assert log[1].agent == log[0].agent;
    }
  }

  /**
   Where the topic no longer tells, it is gone back on: a gateway has read the revocation, which is announced; a record of
   the registration, published late, stands last in the log, compacting leaves it alone there, and the gateway, started
   again, admits the agent.
   */
  lemma LatePublicationStandsLast(id: string, tenant: string) returns (before: seq<Action>, after: seq<Action>)
    requires id != "" && ValidTenant(tenant)
    ensures var w := Run(Initial(), before);
      && EndedAt(w, id, 2) && NothingOutstanding(w) && ReadEnding(w.gateway, id)
      && TenantOf(Run(w, after).gateway.known, id) == Some(tenant)
      && !ToldAtRestarts(w, after, id, 2)
  {
    var begun, told := [Register(id, tenant), Decide(id, REVOKE)], [Publish(id, 2), Announce(id, 2), Follow];
    RegisterThenRevoke(id, tenant);
    RunThen(Initial(), begun, told);
    TellRevocation(id, tenant);
    before, after := begun + told, [Publish(id, 1), Compact({1}), Restart];
    LateThenCompacted(id, tenant);
    var w := ToldWorld(id, tenant);
    assert Ends(w.gateway.gotten[0], id);
    if ToldAtRestarts(w, after, id, 2) {
      NeverAdmittedAgain(before, after, id, 2);
    }
  }
}
