/** The waves a rollout opens, and the agents the waves opened so far reach (internal/agentupdate/rollout.go). */
module Waves {
  import opened Wrappers
  import opened Identifiers

  const MAX_WAVES := 16
  const MAX_CANARY_AGENTS := 100
  const MAX_RUNNING := 10000
  const MAX_AGENT_ID_LENGTH := 64
  const MIN_SOAK := 60 * 1_000_000_000
  const MAX_SOAK := 30 * 24 * 3600 * 1_000_000_000
  const PLACES := 10000
  const UINT32 := 0x1_0000_0000

  /** How long a wave runs before the next opens on its own, in nanoseconds. */
  datatype Soak = Soak(wellFormed: bool, nanos: int)

  datatype Wave = Wave(agents: seq<string>, percent: nat, soak: Option<Soak>, running: nat)

  // ---- Which waves are accepted ----

  predicate ValidAgent(id: string) {
    |id| <= MAX_AGENT_ID_LENGTH && ValidIdentifier(id)
  }

  predicate AllValidAgents(agents: seq<string>) {
    forall i :: 0 <= i < |agents| ==> ValidAgent(agents[i])
  }

  predicate Distinct(agents: seq<string>) {
    forall i, j :: 0 <= i < j < |agents| ==> agents[i] != agents[j]
  }

  predicate ValidCanaries(agents: seq<string>, population: set<string>) {
    && AllValidAgents(agents) && Distinct(agents)
    && (population != {} ==> forall i :: 0 <= i < |agents| ==> agents[i] in population)
  }

  /** A wave names agents or opens a share of them, and not both. */
  predicate ValidShape(wave: Wave) {
    (wave.agents != [] <==> wave.percent == 0) && |wave.agents| <= MAX_CANARY_AGENTS && wave.percent <= 100
  }

  /** The last wave opens the release to everybody and nothing waits on it; another waits for an operator, or for its soak and for agents to run. */
  predicate ValidGate(wave: Wave, last: bool) {
    if last then wave.percent == 100 && wave.soak.None? && wave.running == 0
    else if wave.soak.None? then wave.running == 0
    else wave.soak.value.wellFormed && MIN_SOAK <= wave.soak.value.nanos <= MAX_SOAK && 1 <= wave.running <= MAX_RUNNING
  }

  predicate ValidOne(wave: Wave, last: bool, population: set<string>) {
    ValidShape(wave) && ValidGate(wave, last) && ValidCanaries(wave.agents, population)
  }

  predicate ValidWave(waves: seq<Wave>, i: nat, population: set<string>)
    requires i < |waves|
  {
    ValidOne(waves[i], i == |waves| - 1, population)
  }

  /** Each share a wave opens is more than every share opened before it. */
  predicate Widening(waves: seq<Wave>) {
    forall i, j :: 0 <= i < j < |waves| && waves[j].percent > 0 ==> waves[i].percent < waves[j].percent
  }

  predicate ValidWaves(waves: seq<Wave>, population: set<string>) {
    && 1 <= |waves| <= MAX_WAVES && Widening(waves)
    && forall i :: 0 <= i < |waves| ==> ValidWave(waves, i, population)
  }

  method DistinctAgents(agents: seq<string>) returns (r: Result<set<string>, string>)
    ensures r.Ok? <==> AllValidAgents(agents) && Distinct(agents)
    ensures r.Ok? ==> r.value == set id | id in agents
  {
    var seen: set<string> := {};
    for i := 0 to |agents|
      invariant AllValidAgents(agents[..i]) && Distinct(agents[..i])
      invariant seen == set id | id in agents[..i]
    {
      var id := agents[i];
      if !ValidAgent(id) {
        return Err("not a usable agent identifier");
      }
      if id in seen {
        var j :| 0 <= j < i && agents[..i][j] == id;
        assert agents[j] == agents[i];
        return Err("names an agent twice");
      }
      assert forall j :: 0 <= j < i ==> agents[..i][j] == agents[j] && agents[j] in seen;
      assert agents[..i + 1] == agents[..i] + [id];
      seen := seen + {id};
    }
    assert agents[..|agents|] == agents;
    r := Ok(seen);
  }

  method CheckCanaries(agents: seq<string>, population: set<string>) returns (r: Result<(), string>)
    ensures r.Ok? <==> ValidCanaries(agents, population)
  {
    var canaries := DistinctAgents(agents);
    if canaries.Err? {
      return Err(canaries.error);
    }
    if population != {} && !(canaries.value <= population) {
      var id :| id in canaries.value && id !in population;
      assert id in agents;
      return Err("names an agent the rollout does not");
    }
    assert forall i :: 0 <= i < |agents| ==> agents[i] in canaries.value;
    r := Ok(());
  }

  function Widest(waves: seq<Wave>): (share: nat)
    ensures forall i :: 0 <= i < |waves| ==> waves[i].percent <= share
    ensures share == 0 || exists i :: 0 <= i < |waves| && waves[i].percent == share
  {
    if waves == [] then 0
    else
      var n := |waves| - 1;
      var before := Widest(waves[..n]);
      assert forall i :: 0 <= i < n ==> waves[..n][i] == waves[i];
      if waves[n].percent > before then waves[n].percent else before
  }

  predicate WideningThrough(waves: seq<Wave>, n: nat) {
    forall i, j :: 0 <= i < j < n <= |waves| && waves[j].percent > 0 ==> waves[i].percent < waves[j].percent
  }

  lemma WidensBy(waves: seq<Wave>, n: nat)
    requires n < |waves| && WideningThrough(waves, n)
    ensures WideningThrough(waves, n + 1) <==> waves[n].percent == 0 || waves[n].percent > Widest(waves[..n])
    ensures Widest(waves[..n + 1]) == if waves[n].percent > Widest(waves[..n]) then waves[n].percent else Widest(waves[..n])
  {
    var before := waves[..n];
    assert forall i :: 0 <= i < n ==> before[i] == waves[i];
    WidestThen(waves, n);
  }

  /** One wave, given the widest share opened before it. */
  method CheckWave(wave: Wave, last: bool, reached: nat, population: set<string>) returns (r: Result<(), string>)
    ensures r.Ok? <==> ValidOne(wave, last, population) && (wave.percent == 0 || wave.percent > reached)
  {
    if |wave.agents| > 0 && wave.percent > 0 {
      return Err("both names agents and opens a share of them");
    } else if |wave.agents| == 0 && wave.percent == 0 {
      return Err("neither names agents nor opens a share of them");
    } else if |wave.agents| > MAX_CANARY_AGENTS {
      return Err("names too many agents");
    } else if wave.percent > 100 || (wave.percent > 0 && wave.percent <= reached) {
      return Err("does not open more than was open, or more than everybody");
    } else if last && wave.percent != 100 {
      return Err("the last wave does not open the release to everybody");
    } else if last && (wave.soak.Some? || wave.running != 0) {
      return Err("nothing opens after the last wave");
    }
    var canaries := CheckCanaries(wave.agents, population);
    if canaries.Err? || last {
      return canaries;
    }
    r := CheckGate(wave);
  }

  /** What opens the wave after this one. */
  method CheckGate(wave: Wave) returns (r: Result<(), string>)
    ensures r.Ok? <==> ValidGate(wave, false)
  {
    if wave.soak.None? {
      return if wave.running != 0 then Err("waits for an operator, so it requires nobody running") else Ok(());
    } else if !wave.soak.value.wellFormed || wave.soak.value.nanos < MIN_SOAK || wave.soak.value.nanos > MAX_SOAK {
      return Err("soaks too briefly or too long");
    } else if wave.running == 0 || wave.running > MAX_RUNNING {
      return Err("requires nobody running, or too many");
    }
    r := Ok(());
  }

  /** The first waves, up to some number of them, are accepted. */
  predicate ValidUpTo(waves: seq<Wave>, n: nat, population: set<string>) {
    n <= |waves| && WideningThrough(waves, n) && forall i :: 0 <= i < n ==> ValidWave(waves, i, population)
  }

  lemma ValidOneMore(waves: seq<Wave>, n: nat, population: set<string>)
    requires n < |waves| && ValidUpTo(waves, n, population)
    ensures ValidUpTo(waves, n + 1, population)
       <==> ValidOne(waves[n], n == |waves| - 1, population) && (waves[n].percent == 0 || waves[n].percent > Widest(waves[..n]))
    ensures !ValidUpTo(waves, n + 1, population) ==> !ValidWaves(waves, population)
  {
    WidensBy(waves, n);
    assert ValidWave(waves, n, population) <==> ValidOne(waves[n], n == |waves| - 1, population);
    assert ValidUpTo(waves, n + 1, population) <==> WideningThrough(waves, n + 1) && ValidWave(waves, n, population);
  }

  method ValidateWaves(waves: seq<Wave>, population: set<string>) returns (r: Result<(), string>)
    ensures r.Ok? <==> ValidWaves(waves, population)
  {
    if |waves| == 0 || |waves| > MAX_WAVES {
      return Err("opens no waves, or too many");
    }
    var reached := 0;
    for index := 0 to |waves|
      invariant reached == Widest(waves[..index]) && ValidUpTo(waves, index, population)
    {
      var wave := waves[index];
      WidestThen(waves, index);
      ValidOneMore(waves, index, population);
      var checked := CheckWave(wave, index == |waves| - 1, reached, population);
      if checked.Err? {
        return checked;
      }
      reached := if wave.percent > reached then wave.percent else reached;
    }
    r := Ok(());
  }

  // ---- Which agents are reached ----

  function Opened(waves: seq<Wave>, wave: nat): seq<Wave> {
    waves[..if wave + 1 <= |waves| then wave + 1 else |waves|]
  }

  predicate NamedIn(waves: seq<Wave>, agent: string) {
    exists i :: 0 <= i < |waves| && agent in waves[i].agents
  }

  /** An agent is reached by a wave that names it, or by the widest share opened, if its place is below that share of the places. */
  predicate IsReached(waves: seq<Wave>, wave: nat, agent: string, place: nat) {
    var openWaves := Opened(waves, wave);
    NamedIn(openWaves, agent) || (Widest(openWaves) > 0 && place < Widest(openWaves) * (PLACES / 100) % UINT32)
  }

  method Reaches(waves: seq<Wave>, wave: nat, agent: string, place: nat) returns (reached: bool)
    ensures reached == IsReached(waves, wave, agent, place)
  {
    if |waves| == 0 {
      return false;
    }
    var openWaves := waves[..if wave + 1 < |waves| then wave + 1 else |waves|];
    assert openWaves == Opened(waves, wave);
    var share := 0;
    for i := 0 to |openWaves|
      invariant share == Widest(openWaves[..i]) && !NamedIn(openWaves[..i], agent)
    {
      NamedThen(openWaves, i, agent);
      if agent in openWaves[i].agents {
        return true;
      }
      WidestThen(openWaves, i);
      share := if openWaves[i].percent > share then openWaves[i].percent else share;
    }
    assert openWaves[..|openWaves|] == openWaves;
    reached := share > 0 && place < share * (PLACES / 100) % UINT32;
  }

  lemma NamedThen(waves: seq<Wave>, n: nat, agent: string)
    requires n < |waves|
    ensures NamedIn(waves[..n + 1], agent) <==> NamedIn(waves[..n], agent) || agent in waves[n].agents
    ensures agent in waves[n].agents ==> NamedIn(waves, agent)
  {
    assert forall i :: 0 <= i < n ==> waves[..n][i] == waves[i];
    assert forall i :: 0 <= i < n + 1 ==> waves[..n + 1][i] == waves[i];
  }

  lemma WidestThen(waves: seq<Wave>, n: nat)
    requires n < |waves|
    ensures Widest(waves[..n + 1]) == if waves[n].percent > Widest(waves[..n]) then waves[n].percent else Widest(waves[..n])
  {
    assert waves[..n + 1][..n] == waves[..n];
  }

  /** No share of an accepted rollout wraps around, and none passes the number of places. */
  lemma SharesFit(waves: seq<Wave>, wave: nat, population: set<string>)
    requires ValidWaves(waves, population)
    ensures Widest(Opened(waves, wave)) * (PLACES / 100) <= PLACES < UINT32
  {
    var openWaves := Opened(waves, wave);
    var share := Widest(openWaves);
    if share > 0 {
      var i :| 0 <= i < |openWaves| && openWaves[i].percent == share;
      assert ValidWave(waves, i, population);
    }
  }

  /** Opening a wave takes no agent back. */
  lemma ReachGrows(waves: seq<Wave>, population: set<string>, wave: nat, later: nat, agent: string, place: nat)
    requires ValidWaves(waves, population) && wave <= later && IsReached(waves, wave, agent, place)
    ensures IsReached(waves, later, agent, place)
  {
    SharesFit(waves, wave, population);
    SharesFit(waves, later, population);
    PrefixReaches(Opened(waves, wave), Opened(waves, later), agent);
    Unwrapped(Widest(Opened(waves, wave)));
    Unwrapped(Widest(Opened(waves, later)));
  }

  lemma Unwrapped(share: nat)
    requires share * (PLACES / 100) <= PLACES
    ensures share * (PLACES / 100) % UINT32 == share * (PLACES / 100) == share * 100
  {
  }

  lemma PrefixReaches(before: seq<Wave>, after: seq<Wave>, agent: string)
    requires before <= after
    ensures NamedIn(before, agent) ==> NamedIn(after, agent)
    ensures Widest(before) <= Widest(after)
  {
    if Widest(before) > 0 {
      var i :| 0 <= i < |before| && before[i].percent == Widest(before);
      assert after[i].percent <= Widest(after);
    }
    if NamedIn(before, agent) {
      var i :| 0 <= i < |before| && agent in before[i].agents;
      assert agent in after[i].agents;
    }
  }

  /** The last wave reaches every agent. */
  lemma LastReachesAll(waves: seq<Wave>, population: set<string>, wave: nat, agent: string, place: nat)
    requires ValidWaves(waves, population) && wave + 1 >= |waves| && place < PLACES
    ensures IsReached(waves, wave, agent, place)
  {
    var n := |waves| - 1;
    assert Opened(waves, wave) == waves;
    assert ValidWave(waves, n, population);
    assert waves[n].percent <= Widest(waves);
    SharesFit(waves, wave, population);
  }
}
