/**
 A staged rollout over its whole life: operators change it, a later rollout takes over from it, and evaluators read how
 far it went and settle what they read only while it stands where they read it
 (internal/agentupdate/rollout.go, progress.go, internal/control/rollouts.go).
 */
module Rollout {
  import opened Wrappers
  import opened Waves
  import opened Release

  datatype State = Active | Paused | Aborted | Superseded

  predicate InForce(state: State) {
    state == Active || state == Paused
  }

  /** What was accepted: the waves, and how many failing agents pause it. */
  datatype Plan = Plan(waves: seq<Wave>, failures: nat, version: string)

  const MAX_FAILURES := 10000

  predicate Accepted(plan: Plan, population: set<string>) {
    ValidWaves(plan.waves, population) && 1 <= plan.failures <= MAX_FAILURES && plan.version != ""
  }

  /** Where a rollout stands. */
  datatype Standing = Standing(state: State, wave: nat, openedAt: int)

  datatype Progress = Progress(
    agents: nat, reached: nat, pinned: nat, running: nat, failed: nat, acknowledged: nat, ineligible: nat, pending: nat)

  // ---- What an agent says of its release ----

  datatype Outcome = Pending | Running | Failed | Ineligible

  datatype Stage = RolledBack | FailedStage | OtherStage
  datatype Failure = Unverified | Installation | Unhealthy | Refused | OtherFailure

  /** An agent's newest report: the build it runs, how it takes updates, and how far the last one went. */
  datatype Report = Report(build: Build, updates: Option<Updates>, update: string, stage: Stage, failure: Failure)

  predicate Broke(report: Report, target: string) {
    report.update == target
    && (report.stage == RolledBack || (report.stage == FailedStage && report.failure in {Unverified, Installation, Unhealthy}))
  }

  predicate TurnedDown(report: Report, target: string) {
    report.update == target && report.stage == FailedStage && report.failure == Refused
  }

  /**
   An agent that runs the release is running it whatever else it says; one it rolled back, or could not verify, install
   or keep healthy, failed; one it refused, or could not take as the catalog names it, is ineligible.
   */
  function Judge(report: Option<Report>, target: string, catalog: Option<seq<Release>>): (outcome: Outcome)
    ensures outcome == Running <==> report.Some? && report.value.build.version == target
    ensures outcome == Failed <==> report.Some? && report.value.build.version != target && Broke(report.value, target)
    ensures outcome == Ineligible <==>
      && report.Some? && report.value.build.version != target && !Broke(report.value, target)
      && (TurnedDown(report.value, target)
          || (catalog.Some? && !Takes(report.value.build, report.value.updates, target, catalog.value)))
  {
    if report.None? then Pending
    else if report.value.build.version == target then Running
    else if report.value.update == target && report.value.stage == RolledBack then Failed
    else if report.value.update == target && report.value.stage == FailedStage && report.value.failure in {Unverified, Installation, Unhealthy} then Failed
    else if report.value.update == target && report.value.stage == FailedStage && report.value.failure == Refused then Ineligible
    else if catalog.Some? && !Takes(report.value.build, report.value.updates, target, catalog.value) then Ineligible
    else Pending
  }

  // ---- What a change makes of a rollout ----

  datatype Change = Pause | Resume | Advance | Abort

  /** The standing after an operator's change and whether it resumed the rollout, or nothing where the change does not apply. */
  function Changed(plan: Plan, held: Standing, change: Change, at: int): Option<(Standing, bool)> {
    match change
    case Pause => if held.state == Active then Some((held.(state := Paused), false)) else None
    case Resume => if held.state == Paused then Some((held.(state := Active), true)) else None
    case Advance =>
      if held.state == Active && held.wave + 1 < |plan.waves| then Some((held.(wave := held.wave + 1, openedAt := at), false)) else None
    case Abort => if InForce(held.state) then Some((held.(state := Aborted), false)) else None
  }

  // ---- What a gate makes of a reading ----

  datatype Step = Hold | PauseIt | Open

  function Gate(plan: Plan, held: Standing, progress: Progress, now: int): Step {
    if held.state != Active then Hold
    else if progress.failed >= plan.failures then PauseIt
    else if held.wave + 1 >= |plan.waves| then Hold
    else
      var wave := plan.waves[held.wave];
      if wave.soak.None? || now < held.openedAt + wave.soak.value.nanos || progress.running < wave.running then Hold else Open
  }

  function Gated(plan: Plan, held: Standing, progress: Progress, now: int): Standing {
    match Gate(plan, held, progress, now)
    case Hold => held
    case PauseIt => held.(state := Paused)
    case Open => held.(wave := held.wave + 1, openedAt := now)
  }

  // ---- One reading ----

  /** What an evaluator reads: the agents, who has a release of their own, their places and reports, and the newest catalog if there is one. */
  datatype Estate = Estate(
    agents: seq<string>, pinned: set<string>, places: map<string, nat>, reports: map<string, Report>, catalog: Option<seq<Release>>)

  predicate ValidEstate(estate: Estate) {
    && (forall i, j :: 0 <= i < j < |estate.agents| ==> estate.agents[i] != estate.agents[j])
    && forall i :: 0 <= i < |estate.agents| ==> estate.agents[i] in estate.places && estate.places[estate.agents[i]] < PLACES
  }

  predicate IsIn(plan: Plan, wave: nat, estate: Estate, agent: string) {
    agent in estate.places && IsReached(plan.waves, wave, agent, estate.places[agent])
  }

  function ReportOf(estate: Estate, agent: string): Option<Report> {
    if agent in estate.reports then Some(estate.reports[agent]) else None
  }

  function OutcomeOf(plan: Plan, estate: Estate, agent: string): Outcome {
    Judge(ReportOf(estate, agent), plan.version, estate.catalog)
  }

  /** What one agent of the estate counts as. */
  datatype Bucket = Unreached | Pinned | Runs | Fails | Known | CannotTake | Waits

  function BucketOf(plan: Plan, wave: nat, estate: Estate, acknowledged: set<string>, agent: string): Bucket {
    if !IsIn(plan, wave, estate, agent) then Unreached
    else if agent in estate.pinned then Pinned
    else match OutcomeOf(plan, estate, agent)
         case Running => Runs
         case Failed => if agent in acknowledged then Known else Fails
         case Ineligible => CannotTake
         case Pending => Waits
  }

  /** The agents of a bucket, in the order they were read. */
  function AgentsIn(plan: Plan, wave: nat, estate: Estate, acknowledged: set<string>, agents: seq<string>, bucket: Bucket): seq<string> {
    if agents == [] then []
    else
      var n := |agents| - 1;
      AgentsIn(plan, wave, estate, acknowledged, agents[..n], bucket)
      + if BucketOf(plan, wave, estate, acknowledged, agents[n]) == bucket then [agents[n]] else []
  }

  function CountIn(plan: Plan, wave: nat, estate: Estate, acknowledged: set<string>, bucket: Bucket): nat {
    |AgentsIn(plan, wave, estate, acknowledged, estate.agents, bucket)|
  }

  function Tallied(plan: Plan, wave: nat, estate: Estate, acknowledged: set<string>): Progress {
    Progress(
      |estate.agents|, |Reached(plan, wave, estate, estate.agents)|,
      CountIn(plan, wave, estate, acknowledged, Pinned), CountIn(plan, wave, estate, acknowledged, Runs),
      CountIn(plan, wave, estate, acknowledged, Fails), CountIn(plan, wave, estate, acknowledged, Known),
      CountIn(plan, wave, estate, acknowledged, CannotTake), CountIn(plan, wave, estate, acknowledged, Waits))
  }

  function Reached(plan: Plan, wave: nat, estate: Estate, agents: seq<string>): seq<string> {
    if agents == [] then []
    else
      var n := |agents| - 1;
      Reached(plan, wave, estate, agents[..n]) + if IsIn(plan, wave, estate, agents[n]) then [agents[n]] else []
  }

  // ---- Every run ----

  /** What an evaluator holds between its reads: the rollout and its count of changes, and then the failures taken as known. */
  datatype Reading = Reading(held: Standing, changes: nat, acknowledged: Option<set<string>>)

  datatype World = World(
    standing: Standing, changes: nat, acknowledged: set<string>, failing: set<string>, readings: seq<Reading>)

  datatype Action =
    | Operate(change: Change, at: int)
    | TakeOver
    | ReadStanding
    | ReadReach(reading: nat)
    | Settle(reading: nat, estate: Estate, now: int)

  function Started(at: int): World {
    World(Standing(Active, 0, at), 0, {}, {}, [])
  }

  function Settled(plan: Plan, w: World, reading: Reading, estate: Estate, now: int): World {
    if reading.acknowledged.None? || reading.changes != w.changes then w
    else
      var progress := Tallied(plan, reading.held.wave, estate, reading.acknowledged.value);
      var failing := AgentsIn(plan, reading.held.wave, estate, reading.acknowledged.value, estate.agents, Fails);
      w.(standing := Gated(plan, reading.held, progress, now),
         changes := w.changes + (if Gate(plan, reading.held, progress, now) == Hold then 0 else 1),
         failing := set agent | agent in failing)
  }

  /** A change that does not apply, and a reading that was overtaken, change nothing. */
  function Next(plan: Plan, w: World, action: Action): World {
    match action
    case Operate(change, at) =>
      var changed := Changed(plan, w.standing, change, at);
      if changed.None? then w
      else w.(standing := changed.value.0, changes := w.changes + 1,
              acknowledged := if changed.value.1 then w.acknowledged + w.failing else w.acknowledged)
    case TakeOver =>
      if InForce(w.standing.state) then w.(standing := w.standing.(state := Superseded), changes := w.changes + 1) else w
    case ReadStanding =>
      if InForce(w.standing.state) then w.(readings := w.readings + [Reading(w.standing, w.changes, None)]) else w
    case ReadReach(i) =>
      if i < |w.readings| then w.(readings := w.readings[i := w.readings[i].(acknowledged := Some(w.acknowledged))]) else w
    case Settle(i, estate, now) =>
      if i < |w.readings| then Settled(plan, w, w.readings[i], estate, now) else w
  }

  function Run(plan: Plan, w: World, actions: seq<Action>): World
    decreases |actions|
  {
    if actions == [] then w else Run(plan, Next(plan, w, actions[0]), actions[1..])
  }

  /** A reading not yet overtaken is of the rollout as it stands. */
  predicate Fresh(w: World, reading: Reading) {
    && reading.changes <= w.changes
    && (reading.changes == w.changes ==>
          reading.held == w.standing && (reading.acknowledged.Some? ==> reading.acknowledged.value == w.acknowledged))
  }

  predicate Inv(plan: Plan, w: World) {
    && w.standing.wave < |plan.waves|
    && forall i :: 0 <= i < |w.readings| ==> Fresh(w, w.readings[i])
  }

  lemma SettleKeeps(plan: Plan, w: World, i: nat, estate: Estate, now: int)
    requires Inv(plan, w) && i < |w.readings|
    ensures Inv(plan, Settled(plan, w, w.readings[i], estate, now))
  {
    var reading := w.readings[i];
    assert Fresh(w, reading);
    if reading.acknowledged.Some? && reading.changes == w.changes {
      var next := Settled(plan, w, reading, estate, now);
      assert next.readings == w.readings && next.changes >= w.changes;
      assert forall j :: 0 <= j < |next.readings| ==> Fresh(w, next.readings[j]);
    }
  }

  lemma NextKeeps(plan: Plan, w: World, action: Action)
    requires Inv(plan, w)
    ensures Inv(plan, Next(plan, w, action))
  {
    var next := Next(plan, w, action);
    if action.Settle? && action.reading < |w.readings| {
      SettleKeeps(plan, w, action.reading, action.estate, action.now);
    } else if action.ReadReach? && action.reading < |w.readings| {
      assert Fresh(w, w.readings[action.reading]);
    }
  }

  lemma {:induction false} RunKeeps(plan: Plan, w: World, actions: seq<Action>)
    requires Inv(plan, w)
    ensures Inv(plan, Run(plan, w, actions))
    decreases |actions|
  {
    if actions != [] {
      NextKeeps(plan, w, actions[0]);
      RunKeeps(plan, Next(plan, w, actions[0]), actions[1..]);
    }
  }

  // ---- Safety ----

  /** A step leaves the wave where it is or opens the next one, and changes nothing of a rollout that ended. */
  lemma NextMoves(plan: Plan, w: World, action: Action)
    requires Inv(plan, w)
    ensures Next(plan, w, action).standing.wave == w.standing.wave || (w.standing.state == Active && Next(plan, w, action).standing.wave == w.standing.wave + 1)
    ensures !InForce(w.standing.state) ==> Next(plan, w, action).standing == w.standing
  {
    if action.Settle? && action.reading < |w.readings| {
      assert Fresh(w, w.readings[action.reading]);
    }
  }

  /** In every run the wave stays among the waves and never goes back, and an aborted or superseded rollout stands as it ended. */
  lemma {:induction false} WavesOnlyOpen(plan: Plan, w: World, actions: seq<Action>)
    requires Inv(plan, w)
    ensures w.standing.wave <= Run(plan, w, actions).standing.wave < |plan.waves|
    ensures !InForce(w.standing.state) ==> Run(plan, w, actions).standing == w.standing
    decreases |actions|
  {
    if actions != [] {
      NextMoves(plan, w, actions[0]);
      NextKeeps(plan, w, actions[0]);
      WavesOnlyOpen(plan, Next(plan, w, actions[0]), actions[1..]);
    }
  }

  /** A rollout as it is accepted meets the invariant. */
  lemma StartedIsSound(plan: Plan, population: set<string>, at: int)
    requires Accepted(plan, population)
    ensures Inv(plan, Started(at))
  {
  }

  /**
   In every run from an accepted rollout, a wave the platform opens was opened while the rollout stood active, was the
   next of its waves, came when the full soak had passed since the last opening, and by a reading, against the failures
   taken as known as they stand, of fewer failing agents than pause it and of as many running as the wave asks for.
   */
  lemma PlatformOpensSoundly(plan: Plan, population: set<string>, start: int, actions: seq<Action>, i: nat, estate: Estate, now: int)
    requires Accepted(plan, population)
    ensures
      var w := Run(plan, Started(start), actions);
      var next := Next(plan, w, Settle(i, estate, now));
      next.standing.wave != w.standing.wave ==>
        && w.standing.state == Active
        && next.standing == Standing(Active, w.standing.wave + 1, now) && next.standing.wave < |plan.waves|
        && var wave := plan.waves[w.standing.wave];
        && wave.soak.Some? && now >= w.standing.openedAt + wave.soak.value.nanos >= w.standing.openedAt + MIN_SOAK
        && CountIn(plan, w.standing.wave, estate, w.acknowledged, Fails) < plan.failures
        && CountIn(plan, w.standing.wave, estate, w.acknowledged, Runs) >= wave.running >= 1
  {
    StartedIsSound(plan, population, start);
    RunKeeps(plan, Started(start), actions);
    var w := Run(plan, Started(start), actions);
    if Next(plan, w, Settle(i, estate, now)).standing.wave != w.standing.wave {
      OpensSoundly(plan, population, w, i, estate, now);
    }
  }

  lemma OpensSoundly(plan: Plan, population: set<string>, w: World, i: nat, estate: Estate, now: int)
    requires Accepted(plan, population) && Inv(plan, w) && Next(plan, w, Settle(i, estate, now)).standing.wave != w.standing.wave
    ensures w.standing.state == Active && w.standing.wave + 1 < |plan.waves|
    ensures Next(plan, w, Settle(i, estate, now)).standing == Standing(Active, w.standing.wave + 1, now)
    ensures var wave := plan.waves[w.standing.wave];
      && wave.soak.Some? && now >= w.standing.openedAt + wave.soak.value.nanos >= w.standing.openedAt + MIN_SOAK
      && CountIn(plan, w.standing.wave, estate, w.acknowledged, Fails) < plan.failures
      && CountIn(plan, w.standing.wave, estate, w.acknowledged, Runs) >= wave.running >= 1
  {
    assert i < |w.readings|;
    var reading := w.readings[i];
    assert Fresh(w, reading);
    assert ValidWave(plan.waves, w.standing.wave, population);
  }

  /** A pause and a resumption give back the standing there was, its soak still running. */
  lemma PauseThenResume(plan: Plan, w: World, pausedAt: int, resumedAt: int)
    requires w.standing.state == Active
    ensures var after := Run(plan, w, [Operate(Pause, pausedAt), Operate(Resume, resumedAt)]);
      after.standing == w.standing && after.changes == w.changes + 2 && after.acknowledged == w.acknowledged + w.failing
  {
    var paused := Next(plan, w, Operate(Pause, pausedAt));
    var both := [Operate(Pause, pausedAt), Operate(Resume, resumedAt)];
    assert both[1..] == [Operate(Resume, resumedAt)];
    assert Run(plan, paused, both[1..]) == Next(plan, paused, Operate(Resume, resumedAt));
  }

  /** An abort ends a rollout in force for good. */
  lemma AbortEnds(plan: Plan, w: World, at: int, actions: seq<Action>)
    requires Inv(plan, w) && InForce(w.standing.state)
    ensures Run(plan, Next(plan, w, Operate(Abort, at)), actions).standing == w.standing.(state := Aborted)
  {
    NextKeeps(plan, w, Operate(Abort, at));
    WavesOnlyOpen(plan, Next(plan, w, Operate(Abort, at)), actions);
  }

  lemma {:induction false} NoneFailsAnew(plan: Plan, wave: nat, estate: Estate, acknowledged: set<string>, agents: seq<string>)
    requires forall i :: 0 <= i < |agents| && OutcomeOf(plan, estate, agents[i]) == Failed ==> agents[i] in acknowledged
    ensures AgentsIn(plan, wave, estate, acknowledged, agents, Fails) == []
    decreases |agents|
  {
    if agents != [] {
      NoneFailsAnew(plan, wave, estate, acknowledged, agents[..|agents| - 1]);
    }
  }

  /** Every agent that failed is among those known to. */
  predicate Expected(plan: Plan, estate: Estate, known: set<string>) {
    forall k :: 0 <= k < |estate.agents| && OutcomeOf(plan, estate, estate.agents[k]) == Failed ==> estate.agents[k] in known
  }

  /** Steps of evaluators reading only expected failures, and of operators who open waves or resume. */
  predicate Undisturbed(plan: Plan, actions: seq<Action>, known: set<string>) {
    forall i :: 0 <= i < |actions| ==>
      match actions[i]
      case Operate(change, _) => change == Resume || change == Advance
      case TakeOver => false
      case ReadStanding => true
      case ReadReach(_) => true
      case Settle(_, estate, _) => Expected(plan, estate, known)
  }

  /** No reading of expected failures pauses an active rollout that knows of them. */
  lemma ExpectedDoNotPause(plan: Plan, population: set<string>, w: World, known: set<string>, i: nat, estate: Estate, now: int)
    requires Accepted(plan, population) && Inv(plan, w) && w.standing.state == Active
    requires known <= w.acknowledged && Expected(plan, estate, known)
    ensures Next(plan, w, Settle(i, estate, now)).standing.state == Active
  {
    if i < |w.readings| {
      assert Fresh(w, w.readings[i]);
      NoneFailsAnew(plan, w.standing.wave, estate, w.acknowledged, estate.agents);
    }
  }

  lemma {:induction false} StaysActive(plan: Plan, population: set<string>, w: World, known: set<string>, actions: seq<Action>)
    requires Accepted(plan, population) && Inv(plan, w) && w.standing.state == Active
    requires known <= w.acknowledged && Undisturbed(plan, actions, known)
    ensures Run(plan, w, actions).standing.state == Active
    decreases |actions|
  {
    if actions != [] {
      var action := actions[0];
      if action.Settle? {
        ExpectedDoNotPause(plan, population, w, known, action.reading, action.estate, action.now);
      }
      NextKeeps(plan, w, action);
      assert Undisturbed(plan, actions[1..], known);
      StaysActive(plan, population, Next(plan, w, action), known, actions[1..]);
    }
  }

  /**
   Once resumed, over every run in which the platform reads no failures but of the agents last read as failing or known
   before, and nobody pauses or ends the rollout, it stays active: no reading, taken before or after, pauses it.
   */
  lemma KnownFailuresDoNotPause(plan: Plan, population: set<string>, w: World, resumedAt: int, actions: seq<Action>)
    requires Accepted(plan, population) && Inv(plan, w) && w.standing.state == Paused
    requires Undisturbed(plan, actions, w.acknowledged + w.failing)
    ensures Run(plan, Next(plan, w, Operate(Resume, resumedAt)), actions).standing.state == Active
  {
    NextKeeps(plan, w, Operate(Resume, resumedAt));
    StaysActive(plan, population, Next(plan, w, Operate(Resume, resumedAt)), w.acknowledged + w.failing, actions);
  }

  lemma RunFour(plan: Plan, w: World, a: Action, b: Action, c: Action, d: Action)
    ensures Run(plan, w, [a, b, c, d]) == Next(plan, Next(plan, Next(plan, Next(plan, w, a), b), c), d)
  {
    assert [a, b, c, d][1..] == [b, c, d] && [b, c, d][1..] == [c, d] && [c, d][1..] == [d] && [d][1..] == [];
    var one := Next(plan, w, a);
    var two := Next(plan, one, b);
    var three := Next(plan, two, c);
    assert Run(plan, three, [d]) == Next(plan, three, d);
    assert Run(plan, two, [c, d]) == Run(plan, three, [d]);
    assert Run(plan, one, [b, c, d]) == Run(plan, two, [c, d]);
  }

  /** Such a reading, taken after the resumption, does settle, by the gate of the wave that is open, and it names nobody as failing. */
  lemma ResumedReadingSettles(plan: Plan, population: set<string>, w: World, resumedAt: int, estate: Estate, now: int)
    requires Accepted(plan, population) && Inv(plan, w) && w.standing.state == Paused && Expected(plan, estate, w.acknowledged + w.failing)
    ensures var i := |w.readings|;
      var after := Run(plan, w, [Operate(Resume, resumedAt), ReadStanding, ReadReach(i), Settle(i, estate, now)]);
      && after.standing.state == Active && after.failing == {}
      && after.standing == Gated(plan, w.standing.(state := Active), Tallied(plan, w.standing.wave, estate, w.acknowledged + w.failing), now)
  {
    var i := |w.readings|;
    RunFour(plan, w, Operate(Resume, resumedAt), ReadStanding, ReadReach(i), Settle(i, estate, now));
    var resumed := Next(plan, w, Operate(Resume, resumedAt));
    var reached := Next(plan, Next(plan, resumed, ReadStanding), ReadReach(i));
    assert reached.readings[i] == Reading(resumed.standing, resumed.changes, Some(resumed.acknowledged));
    NoneFailsAnew(plan, w.standing.wave, estate, resumed.acknowledged, estate.agents);
  }

  lemma {:induction false} ReadingsStay(plan: Plan, w: World, actions: seq<Action>, i: nat)
    requires i < |w.readings|
    ensures i < |Run(plan, w, actions).readings| && Run(plan, w, actions).readings[i].changes == w.readings[i].changes
    decreases |actions|
  {
    if actions != [] {
      ReadingsStay(plan, Next(plan, w, actions[0]), actions[1..], i);
    }
  }

  /** A reading overtaken by any change since settles nothing, so it undoes no operator's change. */
  lemma OvertakenSettlesNothing(plan: Plan, w: World, i: nat, between: seq<Action>, estate: Estate, now: int)
    requires Inv(plan, w) && i < |w.readings| && Run(plan, w, between).changes > w.changes
    ensures Next(plan, Run(plan, w, between), Settle(i, estate, now)) == Run(plan, w, between)
  {
    assert Fresh(w, w.readings[i]);
    ReadingsStay(plan, w, between, i);
  }

  // ---- What agents are offered ----

  function Offered(plan: Plan, standing: Standing, member: bool, agent: string, place: nat): string {
    if !member || standing.state != Active || !IsReached(plan.waves, standing.wave, agent, place) then "" else plan.version
  }

  /** In every run, a release once offered to an agent of the rollout is offered whenever the rollout stands active: only a pause or an end withdraws it. */
  lemma OfferOnlyWithdrawnByPauseOrEnd(plan: Plan, population: set<string>, w: World, actions: seq<Action>, agent: string, place: nat)
    requires Accepted(plan, population) && Inv(plan, w) && Offered(plan, w.standing, true, agent, place) == plan.version
    ensures Run(plan, w, actions).standing.state == Active ==> Offered(plan, Run(plan, w, actions).standing, true, agent, place) == plan.version
  {
    WavesOnlyOpen(plan, w, actions);
    ReachGrows(plan.waves, population, w.standing.wave, Run(plan, w, actions).standing.wave, agent, place);
  }

  // ---- How an evaluator reads ----

  /** The counts of the agents reached, and the agents counted as failing. */
  class Tally {
    var progress: Progress
    var failing: seq<string>

    constructor (agents: nat)
      ensures progress == Progress(agents, 0, 0, 0, 0, 0, 0, 0) && failing == []
    {
      progress := Progress(agents, 0, 0, 0, 0, 0, 0, 0);
      failing := [];
    }

    method Count(agent: string, outcome: Outcome, acknowledged: bool)
      modifies this
      ensures failing == old(failing) + (if outcome == Failed && !acknowledged then [agent] else [])
      ensures progress == match outcome {
        case Running => old(progress).(running := old(progress).running + 1)
        case Failed => if acknowledged then old(progress).(acknowledged := old(progress).acknowledged + 1)
                       else old(progress).(failed := old(progress).failed + 1)
        case Ineligible => old(progress).(ineligible := old(progress).ineligible + 1)
        case Pending => old(progress).(pending := old(progress).pending + 1)
      }
    {
      match outcome {
        case Running => progress := progress.(running := progress.running + 1);
        case Failed =>
          if acknowledged {
            progress := progress.(acknowledged := progress.acknowledged + 1);
            return;
          }
          progress := progress.(failed := progress.failed + 1);
          failing := failing + [agent];
        case Ineligible => progress := progress.(ineligible := progress.ineligible + 1);
        case Pending => progress := progress.(pending := progress.pending + 1);
      }
    }
  }

  /** The agents reached that no release was assigned to one by one. */
  function Asked(plan: Plan, wave: nat, estate: Estate, agents: seq<string>): seq<string> {
    if agents == [] then []
    else
      var n := |agents| - 1;
      Asked(plan, wave, estate, agents[..n])
      + if IsIn(plan, wave, estate, agents[n]) && agents[n] !in estate.pinned then [agents[n]] else []
  }

  /** Asking the others first loses and repeats nobody. */
  lemma {:induction false} AskedKeepsBuckets(plan: Plan, wave: nat, estate: Estate, acknowledged: set<string>, agents: seq<string>, bucket: Bucket)
    requires bucket != Unreached && bucket != Pinned
    ensures AgentsIn(plan, wave, estate, acknowledged, Asked(plan, wave, estate, agents), bucket)
         == AgentsIn(plan, wave, estate, acknowledged, agents, bucket)
    decreases |agents|
  {
    if agents != [] {
      var n := |agents| - 1;
      AskedKeepsBuckets(plan, wave, estate, acknowledged, agents[..n], bucket);
      var before := Asked(plan, wave, estate, agents[..n]);
      if IsIn(plan, wave, estate, agents[n]) && agents[n] !in estate.pinned {
        assert (before + [agents[n]])[..|before|] == before;
      } else {
        assert before + [] == before;
      }
    }
  }

  lemma {:induction false} AskedAre(plan: Plan, wave: nat, estate: Estate, agents: seq<string>)
    ensures forall i :: 0 <= i < |Asked(plan, wave, estate, agents)| ==>
      IsIn(plan, wave, estate, Asked(plan, wave, estate, agents)[i]) && Asked(plan, wave, estate, agents)[i] !in estate.pinned
    decreases |agents|
  {
    if agents != [] {
      AskedAre(plan, wave, estate, agents[..|agents| - 1]);
    }
  }

  lemma AskedThen(plan: Plan, wave: nat, estate: Estate, agents: seq<string>, i: nat)
    requires i < |agents|
    ensures Asked(plan, wave, estate, agents[..i + 1])
         == if IsIn(plan, wave, estate, agents[i]) && agents[i] !in estate.pinned
            then Asked(plan, wave, estate, agents[..i]) + [agents[i]] else Asked(plan, wave, estate, agents[..i])
  {
    assert agents[..i + 1][..i] == agents[..i] && agents[..i + 1][i] == agents[i];
    assert Asked(plan, wave, estate, agents[..i]) + [] == Asked(plan, wave, estate, agents[..i]);
  }

  /** The reports of some agents. */
  function Newest(estate: Estate, agents: seq<string>): map<string, Report> {
    map agent | agent in agents && agent in estate.reports :: estate.reports[agent]
  }

  /** Who has a release of their own does not depend on the failures taken as known. */
  lemma {:induction false} PinnedAnyway(plan: Plan, wave: nat, estate: Estate, acknowledged: set<string>, agents: seq<string>)
    ensures AgentsIn(plan, wave, estate, acknowledged, agents, Pinned) == AgentsIn(plan, wave, estate, {}, agents, Pinned)
    decreases |agents|
  {
    if agents != [] {
      PinnedAnyway(plan, wave, estate, acknowledged, agents[..|agents| - 1]);
    }
  }

  /** One more agent of the first pass. */
  lemma ReachThen(plan: Plan, wave: nat, estate: Estate, agents: seq<string>, i: nat)
    requires i < |agents|
    ensures var isIn, pinned := IsIn(plan, wave, estate, agents[i]), agents[i] in estate.pinned;
      && |Reached(plan, wave, estate, agents[..i + 1])| == |Reached(plan, wave, estate, agents[..i])| + (if isIn then 1 else 0)
      && |AgentsIn(plan, wave, estate, {}, agents[..i + 1], Pinned)|
         == |AgentsIn(plan, wave, estate, {}, agents[..i], Pinned)| + (if isIn && pinned then 1 else 0)
  {
    assert agents[..i + 1][..i] == agents[..i] && agents[..i + 1][i] == agents[i];
  }

  /** The first pass: who is reached, and who of them is asked. */
  method Reach(plan: Plan, wave: nat, estate: Estate) returns (reached: nat, pinned: nat, asked: seq<string>)
    requires ValidEstate(estate)
    ensures reached == |Reached(plan, wave, estate, estate.agents)|
    ensures forall acknowledged :: pinned == CountIn(plan, wave, estate, acknowledged, Pinned)
    ensures asked == Asked(plan, wave, estate, estate.agents)
  {
    reached, pinned, asked := 0, 0, [];
    for i := 0 to |estate.agents|
      invariant reached == |Reached(plan, wave, estate, estate.agents[..i])|
      invariant pinned == |AgentsIn(plan, wave, estate, {}, estate.agents[..i], Pinned)|
      invariant asked == Asked(plan, wave, estate, estate.agents[..i])
    {
      var agent := estate.agents[i];
      ReachThen(plan, wave, estate, estate.agents, i);
      AskedThen(plan, wave, estate, estate.agents, i);
      var isIn := Reaches(plan.waves, wave, agent, estate.places[agent]);
      if !isIn {
        continue;
      }
      reached := reached + 1;
      if agent in estate.pinned {
        pinned := pinned + 1;
        continue;
      }
      asked := asked + [agent];
    }
    assert estate.agents[..|estate.agents|] == estate.agents;
    forall acknowledged
      ensures pinned == CountIn(plan, wave, estate, acknowledged, Pinned)
    {
      PinnedAnyway(plan, wave, estate, acknowledged, estate.agents);
    }
  }

  /** The reports are read a chunk at a time, and how they are chunked leaves no trace. */
  method Reports(estate: Estate, asked: seq<string>, chunk: nat) returns (reports: map<string, Report>)
    requires chunk > 0
    ensures reports == Newest(estate, asked)
  {
    reports := map[];
    var i := 0;
    while i < |asked|
      invariant i <= |asked| && reports == Newest(estate, asked[..i])
    {
      var end := if i + chunk <= |asked| then i + chunk else |asked|;
      assert asked[..end] == asked[..i] + asked[i..end];
      reports := reports + Newest(estate, asked[i..end]);
      i := end;
    }
    assert asked[..i] == asked;
  }

  /** One reading of a rollout: what it counts, and whom it counts as failing. */
  method Evaluate(plan: Plan, wave: nat, estate: Estate, acknowledged: set<string>, chunk: nat) returns (progress: Progress, failing: seq<string>)
    requires ValidEstate(estate) && chunk > 0
    ensures progress == Tallied(plan, wave, estate, acknowledged)
    ensures failing == AgentsIn(plan, wave, estate, acknowledged, estate.agents, Fails)
  {
    var reached, pinned, asked := Reach(plan, wave, estate);
    var reports := Reports(estate, asked, chunk);
    AskedAre(plan, wave, estate, estate.agents);
    var tally := new Tally(|estate.agents|);
    for i := 0 to |asked|
      invariant fresh(tally)
      invariant tally.progress == Counts(plan, wave, estate, acknowledged, asked[..i])
      invariant tally.failing == AgentsIn(plan, wave, estate, acknowledged, asked[..i], Fails)
    {
      var agent := asked[i];
      assert asked[..i + 1][..i] == asked[..i];
      var outcome := Judge(if agent in reports then Some(reports[agent]) else None, plan.version, estate.catalog);
      assert outcome == OutcomeOf(plan, estate, agent);
      CountsThen(plan, wave, estate, acknowledged, asked, i);
      tally.Count(agent, outcome, agent in acknowledged);
    }
    assert asked[..|asked|] == asked;
    AskedCounts(plan, wave, estate, acknowledged);
    progress := tally.progress.(reached := reached, pinned := pinned);
    failing := tally.failing;
  }

  /** What the second pass counts of the agents it asked. */
  function Counts(plan: Plan, wave: nat, estate: Estate, acknowledged: set<string>, asked: seq<string>): Progress {
    Progress(
      |estate.agents|, 0, 0, |AgentsIn(plan, wave, estate, acknowledged, asked, Runs)|,
      |AgentsIn(plan, wave, estate, acknowledged, asked, Fails)|, |AgentsIn(plan, wave, estate, acknowledged, asked, Known)|,
      |AgentsIn(plan, wave, estate, acknowledged, asked, CannotTake)|, |AgentsIn(plan, wave, estate, acknowledged, asked, Waits)|)
  }

  lemma CountsThen(plan: Plan, wave: nat, estate: Estate, acknowledged: set<string>, asked: seq<string>, i: nat)
    requires i < |asked| && IsIn(plan, wave, estate, asked[i]) && asked[i] !in estate.pinned
    ensures var before, after := Counts(plan, wave, estate, acknowledged, asked[..i]), Counts(plan, wave, estate, acknowledged, asked[..i + 1]);
      after == match OutcomeOf(plan, estate, asked[i]) {
        case Running => before.(running := before.running + 1)
        case Failed => if asked[i] in acknowledged then before.(acknowledged := before.acknowledged + 1) else before.(failed := before.failed + 1)
        case Ineligible => before.(ineligible := before.ineligible + 1)
        case Pending => before.(pending := before.pending + 1)
      }
  {
    assert asked[..i + 1][..i] == asked[..i];
  }

  lemma AskedCounts(plan: Plan, wave: nat, estate: Estate, acknowledged: set<string>)
    ensures var asked := Asked(plan, wave, estate, estate.agents);
      && AgentsIn(plan, wave, estate, acknowledged, asked, Fails) == AgentsIn(plan, wave, estate, acknowledged, estate.agents, Fails)
      && Counts(plan, wave, estate, acknowledged, asked)
         == Tallied(plan, wave, estate, acknowledged).(reached := 0, pinned := 0)
  {
    AskedKeepsBuckets(plan, wave, estate, acknowledged, estate.agents, Runs);
    AskedKeepsBuckets(plan, wave, estate, acknowledged, estate.agents, Fails);
    AskedKeepsBuckets(plan, wave, estate, acknowledged, estate.agents, Known);
    AskedKeepsBuckets(plan, wave, estate, acknowledged, estate.agents, CannotTake);
    AskedKeepsBuckets(plan, wave, estate, acknowledged, estate.agents, Waits);
  }

  // ---- What a reading counts ----

  lemma {:induction false} BucketsPartition(plan: Plan, wave: nat, estate: Estate, acknowledged: set<string>, agents: seq<string>)
    ensures |Reached(plan, wave, estate, agents)|
         == |AgentsIn(plan, wave, estate, acknowledged, agents, Pinned)| + |AgentsIn(plan, wave, estate, acknowledged, agents, Runs)|
            + |AgentsIn(plan, wave, estate, acknowledged, agents, Fails)| + |AgentsIn(plan, wave, estate, acknowledged, agents, Known)|
            + |AgentsIn(plan, wave, estate, acknowledged, agents, CannotTake)| + |AgentsIn(plan, wave, estate, acknowledged, agents, Waits)|
    decreases |agents|
  {
    if agents != [] {
      BucketsPartition(plan, wave, estate, acknowledged, agents[..|agents| - 1]);
    }
  }

  /** The agents reached are the pinned, the running, the failing, the known failures, the ineligible and the pending, each counted once. */
  lemma ReadingPartitions(plan: Plan, wave: nat, estate: Estate, acknowledged: set<string>)
    ensures var progress := Tallied(plan, wave, estate, acknowledged);
      progress.reached == progress.pinned + progress.running + progress.failed + progress.acknowledged + progress.ineligible + progress.pending
  {
    BucketsPartition(plan, wave, estate, acknowledged, estate.agents);
  }

  lemma {:induction false} BucketIs(plan: Plan, wave: nat, estate: Estate, acknowledged: set<string>, agents: seq<string>, bucket: Bucket)
    requires forall i, j :: 0 <= i < j < |agents| ==> agents[i] != agents[j]
    ensures var chosen := AgentsIn(plan, wave, estate, acknowledged, agents, bucket);
      && (forall i, j :: 0 <= i < j < |chosen| ==> chosen[i] != chosen[j])
      && forall agent :: agent in chosen <==> agent in agents && BucketOf(plan, wave, estate, acknowledged, agent) == bucket
    decreases |agents|
  {
    if agents != [] {
      var n := |agents| - 1;
      BucketIs(plan, wave, estate, acknowledged, agents[..n], bucket);
      var before := AgentsIn(plan, wave, estate, acknowledged, agents[..n], bucket);
      assert agents[n] !in agents[..n];
      assert forall agent :: agent in agents <==> agent in agents[..n] || agent == agents[n] by {
        assert agents == agents[..n] + [agents[n]];
      }
    }
  }

  /** The failing list names, each once, exactly the agents reached that failed, have no release of their own, and are not known to fail. */
  lemma FailingIsExact(plan: Plan, wave: nat, estate: Estate, acknowledged: set<string>)
    requires ValidEstate(estate)
    ensures var failing := AgentsIn(plan, wave, estate, acknowledged, estate.agents, Fails);
      && (forall i, j :: 0 <= i < j < |failing| ==> failing[i] != failing[j])
      && |failing| == Tallied(plan, wave, estate, acknowledged).failed
      && forall agent :: agent in failing <==>
           agent in estate.agents && IsIn(plan, wave, estate, agent) && agent !in estate.pinned
           && OutcomeOf(plan, estate, agent) == Failed && agent !in acknowledged
  {
    BucketIs(plan, wave, estate, acknowledged, estate.agents, Fails);
  }
}
