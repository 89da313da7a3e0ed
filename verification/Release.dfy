/** Whether an agent could install a release, by what it reports of itself and what the catalog names (internal/agentupdate/progress.go). */
module Release {
  import opened Wrappers
  import opened Version

  datatype Release = Release(
    version: string, os: string, architecture: string, format: string, stateGeneration: nat, minimum: string, replaced: seq<string>)

  datatype Build = Build(version: string, os: string, architecture: string)

  /** How an agent takes updates; an agent that predates reporting it says nothing. */
  datatype Updates = Updates(enabled: bool, format: string, stateGeneration: nat)

  predicate Matches(release: Release, version: string, build: Build, updates: Option<Updates>) {
    && release.version == version && release.os == build.os && release.architecture == build.architecture
    && (updates.Some? ==> release.format == updates.value.format)
  }

  /** The first release of a catalog for the agent's platform. */
  function Matching(releases: seq<Release>, version: string, build: Build, updates: Option<Updates>): (found: Option<Release>)
    ensures found.None? <==> forall i :: 0 <= i < |releases| ==> !Matches(releases[i], version, build, updates)
    ensures found.Some? ==> found.value in releases && Matches(found.value, version, build, updates)
  {
    if releases == [] then None
    else if Matches(releases[0], version, build, updates) then Some(releases[0])
    else
      var found := Matching(releases[1..], version, build, updates);
      assert forall i :: 0 < i < |releases| ==> releases[i] == releases[1..][i - 1];
      found
  }

  /** What an invalid text is read as. */
  const NO_VERSION := Version(0, 0, 0, [], "")

  function ReadVersion(text: string): Version {
    if Parsed(text).Some? then Parsed(text).value else NO_VERSION
  }

  /** A release older than what runs must say it replaces it; a newer one may ask for a version to come from. */
  predicate Follows(release: Release, target: string, running: Version) {
    var order := Compared(ReadVersion(target), running);
    if order < 0 then running.text in release.replaced
    else if order > 0 then release.minimum == "" || Parsed(release.minimum).None? || Compared(running, Parsed(release.minimum).value) >= 0
    else true
  }

  /** The release an agent would install and the one it runs are both in the catalog, nothing of its state is lost, and one follows on the other. */
  predicate Fits(release: Release, current: Release, build: Build, updates: Option<Updates>, target: string, running: Version) {
    && Matches(release, target, build, updates) && Matches(current, build.version, build, updates)
    && (updates.Some? ==> updates.value.stateGeneration <= release.stateGeneration)
    && Follows(release, target, running)
  }

  function Takes(build: Build, updates: Option<Updates>, target: string, releases: seq<Release>): (takes: bool)
    ensures takes ==> Parsed(build.version).Some? && (updates.Some? ==> updates.value.enabled)
    ensures takes ==>
      (exists i, j :: 0 <= i < |releases| && 0 <= j < |releases| && Fits(releases[i], releases[j], build, updates, target, Parsed(build.version).value))
  {
    var running := Parsed(build.version);
    if running.None? || (updates.Some? && !updates.value.enabled) then false
    else
      var release, current := Matching(releases, target, build, updates), Matching(releases, running.value.text, build, updates);
      if release.None? || current.None? then false
      else if updates.Some? && release.value.stateGeneration < updates.value.stateGeneration then false
      else Follows(release.value, target, running.value)
  }

  /** The first release of a catalog for the agent's platform stands here. */
  predicate IsFirst(releases: seq<Release>, i: nat, version: string, build: Build, updates: Option<Updates>) {
    && i < |releases| && Matches(releases[i], version, build, updates)
    && forall k :: 0 <= k < i ==> !Matches(releases[k], version, build, updates)
  }

  /** The first release a catalog names for the agent, and some release it names as what the agent runs, fit. */
  ghost predicate FirstFits(releases: seq<Release>, build: Build, updates: Option<Updates>, target: string, running: Version) {
    exists i: nat, j: nat :: IsFirst(releases, i, target, build, updates) && j < |releases| && Fits(releases[i], releases[j], build, updates, target, running)
  }

  lemma TakenFits(build: Build, updates: Option<Updates>, target: string, releases: seq<Release>)
    requires Takes(build, updates, target, releases)
    ensures FirstFits(releases, build, updates, target, Parsed(build.version).value)
  {
    var i := MatchingIsFirst(releases, target, build, updates);
    var j := MatchingIsFirst(releases, build.version, build, updates);
    assert Fits(releases[i], releases[j], build, updates, target, Parsed(build.version).value);
  }

  /** An agent takes a release exactly if it runs a version, takes updates, and the first release the catalog names for it fits. */
  lemma TakesIffFits(build: Build, updates: Option<Updates>, target: string, releases: seq<Release>)
    ensures Takes(build, updates, target, releases) <==>
      && Parsed(build.version).Some? && (updates.Some? ==> updates.value.enabled)
      && FirstFits(releases, build, updates, target, Parsed(build.version).value)
  {
    if Takes(build, updates, target, releases) {
      TakenFits(build, updates, target, releases);
    }
    var running := Parsed(build.version);
    if running.Some? && FirstFits(releases, build, updates, target, running.value) {
      var i: nat, j: nat :| IsFirst(releases, i, target, build, updates) && j < |releases| && Fits(releases[i], releases[j], build, updates, target, running.value);
      FirstIsMatching(releases, i, target, build, updates);
      assert Matching(releases, build.version, build, updates).Some?;
    }
  }

  lemma {:induction false} FirstIsMatching(releases: seq<Release>, i: nat, version: string, build: Build, updates: Option<Updates>)
    requires IsFirst(releases, i, version, build, updates)
    ensures Matching(releases, version, build, updates) == Some(releases[i])
    decreases i
  {
    if i > 0 {
      assert !Matches(releases[0], version, build, updates);
      assert forall k :: 0 <= k < i - 1 ==> releases[1..][k] == releases[k + 1];
      FirstIsMatching(releases[1..], i - 1, version, build, updates);
    }
  }

  lemma {:induction false} MatchingIsFirst(releases: seq<Release>, version: string, build: Build, updates: Option<Updates>) returns (i: nat)
    requires Matching(releases, version, build, updates).Some?
    ensures IsFirst(releases, i, version, build, updates) && Matching(releases, version, build, updates) == Some(releases[i])
    decreases |releases|
  {
    if Matches(releases[0], version, build, updates) {
      i := 0;
    } else {
      var k := MatchingIsFirst(releases[1..], version, build, updates);
      i := k + 1;
      assert forall m :: 0 < m < i ==> releases[m] == releases[1..][m - 1];
    }
  }
}
