/**
 Following several advisory feeds at once (internal/advisoryfeed/importer.go): one sync runs for each feed, all of them
 settle their outcomes and publish their batches whenever they come to it, and what is held is one map they share.
 */
module Feeds {
  import opened Importer

  /**
   Where the following of one feed stands: what it settled, what it listed, what was held and settled as its last sync
   began, the outcomes of that sync so far, those of them not yet published, and whether the log refused a batch of it.
   */
  datatype Follow = Follow(
    settled: map<string, int>, listings: seq<Listing>, begun: State, done: seq<Settlement>, batch: seq<Settlement>, refused: bool, syncing: bool)

  datatype World = World(held: map<string, Holding>, follows: map<string, Follow>)

  /** The advisories each feed may list. */
  type Ids = map<string, set<string>>

  datatype Action =
    | StartSync(feed: string, listings: seq<Listing>)
    | Take(feed: string, outcome: Settlement)
    | Flush(feed: string)
    | Refuse(feed: string)
    | EndSync(feed: string)

  /** No advisory is listed by two feeds. */
  predicate Disjoint(ids: Ids) {
    forall f, g :: f in ids && g in ids && f != g ==> ids[f] !! ids[g]
  }

  function Initial(ids: Ids, held: map<string, Holding>): World {
    World(held, map feed | feed in ids :: Follow(map[], [], State(held, map[]), [], [], false, false))
  }

  function Now(held: map<string, Holding>, f: Follow): State {
    State(held, f.settled)
  }

  predicate MayStart(ids: Ids, w: World, feed: string, listings: seq<Listing>) {
    && feed in ids && feed in w.follows && !w.follows[feed].syncing && DistinctListings(listings)
    && forall i :: 0 <= i < |listings| ==> listings[i].id in ids[feed]
  }

  function Began(held: map<string, Holding>, f: Follow, listings: seq<Listing>): Follow {
    Follow(f.settled, listings, Now(held, f), [], [], false, true)
  }

  /** An outcome of a sync: of a listing it owed, taken once, and an advisory of its own name read with these rules. */
  predicate MayTake(normalization: nat, w: World, feed: string, outcome: Settlement) {
    && feed in w.follows && w.follows[feed].syncing
    && outcome.listing in OwedOf(w.follows[feed].begun, normalization, w.follows[feed].listings)
    && NewIn(w.follows[feed].done, outcome.listing.id)
    && (outcome.fetched.Got? ==> outcome.fetched.advisory.id == outcome.listing.id && outcome.fetched.advisory.normalization == normalization)
  }

  predicate ToPublish(s: State, normalization: nat, outcome: Settlement) {
    outcome.fetched.Got? && Publishable(s, normalization, outcome.listing, outcome.fetched.advisory)
  }

  function Taken(held: map<string, Holding>, f: Follow, feed: string, normalization: nat, outcome: Settlement): Follow {
    if ToPublish(Now(held, f), normalization, outcome) then f.(batch := f.batch + [outcome], done := f.done + [outcome])
    else f.(settled := Importer.Step(Now(held, f), feed, normalization, outcome).settled, done := f.done + [outcome])
  }

  /** An action that does not apply changes nothing; once the log refused a batch of a sync, its later batches are dropped. */
  function Step(ids: Ids, normalization: nat, w: World, action: Action): World {
    match action
    case StartSync(feed, listings) =>
      if MayStart(ids, w, feed, listings) then w.(follows := w.follows[feed := Began(w.held, w.follows[feed], listings)]) else w
    case Take(feed, outcome) =>
      if MayTake(normalization, w, feed, outcome)
      then w.(follows := w.follows[feed := Taken(w.held, w.follows[feed], feed, normalization, outcome)]) else w
    case Flush(feed) =>
      if feed !in w.follows || !AllGot(w.follows[feed].batch) then w
      else
        var f := w.follows[feed];
        if f.refused then w.(follows := w.follows[feed := f.(batch := [])])
        else
          var after := Batched(Now(w.held, f), feed, f.batch);
          World(after.held, w.follows[feed := f.(settled := after.settled, batch := [])])
    case Refuse(feed) =>
      if feed in w.follows then w.(follows := w.follows[feed := w.follows[feed].(refused := true, batch := [])]) else w
    case EndSync(feed) =>
      if feed in w.follows && w.follows[feed].batch == [] then w.(follows := w.follows[feed := w.follows[feed].(syncing := false)]) else w
  }

  function Run(ids: Ids, normalization: nat, w: World, actions: seq<Action>): World
    decreases |actions|
  {
    if actions == [] then w else Run(ids, normalization, Step(ids, normalization, w, actions[0]), actions[1..])
  }

  // ---- What a state says of some advisories ----

  function Own(s: State, ids: set<string>): State {
    State(map id | id in s.held && id in ids :: s.held[id], map id | id in s.settled && id in ids :: s.settled[id])
  }

  lemma OwnSettle(s: State, ids: set<string>, listing: Listing)
    requires listing.id in ids
    ensures Own(Settle(s, listing), ids) == Settle(Own(s, ids), listing)
  {
    var a, b := Own(Settle(s, listing), ids), Settle(Own(s, ids), listing);
    assert a.held == b.held && a.settled == b.settled;
  }

  lemma OwnPublish(s: State, ids: set<string>, feed: string, listing: Listing, advisory: Advisory)
    requires listing.id in ids
    ensures Own(Publish(s, feed, listing, advisory), ids) == Publish(Own(s, ids), feed, listing, advisory)
  {
    var held := s.(held := s.held[listing.id := HoldingOf(feed, advisory)]);
    var a, b := Own(held, ids), Own(s, ids).(held := Own(s, ids).held[listing.id := HoldingOf(feed, advisory)]);
    assert a.held == b.held && a.settled == b.settled;
    OwnSettle(held, ids, listing);
  }

  lemma OwnToPublish(s: State, ids: set<string>, normalization: nat, outcome: Settlement)
    requires outcome.listing.id in ids
    ensures ToPublish(s, normalization, outcome) == ToPublish(Own(s, ids), normalization, outcome)
  {
  }

  lemma OwnStep(s: State, ids: set<string>, feed: string, normalization: nat, outcome: Settlement)
    requires outcome.listing.id in ids
    ensures Own(Importer.Step(s, feed, normalization, outcome), ids) == Importer.Step(Own(s, ids), feed, normalization, outcome)
    ensures ToPublish(s, normalization, outcome) == ToPublish(Own(s, ids), normalization, outcome)
  {
    OwnSettle(s, ids, outcome.listing);
    OwnToPublish(s, ids, normalization, outcome);
    if outcome.fetched.Got? {
      OwnPublish(s, ids, feed, outcome.listing, outcome.fetched.advisory);
    }
  }

  lemma {:induction false} OwnSteps(s: State, ids: set<string>, feed: string, normalization: nat, outcomes: seq<Settlement>)
    requires forall i :: 0 <= i < |outcomes| ==> outcomes[i].listing.id in ids
    ensures Own(Steps(s, feed, normalization, outcomes), ids) == Steps(Own(s, ids), feed, normalization, outcomes)
    decreases |outcomes|
  {
    if outcomes != [] {
      var n := |outcomes| - 1;
      OwnSteps(s, ids, feed, normalization, outcomes[..n]);
      OwnStep(Steps(s, feed, normalization, outcomes[..n]), ids, feed, normalization, outcomes[n]);
    }
  }

  lemma {:induction false} OwnBatched(s: State, ids: set<string>, feed: string, batch: seq<Settlement>)
    requires AllGot(batch) && forall i :: 0 <= i < |batch| ==> batch[i].listing.id in ids
    ensures Own(Batched(s, feed, batch), ids) == Batched(Own(s, ids), feed, batch)
    decreases |batch|
  {
    if batch != [] {
      var n := |batch| - 1;
      OwnBatched(s, ids, feed, batch[..n]);
      OwnPublish(Batched(s, feed, batch[..n]), ids, feed, batch[n].listing, batch[n].fetched.advisory);
    }
  }

  lemma OwnSame(a: State, b: State, ids: set<string>, id: string)
    requires Own(a, ids) == Own(b, ids) && id in ids
    ensures SameAt(a, b, id)
  {
    var x, y := Own(a, ids), Own(b, ids);
    assert id in x.held <==> id in a.held;
    assert id in y.held <==> id in b.held;
    assert id in x.settled <==> id in a.settled;
    assert id in y.settled <==> id in b.settled;
    if id in x.held { assert x.held[id] == a.held[id] == b.held[id]; }
    if id in x.settled { assert x.settled[id] == a.settled[id] == b.settled[id]; }
  }

  lemma SameOwn(a: State, b: State, ids: set<string>)
    requires forall id :: id in ids ==> SameAt(a, b, id)
    ensures Own(a, ids) == Own(b, ids)
  {
    var x, y := Own(a, ids), Own(b, ids);
    forall id
      ensures id in x.held <==> id in y.held
      ensures id in x.settled <==> id in y.settled
    {
      if id in ids { assert SameAt(a, b, id); }
    }
    forall id | id in x.held ensures x.held[id] == y.held[id] { assert SameAt(a, b, id); }
    forall id | id in x.settled ensures x.settled[id] == y.settled[id] { assert SameAt(a, b, id); }
    assert x.held == y.held && x.settled == y.settled;
  }

  // ---- What every step keeps ----

  /** What a sync has taken: outcomes of the feed's own listings, each once and each of a listing it owed. */
  predicate Honest(own: set<string>, normalization: nat, f: Follow) {
    && DistinctListings(f.listings) && (forall i :: 0 <= i < |f.listings| ==> f.listings[i].id in own)
    && ValidOutcomes(f.done, normalization)
    && (forall i :: 0 <= i < |f.done| ==> f.done[i].listing.id in own && f.done[i].listing in OwedOf(f.begun, normalization, f.listings))
    && AllGot(f.batch) && forall i :: 0 <= i < |f.batch| ==> f.batch[i] in f.done
  }

  /** Of its own advisories, a feed stands where its own outcomes alone would have left it, but for its batch. */
  ghost predicate Alone(own: set<string>, normalization: nat, held: map<string, Holding>, feed: string, f: Follow) {
    !f.refused ==> Standing(Own(f.begun, own), Own(Now(held, f), own), feed, normalization, f.done, f.batch)
  }

  ghost predicate Inv(ids: Ids, normalization: nat, w: World) {
    && w.follows.Keys == ids.Keys
    && forall feed :: feed in ids ==> Honest(ids[feed], normalization, w.follows[feed]) && Alone(ids[feed], normalization, w.held, feed, w.follows[feed])
  }

  lemma BatchIsOwn(own: set<string>, normalization: nat, f: Follow)
    requires Honest(own, normalization, f)
    ensures forall i :: 0 <= i < |f.batch| ==> f.batch[i].listing.id in own
  {
    forall i | 0 <= i < |f.batch|
      ensures f.batch[i].listing.id in own
    {
      assert f.batch[i] in f.done;
    }
  }

  /** A feed's step that leaves what is held as it is leaves the others as they are. */
  lemma FollowKeeps(ids: Ids, normalization: nat, w: World, feed: string, f: Follow)
    requires Inv(ids, normalization, w) && feed in ids && Honest(ids[feed], normalization, f) && Alone(ids[feed], normalization, w.held, feed, f)
    ensures Inv(ids, normalization, w.(follows := w.follows[feed := f]))
  {
  }

  lemma BeginKeeps(own: set<string>, normalization: nat, held: map<string, Holding>, feed: string, f: Follow, listings: seq<Listing>)
    requires DistinctListings(listings) && forall i :: 0 <= i < |listings| ==> listings[i].id in own
    ensures Honest(own, normalization, Began(held, f, listings)) && Alone(own, normalization, held, feed, Began(held, f, listings))
  {
  }

  lemma {:induction false} OwedAreListed(s: State, normalization: nat, listings: seq<Listing>, listing: Listing)
    requires listing in OwedOf(s, normalization, listings)
    ensures listing in listings && IsOwed(s, normalization, listing)
  {
    OwedIs(s, normalization, listings, listing);
  }

  lemma TakeIsHonest(own: set<string>, normalization: nat, w: World, feed: string, outcome: Settlement)
    requires MayTake(normalization, w, feed, outcome) && Honest(own, normalization, w.follows[feed])
    ensures outcome.listing.id in own && Honest(own, normalization, Taken(w.held, w.follows[feed], feed, normalization, outcome))
  {
    var f := w.follows[feed];
    OwedAreListed(f.begun, normalization, f.listings, outcome.listing);
    var done := f.done + [outcome];
    forall i, j | 0 <= i < j < |done|
      ensures done[i].listing.id != done[j].listing.id
    {
      if j == |f.done| { assert done[i] == f.done[i]; }
    }
  }

  lemma TakeStaysAlone(own: set<string>, normalization: nat, held: map<string, Holding>, feed: string, f: Follow, outcome: Settlement)
    requires Alone(own, normalization, held, feed, f) && NewIn(f.done, outcome.listing.id) && outcome.listing.id in own
    ensures Alone(own, normalization, held, feed, Taken(held, f, feed, normalization, outcome))
  {
    var s := Now(held, f);
    OwnStep(s, own, feed, normalization, outcome);
    StepNeverGoesBack(s, feed, normalization, outcome);
    if !f.refused {
      StandingThen(Own(f.begun, own), Own(s, own), feed, normalization, f.done, f.batch, outcome);
      if !ToPublish(s, normalization, outcome) {
        assert Now(held, Taken(held, f, feed, normalization, outcome)) == Importer.Step(s, feed, normalization, outcome);
      }
    }
  }

  lemma FlushedAlone(own: set<string>, normalization: nat, held: map<string, Holding>, feed: string, f: Follow)
    requires Honest(own, normalization, f) && Alone(own, normalization, held, feed, f) && !f.refused
    ensures var after := Batched(Now(held, f), feed, f.batch);
      && Alone(own, normalization, after.held, feed, f.(settled := after.settled, batch := []))
      && NeverBack(held, after.held)
  {
    var s, after := Now(held, f), Batched(Now(held, f), feed, f.batch);
    BatchIsOwn(own, normalization, f);
    OwnBatched(s, own, feed, f.batch);
    StandingFlushed(Own(f.begun, own), Own(s, own), feed, normalization, f.done, f.batch);
    assert Now(after.held, f.(settled := after.settled, batch := [])) == after;
    forall id | id in held
      ensures id in after.held && held[id].modified <= after.held[id].modified
    {
      if id in own {
        assert id in Own(s, own).held;
        assert id in Own(after, own).held;
      } else {
        BatchedIsElsewhere(s, feed, f.batch, id);
      }
    }
  }

  lemma OthersStayAlone(own: set<string>, other: set<string>, normalization: nat, held: map<string, Holding>, feed: string, f: Follow, name: string, g: Follow)
    requires own !! other && Honest(own, normalization, f) && Alone(other, normalization, held, name, g)
    ensures Alone(other, normalization, Batched(Now(held, f), feed, f.batch).held, name, g)
  {
    var after := Batched(Now(held, f), feed, f.batch);
    BatchIsOwn(own, normalization, f);
    forall id | id in other
      ensures SameAt(Now(after.held, g), Now(held, g), id)
    {
      BatchedIsElsewhere(Now(held, f), feed, f.batch, id);
    }
    SameOwn(Now(after.held, g), Now(held, g), other);
  }

  lemma FlushKeeps(ids: Ids, normalization: nat, w: World, feed: string)
    requires Disjoint(ids) && Inv(ids, normalization, w) && feed in ids && !w.follows[feed].refused
    ensures Inv(ids, normalization, Step(ids, normalization, w, Flush(feed)))
    ensures NeverBack(w.held, Step(ids, normalization, w, Flush(feed)).held)
  {
    var f := w.follows[feed];
    FlushedAlone(ids[feed], normalization, w.held, feed, f);
    var next := Step(ids, normalization, w, Flush(feed));
    forall name | name in ids
      ensures Honest(ids[name], normalization, next.follows[name]) && Alone(ids[name], normalization, next.held, name, next.follows[name])
    {
      if name != feed {
        OthersStayAlone(ids[feed], ids[name], normalization, w.held, feed, f, name, w.follows[name]);
      }
    }
  }

  /** A step that changes only where one feed stands. */
  lemma FollowStepKeeps(ids: Ids, normalization: nat, w: World, next: World, feed: string, f: Follow)
    requires Inv(ids, normalization, w) && feed in ids && Honest(ids[feed], normalization, f) && Alone(ids[feed], normalization, w.held, feed, f)
    requires next == w.(follows := w.follows[feed := f])
    ensures Inv(ids, normalization, next) && NeverBack(w.held, next.held)
  {
    FollowKeeps(ids, normalization, w, feed, f);
  }

  lemma StartKeeps(ids: Ids, normalization: nat, w: World, feed: string, listings: seq<Listing>)
    requires Inv(ids, normalization, w) && MayStart(ids, w, feed, listings)
    ensures var next := Step(ids, normalization, w, StartSync(feed, listings)); Inv(ids, normalization, next) && NeverBack(w.held, next.held)
  {
    var f := Began(w.held, w.follows[feed], listings);
    BeginKeeps(ids[feed], normalization, w.held, feed, w.follows[feed], listings);
    FollowStepKeeps(ids, normalization, w, Step(ids, normalization, w, StartSync(feed, listings)), feed, f);
  }

  lemma TakeKeeps(ids: Ids, normalization: nat, w: World, feed: string, outcome: Settlement)
    requires Inv(ids, normalization, w) && feed in ids && MayTake(normalization, w, feed, outcome)
    ensures var next := Step(ids, normalization, w, Take(feed, outcome)); Inv(ids, normalization, next) && NeverBack(w.held, next.held)
  {
    var f := Taken(w.held, w.follows[feed], feed, normalization, outcome);
    TakeIsHonest(ids[feed], normalization, w, feed, outcome);
    TakeStaysAlone(ids[feed], normalization, w.held, feed, w.follows[feed], outcome);
    FollowStepKeeps(ids, normalization, w, Step(ids, normalization, w, Take(feed, outcome)), feed, f);
  }

  /** A batch is dropped, the log refuses one, or a sync ends. */
  lemma EndingKeeps(ids: Ids, normalization: nat, w: World, feed: string)
    requires Inv(ids, normalization, w) && feed in ids
    ensures var f := w.follows[feed];
      && Honest(ids[feed], normalization, f.(refused := true, batch := [])) && Alone(ids[feed], normalization, w.held, feed, f.(refused := true, batch := []))
      && Honest(ids[feed], normalization, f.(syncing := false)) && Alone(ids[feed], normalization, w.held, feed, f.(syncing := false))
  {
    assert Honest(ids[feed], normalization, w.follows[feed]) && Alone(ids[feed], normalization, w.held, feed, w.follows[feed]);
  }

  lemma StepKeeps(ids: Ids, normalization: nat, w: World, action: Action)
    requires Disjoint(ids) && Inv(ids, normalization, w)
    ensures Inv(ids, normalization, Step(ids, normalization, w, action)) && NeverBack(w.held, Step(ids, normalization, w, action).held)
  {
    var feed, next := action.feed, Step(ids, normalization, w, action);
    if next != w && feed in ids {
      var f := w.follows[feed];
      match action {
        case StartSync(_, listings) => StartKeeps(ids, normalization, w, feed, listings);
        case Take(_, outcome) => TakeKeeps(ids, normalization, w, feed, outcome);
        case Flush(_) =>
          if f.refused {
            EndingKeeps(ids, normalization, w, feed);
            assert f.(batch := []) == f.(refused := true, batch := []);
            FollowStepKeeps(ids, normalization, w, next, feed, f.(batch := []));
          } else {
            FlushKeeps(ids, normalization, w, feed);
          }
        case Refuse(_) =>
          EndingKeeps(ids, normalization, w, feed);
          FollowStepKeeps(ids, normalization, w, next, feed, f.(refused := true, batch := []));
        case EndSync(_) =>
          EndingKeeps(ids, normalization, w, feed);
          FollowStepKeeps(ids, normalization, w, next, feed, f.(syncing := false));
      }
    }
  }

  lemma InitialIsSound(ids: Ids, normalization: nat, held: map<string, Holding>)
    ensures Inv(ids, normalization, Initial(ids, held))
  {
  }

  lemma NeverBackChains(a: map<string, Holding>, b: map<string, Holding>, c: map<string, Holding>)
    requires NeverBack(a, b) && NeverBack(b, c)
    ensures NeverBack(a, c)
  {
  }

  /** Over every interleaving of the syncs of feeds that list different advisories, refused batches included, nothing held goes back. */
  lemma {:induction false} RunKeeps(ids: Ids, normalization: nat, w: World, actions: seq<Action>)
    requires Disjoint(ids) && Inv(ids, normalization, w)
    ensures Inv(ids, normalization, Run(ids, normalization, w, actions)) && NeverBack(w.held, Run(ids, normalization, w, actions).held)
    decreases |actions|
  {
    if actions != [] {
      var next := Step(ids, normalization, w, actions[0]);
      StepKeeps(ids, normalization, w, actions[0]);
      RunKeeps(ids, normalization, next, actions[1..]);
      NeverBackChains(w.held, next.held, Run(ids, normalization, next, actions[1..]).held);
    }
  }

  // ---- Each feed as if it were alone ----

  /** Everything taken was published, and nothing was refused. */
  predicate Written(f: Follow) {
    !f.refused && f.batch == []
  }

  lemma WrittenIsSteps(own: set<string>, normalization: nat, held: map<string, Holding>, feed: string, f: Follow)
    requires Honest(own, normalization, f) && Alone(own, normalization, held, feed, f) && Written(f)
    ensures Own(Now(held, f), own) == Own(Steps(f.begun, feed, normalization, f.done), own)
  {
    OwnSteps(f.begun, own, feed, normalization, f.done);
  }

  /**
   Over every interleaving, what a sync leaves of its own feed's advisories is what settling and publishing its own
   outcomes one after another, with no other feed there, would leave.
   */
  lemma EachFeedAlone(ids: Ids, normalization: nat, held: map<string, Holding>, actions: seq<Action>, feed: string, id: string)
    requires Disjoint(ids) && feed in ids && id in ids[feed]
    ensures feed in Run(ids, normalization, Initial(ids, held), actions).follows
    ensures var w := Run(ids, normalization, Initial(ids, held), actions);
      var f := w.follows[feed];
      Written(f) ==> SameAt(Now(w.held, f), Steps(f.begun, feed, normalization, f.done), id)
  {
    InitialIsSound(ids, normalization, held);
    RunKeeps(ids, normalization, Initial(ids, held), actions);
    var w := Run(ids, normalization, Initial(ids, held), actions);
    var f := w.follows[feed];
    if Written(f) {
      WrittenIsSteps(ids[feed], normalization, w.held, feed, f);
      OwnSame(Now(w.held, f), Steps(f.begun, feed, normalization, f.done), ids[feed], id);
    }
  }

  /** A sync that answered all it owed, with nothing still owed and nothing refused. */
  predicate Complete(normalization: nat, f: Follow) {
    Written(f) && Answers(f.done, OwedOf(f.begun, normalization, f.listings))
  }

  lemma OwedAtSame(a: State, b: State, normalization: nat, listing: Listing)
    requires SameAt(a, b, listing.id)
    ensures IsOwed(a, normalization, listing) == IsOwed(b, normalization, listing)
  {
  }

  /**
   Over every interleaving, after a complete sync of a feed a listing of it is still owed exactly when it was owed as the
   sync began and its fetched record was older than it claimed.
   */
  lemma CompleteSyncOwesOnlyOlder(ids: Ids, normalization: nat, held: map<string, Holding>, actions: seq<Action>, feed: string, listing: Listing)
    requires Disjoint(ids) && feed in ids
    ensures feed in Run(ids, normalization, Initial(ids, held), actions).follows
    ensures var w := Run(ids, normalization, Initial(ids, held), actions);
      var f := w.follows[feed];
      Complete(normalization, f) && listing in f.listings ==>
        (IsOwed(Now(w.held, f), normalization, listing) <==> IsOwed(f.begun, normalization, listing) && AnsweredOlder(f.done, listing))
  {
    InitialIsSound(ids, normalization, held);
    RunKeeps(ids, normalization, Initial(ids, held), actions);
    var w := Run(ids, normalization, Initial(ids, held), actions);
    var f := w.follows[feed];
    if Complete(normalization, f) && listing in f.listings {
      EachFeedAlone(ids, normalization, held, actions, feed, listing.id);
      OwedAtSame(Now(w.held, f), Steps(f.begun, feed, normalization, f.done), normalization, listing);
      CompleteOwesOnlyOlder(f.begun, feed, normalization, f.listings, f.done, listing);
    }
  }

  lemma StepsFromSame(a: State, b: State, feed: string, normalization: nat, x: seq<Settlement>, y: seq<Settlement>, id: string)
    requires ValidOutcomes(x, normalization) && ValidOutcomes(y, normalization) && SameAt(a, b, id)
    requires forall outcome :: outcome in x <==> outcome in y
    ensures SameAt(Steps(a, feed, normalization, x), Steps(b, feed, normalization, y), id)
  {
    StepsAreLocal(a, feed, normalization, x, id);
    StepsAreLocal(b, feed, normalization, y, id);
    if i :| 0 <= i < |x| && x[i].listing.id == id {
      assert x[i] in y;
      var j :| 0 <= j < |y| && y[j] == x[i];
      StepIsLocal(a, b, feed, normalization, x[i]);
    } else {
      forall j | 0 <= j < |y|
        ensures y[j].listing.id != id
      {
        assert y[j] in x;
      }
    }
  }

  lemma SameSyncSameLeft(ids: Ids, normalization: nat, v: World, w: World, feed: string, id: string)
    requires Inv(ids, normalization, v) && Inv(ids, normalization, w) && feed in ids && id in ids[feed]
    requires Written(v.follows[feed]) && Written(w.follows[feed]) && SameAt(v.follows[feed].begun, w.follows[feed].begun, id)
    requires forall outcome :: outcome in v.follows[feed].done <==> outcome in w.follows[feed].done
    ensures SameAt(Now(v.held, v.follows[feed]), Now(w.held, w.follows[feed]), id)
  {
    var f, g := v.follows[feed], w.follows[feed];
    WrittenIsSteps(ids[feed], normalization, v.held, feed, f);
    WrittenIsSteps(ids[feed], normalization, w.held, feed, g);
    OwnSame(Now(v.held, f), Steps(f.begun, feed, normalization, f.done), ids[feed], id);
    OwnSame(Now(w.held, g), Steps(g.begun, feed, normalization, g.done), ids[feed], id);
    StepsFromSame(f.begun, g.begun, feed, normalization, f.done, g.done, id);
  }

  /**
   Two runs, from whatever was held and with whatever other feeds did in each: if a feed's sync began with the same of an
   advisory and its fetches came to the same, in whatever order, both leave the same of it.
   */
  lemma InterleavingIsNothing(
    ids: Ids, normalization: nat, held: map<string, Holding>, other: map<string, Holding>, a: seq<Action>, b: seq<Action>, feed: string, id: string)
    requires Disjoint(ids) && feed in ids && id in ids[feed]
    ensures feed in Run(ids, normalization, Initial(ids, held), a).follows && feed in Run(ids, normalization, Initial(ids, other), b).follows
    ensures var v, w := Run(ids, normalization, Initial(ids, held), a), Run(ids, normalization, Initial(ids, other), b);
      var f, g := v.follows[feed], w.follows[feed];
      Written(f) && Written(g) && SameAt(f.begun, g.begun, id) && (forall outcome :: outcome in f.done <==> outcome in g.done) ==>
        SameAt(Now(v.held, f), Now(w.held, g), id)
  {
    InitialIsSound(ids, normalization, held);
    InitialIsSound(ids, normalization, other);
    RunKeeps(ids, normalization, Initial(ids, held), a);
    RunKeeps(ids, normalization, Initial(ids, other), b);
    var v, w := Run(ids, normalization, Initial(ids, held), a), Run(ids, normalization, Initial(ids, other), b);
    var f, g := v.follows[feed], w.follows[feed];
    if Written(f) && Written(g) && SameAt(f.begun, g.begun, id) && (forall outcome :: outcome in f.done <==> outcome in g.done) {
      SameSyncSameLeft(ids, normalization, v, w, feed, id);
    }
  }

  // ---- An advisory two feeds list ----

  function Outcome(id: string, modified: int, normalization: nat): Settlement {
    Settlement(Listing(id, modified), Got(Advisory(id, modified, normalization, "")))
  }

  /** Both feeds have taken the advisory to publish it, each having found nothing held of it. */
  function BothTook(ids: Ids, f: string, g: string, id: string, normalization: nat): World
    requires f in ids && g in ids
  {
    var none := State(map[], map[]);
    var older, newer := Outcome(id, 1, normalization), Outcome(id, 2, normalization);
    var w := Initial(ids, map[]);
    w.(follows := w.follows[f := Follow(map[], [older.listing], none, [older], [older], false, true)]
                           [g := Follow(map[], [newer.listing], none, [newer], [newer], false, true)])
  }

  lemma OneIsOwed(normalization: nat, listing: Listing)
    ensures listing in OwedOf(State(map[], map[]), normalization, [listing])
  {
    OwedIs(State(map[], map[]), normalization, [listing], listing);
  }

  /** A feed's sync begins and takes the one advisory it lists. */
  lemma StartAndTake(ids: Ids, normalization: nat, w: World, feed: string, id: string, modified: int)
    requires feed in ids && id in ids[feed] && w.held == map[] && feed in w.follows && !w.follows[feed].syncing && w.follows[feed].settled == map[]
    ensures var outcome := Outcome(id, modified, normalization);
      Run(ids, normalization, w, [StartSync(feed, [outcome.listing]), Take(feed, outcome)])
      == w.(follows := w.follows[feed := Follow(map[], [outcome.listing], State(map[], map[]), [outcome], [outcome], false, true)])
  {
    var outcome := Outcome(id, modified, normalization);
    var started := Step(ids, normalization, w, StartSync(feed, [outcome.listing]));
    assert started == w.(follows := w.follows[feed := Follow(map[], [outcome.listing], State(map[], map[]), [], [], false, true)]);
    OneIsOwed(normalization, outcome.listing);
    var took := Step(ids, normalization, started, Take(feed, outcome));
    assert [] + [outcome] == [outcome];
    assert took.follows == w.follows[feed := Follow(map[], [outcome.listing], State(map[], map[]), [outcome], [outcome], false, true)];
    RunTwo(ids, normalization, w, StartSync(feed, [outcome.listing]), Take(feed, outcome));
  }

  lemma RunTwo(ids: Ids, normalization: nat, w: World, a: Action, b: Action)
    ensures Run(ids, normalization, w, [a, b]) == Step(ids, normalization, Step(ids, normalization, w, a), b)
  {
    assert [a, b][1..] == [b] && [b][1..] == [];
    assert Run(ids, normalization, Step(ids, normalization, w, a), [b]) == Step(ids, normalization, Step(ids, normalization, w, a), b);
  }

  lemma {:induction false} RunThen(ids: Ids, normalization: nat, w: World, a: seq<Action>, b: seq<Action>)
    ensures Run(ids, normalization, w, a + b) == Run(ids, normalization, Run(ids, normalization, w, a), b)
    decreases |a|
  {
    if a == [] {
      assert a + b == b;
    } else {
      assert (a + b)[0] == a[0] && (a + b)[1..] == a[1..] + b;
      RunThen(ids, normalization, Step(ids, normalization, w, a[0]), a[1..], b);
    }
  }

  lemma BothTake(ids: Ids, f: string, g: string, id: string, normalization: nat) returns (actions: seq<Action>)
    requires f in ids && g in ids && f != g && id in ids[f] && id in ids[g]
    ensures Run(ids, normalization, Initial(ids, map[]), actions) == BothTook(ids, f, g, id, normalization)
  {
    var older, newer := Outcome(id, 1, normalization), Outcome(id, 2, normalization);
    var first, second := [StartSync(f, [older.listing]), Take(f, older)], [StartSync(g, [newer.listing]), Take(g, newer)];
    var w := Initial(ids, map[]);
    StartAndTake(ids, normalization, w, f, id, 1);
    StartAndTake(ids, normalization, Run(ids, normalization, w, first), g, id, 2);
    RunThen(ids, normalization, w, first, second);
    actions := first + second;
  }

  lemma OnePublished(s: State, feed: string, outcome: Settlement)
    requires outcome.fetched.Got?
    ensures AllGot([outcome]) && Batched(s, feed, [outcome]) == Publish(s, feed, outcome.listing, outcome.fetched.advisory)
  {
    BatchedThen(s, feed, [], outcome);
    assert [] + [outcome] == [outcome];
  }

  /** The newer version is published by one feed, and then the older by the other. */
  lemma OlderIsPublishedLast(ids: Ids, f: string, g: string, id: string, normalization: nat)
    requires f in ids && g in ids && f != g
    ensures var w := BothTook(ids, f, g, id, normalization);
      var newer := Run(ids, normalization, w, [Flush(g)]);
      var after := Run(ids, normalization, newer, [Flush(f)]);
      && id in newer.held && newer.held[id].modified == 2 && id in after.held && after.held[id].modified == 1
  {
    var w := BothTook(ids, f, g, id, normalization);
    OnePublished(Now(w.held, w.follows[g]), g, Outcome(id, 2, normalization));
    assert [Flush(g)][1..] == [] && [Flush(f)][1..] == [];
    var newer := Step(ids, normalization, w, Flush(g));
    assert Run(ids, normalization, w, [Flush(g)]) == newer;
    assert newer.follows[f] == w.follows[f];
    OnePublished(Now(newer.held, newer.follows[f]), f, Outcome(id, 1, normalization));
    assert Run(ids, normalization, newer, [Flush(f)]) == Step(ids, normalization, newer, Flush(f));
  }

  /** Whatever was held to begin with and however the syncs interleave, nothing held ever goes back. */
  ghost predicate NothingGoesBack(ids: Ids, normalization: nat) {
    forall held, before, after ::
      var w := Run(ids, normalization, Initial(ids, held), before);
      NeverBack(w.held, Run(ids, normalization, w, after).held)
  }

  /** Nothing held ever goes back exactly when no advisory is listed by two of the feeds followed. */
  lemma NothingGoesBackIffDisjoint(ids: Ids, normalization: nat)
    ensures NothingGoesBack(ids, normalization) <==> Disjoint(ids)
  {
    if Disjoint(ids) {
      forall held, before, after
        ensures var w := Run(ids, normalization, Initial(ids, held), before);
          NeverBack(w.held, Run(ids, normalization, w, after).held)
      {
        InitialIsSound(ids, normalization, held);
        RunKeeps(ids, normalization, Initial(ids, held), before);
        RunKeeps(ids, normalization, Run(ids, normalization, Initial(ids, held), before), after);
      }
    } else {
      var f, g :| f in ids && g in ids && f != g && !(ids[f] !! ids[g]);
      var id :| id in ids[f] && id in ids[g];
      SharedGoesBack(ids, f, g, id, normalization);
    }
  }

  lemma SharedGoesBack(ids: Ids, f: string, g: string, id: string, normalization: nat)
    requires f in ids && g in ids && f != g && id in ids[f] && id in ids[g]
    ensures !NothingGoesBack(ids, normalization)
  {
    var took := BothTake(ids, f, g, id, normalization);
    OlderIsPublishedLast(ids, f, g, id, normalization);
    RunThen(ids, normalization, Initial(ids, map[]), took, [Flush(g)]);
    var w := Run(ids, normalization, Initial(ids, map[]), took + [Flush(g)]);
    assert !NeverBack(w.held, Run(ids, normalization, w, [Flush(f)]).held);
  }
}
