/**
 Following an advisory feed (internal/advisoryfeed/importer.go): what the platform holds of each advisory, what a sync
 still owes of what the feed lists, and how the outcomes of the fetches are settled in the order they complete and
 published in batches.
 */
module Importer {
  datatype Advisory = Advisory(id: string, modified: int, normalization: nat, statement: string)

  datatype Holding = Holding(feed: string, modified: int, normalization: nat, statement: string)

  datatype Listing = Listing(id: string, modified: int)

  /** How a fetch came out: still owed, gone, not an advisory, or an advisory. */
  datatype Fetched = Owing | Gone | Refused | Got(advisory: Advisory)

  datatype Settlement = Settlement(listing: Listing, fetched: Fetched)

  datatype State = State(held: map<string, Holding>, settled: map<string, int>)

  function HoldingOf(feed: string, advisory: Advisory): Holding {
    Holding(feed, advisory.modified, advisory.normalization, advisory.statement)
  }

  // ---- What is held ----

  /** An advisory read back from the log is kept, under the feed it came from, unless a later version is held. */
  function Kept(held: map<string, Holding>, feed: string, advisory: Advisory): map<string, Holding> {
    if advisory.id in held && advisory.modified < held[advisory.id].modified then held
    else held[advisory.id := HoldingOf(feed, advisory)]
  }

  predicate NeverBack(before: map<string, Holding>, after: map<string, Holding>) {
    forall id :: id in before ==> id in after && before[id].modified <= after[id].modified
  }

  /** An advisory of the log: the feed it came from, when it was fetched, and whether it is sound and of the source followed. */
  datatype Past = Past(feed: string, advisory: Advisory, fetchedAt: int, sound: bool)

  /** What is learned of the log: what is sound, of a feed followed, and not fetched in a time to come. */
  predicate Learned(feeds: set<string>, latest: int, past: Past) {
    past.sound && past.feed in feeds && past.fetchedAt <= latest
  }

  function Recalled(held: map<string, Holding>, feeds: set<string>, latest: int, log: seq<Past>): map<string, Holding>
    decreases |log|
  {
    if log == [] then held
    else Recalled(if Learned(feeds, latest, log[0]) then Kept(held, log[0].feed, log[0].advisory) else held, feeds, latest, log[1..])
  }

  predicate Speaks(feeds: set<string>, latest: int, past: Past, id: string) {
    Learned(feeds, latest, past) && past.advisory.id == id
  }

  /**
   Whatever order the log is read back in and whichever feeds its advisories came from, what is held of each advisory is
   a version of its newest time, under the feed that version came from.
   */
  lemma {:induction false} RecalledIsNewest(held: map<string, Holding>, feeds: set<string>, latest: int, log: seq<Past>, id: string)
    ensures NeverBack(held, Recalled(held, feeds, latest, log))
    ensures id in Recalled(held, feeds, latest, log) <==> id in held || exists i :: 0 <= i < |log| && Speaks(feeds, latest, log[i], id)
    ensures forall i :: 0 <= i < |log| && Speaks(feeds, latest, log[i], id) ==> log[i].advisory.modified <= Recalled(held, feeds, latest, log)[id].modified
    ensures id in Recalled(held, feeds, latest, log) ==>
      || (id in held && held[id] == Recalled(held, feeds, latest, log)[id])
      || exists i :: 0 <= i < |log| && Speaks(feeds, latest, log[i], id) && HoldingOf(log[i].feed, log[i].advisory) == Recalled(held, feeds, latest, log)[id]
    decreases |log|
  {
    if log != [] {
      var next := if Learned(feeds, latest, log[0]) then Kept(held, log[0].feed, log[0].advisory) else held;
      RecalledIsNewest(next, feeds, latest, log[1..], id);
      assert forall i :: 0 < i < |log| ==> log[i] == log[1..][i - 1];
      assert forall i :: 0 <= i < |log| - 1 ==> log[1..][i] == log[i + 1];
    }
  }

  // ---- What is owed ----

  /** A listing is owed unless it was settled at that time or later, or what is held is as new and read with these rules. */
  predicate IsOwed(s: State, normalization: nat, listing: Listing) {
    && !(listing.id in s.settled && listing.modified <= s.settled[listing.id])
    && !(listing.id in s.held && s.held[listing.id].normalization >= normalization && listing.modified <= s.held[listing.id].modified)
  }

  function OwedOf(s: State, normalization: nat, listings: seq<Listing>): seq<Listing> {
    if listings == [] then []
    else
      var n := |listings| - 1;
      OwedOf(s, normalization, listings[..n]) + if IsOwed(s, normalization, listings[n]) then [listings[n]] else []
  }

  lemma {:induction false} OwedIs(s: State, normalization: nat, listings: seq<Listing>, listing: Listing)
    ensures listing in OwedOf(s, normalization, listings) <==> listing in listings && IsOwed(s, normalization, listing)
    decreases |listings|
  {
    if listings != [] {
      var n := |listings| - 1;
      OwedIs(s, normalization, listings[..n], listing);
      assert listings == listings[..n] + [listings[n]];
    }
  }

  // ---- Settling one outcome after another ----

  predicate Publishable(s: State, normalization: nat, listing: Listing, advisory: Advisory) {
    || listing.id !in s.held
    || (s.held[listing.id].modified <= advisory.modified
        && (s.held[listing.id].normalization < normalization || advisory.statement != s.held[listing.id].statement))
  }

  function Settle(s: State, listing: Listing): State {
    s.(settled := s.settled[listing.id := listing.modified])
  }

  function Publish(s: State, feed: string, listing: Listing, advisory: Advisory): State {
    var held := s.(held := s.held[listing.id := HoldingOf(feed, advisory)]);
    if advisory.modified >= listing.modified then Settle(held, listing) else held
  }

  /** The simple form: every outcome settled as it comes, and every advisory published at once. */
  function Step(s: State, feed: string, normalization: nat, outcome: Settlement): State {
    match outcome.fetched
    case Owing => s
    case Gone => Settle(s, outcome.listing)
    case Refused => Settle(s, outcome.listing)
    case Got(advisory) =>
      if Publishable(s, normalization, outcome.listing, advisory) then Publish(s, feed, outcome.listing, advisory)
      else if advisory.modified >= outcome.listing.modified then Settle(s, outcome.listing) else s
  }

  function Steps(s: State, feed: string, normalization: nat, outcomes: seq<Settlement>): State
    decreases |outcomes|
  {
    if outcomes == [] then s
    else
      var n := |outcomes| - 1;
      Step(Steps(s, feed, normalization, outcomes[..n]), feed, normalization, outcomes[n])
  }

  /** Each listing is fetched once, and a record is an advisory of its own name read with these rules. */
  predicate ValidOutcomes(outcomes: seq<Settlement>, normalization: nat) {
    && (forall i, j :: 0 <= i < j < |outcomes| ==> outcomes[i].listing.id != outcomes[j].listing.id)
    && forall i :: 0 <= i < |outcomes| && outcomes[i].fetched.Got? ==>
         outcomes[i].fetched.advisory.id == outcomes[i].listing.id && outcomes[i].fetched.advisory.normalization == normalization
  }

  /** Two states say the same of one advisory. */
  predicate SameAt(a: State, b: State, id: string) {
    && (id in a.held <==> id in b.held) && (id in a.held && id in b.held ==> a.held[id] == b.held[id])
    && (id in a.settled <==> id in b.settled) && (id in a.settled && id in b.settled ==> a.settled[id] == b.settled[id])
  }

  lemma StepIsElsewhere(s: State, feed: string, normalization: nat, outcome: Settlement, id: string)
    requires id != outcome.listing.id
    ensures SameAt(Step(s, feed, normalization, outcome), s, id)
  {
  }

  lemma SettleIsLocal(a: State, b: State, listing: Listing)
    requires SameAt(a, b, listing.id)
    ensures SameAt(Settle(a, listing), Settle(b, listing), listing.id)
  {
  }

  lemma PublishIsLocal(a: State, b: State, feed: string, listing: Listing, advisory: Advisory)
    requires SameAt(a, b, listing.id)
    ensures SameAt(Publish(a, feed, listing, advisory), Publish(b, feed, listing, advisory), listing.id)
  {
  }

  lemma StepIsLocal(a: State, b: State, feed: string, normalization: nat, outcome: Settlement)
    requires SameAt(a, b, outcome.listing.id)
    ensures SameAt(Step(a, feed, normalization, outcome), Step(b, feed, normalization, outcome), outcome.listing.id)
  {
    SettleIsLocal(a, b, outcome.listing);
    if outcome.fetched.Got? {
      PublishIsLocal(a, b, feed, outcome.listing, outcome.fetched.advisory);
    }
  }

  /** Of outcomes of different listings, each alone decides its advisory. */
  lemma {:induction false} StepsAreLocal(s: State, feed: string, normalization: nat, outcomes: seq<Settlement>, id: string)
    requires ValidOutcomes(outcomes, normalization)
    ensures (forall i :: 0 <= i < |outcomes| ==> outcomes[i].listing.id != id) ==> SameAt(Steps(s, feed, normalization, outcomes), s, id)
    ensures forall i :: 0 <= i < |outcomes| && outcomes[i].listing.id == id ==>
      SameAt(Steps(s, feed, normalization, outcomes), Step(s, feed, normalization, outcomes[i]), id)
    decreases |outcomes|
  {
    if outcomes != [] {
      var n := |outcomes| - 1;
      var before := Steps(s, feed, normalization, outcomes[..n]);
      StepsAreLocal(s, feed, normalization, outcomes[..n], id);
      if outcomes[n].listing.id == id {
        StepIsLocal(before, s, feed, normalization, outcomes[n]);
      } else {
        StepIsElsewhere(before, feed, normalization, outcomes[n], id);
      }
      assert forall i :: 0 <= i < n ==> outcomes[..n][i] == outcomes[i];
    }
  }

  /** What a sync leaves does not depend on the order its fetches completed in. */
  lemma OrderIsNothing(s: State, feed: string, normalization: nat, a: seq<Settlement>, b: seq<Settlement>)
    requires ValidOutcomes(a, normalization) && ValidOutcomes(b, normalization)
    requires forall outcome :: outcome in a <==> outcome in b
    ensures Steps(s, feed, normalization, a) == Steps(s, feed, normalization, b)
  {
    var x, y := Steps(s, feed, normalization, a), Steps(s, feed, normalization, b);
    forall id
      ensures SameAt(x, y, id)
    {
      StepsAreLocal(s, feed, normalization, a, id);
      StepsAreLocal(s, feed, normalization, b, id);
      if i :| 0 <= i < |a| && a[i].listing.id == id {
        assert a[i] in b;
        var j :| 0 <= j < |b| && b[j] == a[i];
      } else {
        forall j | 0 <= j < |b|
          ensures b[j].listing.id != id
        {
          assert b[j] in a;
        }
      }
    }
    SameEverywhere(x, y);
  }

  lemma SameEverywhere(a: State, b: State)
    requires forall id :: SameAt(a, b, id)
    ensures a == b
  {
    assert forall id :: id in a.held <==> id in b.held by {
      forall id ensures id in a.held <==> id in b.held { assert SameAt(a, b, id); }
    }
    assert forall id :: id in a.settled <==> id in b.settled by {
      forall id ensures id in a.settled <==> id in b.settled { assert SameAt(a, b, id); }
    }
    forall id | id in a.held
      ensures a.held[id] == b.held[id]
    {
      assert SameAt(a, b, id);
    }
    forall id | id in a.settled
      ensures a.settled[id] == b.settled[id]
    {
      assert SameAt(a, b, id);
    }
    assert a.held == b.held && a.settled == b.settled;
  }

  /** No outcome takes a held advisory back, and one that is gone, refused, still owed or not published leaves what is held alone. */
  lemma StepNeverGoesBack(s: State, feed: string, normalization: nat, outcome: Settlement)
    ensures NeverBack(s.held, Step(s, feed, normalization, outcome).held)
    ensures !(outcome.fetched.Got? && Publishable(s, normalization, outcome.listing, outcome.fetched.advisory)) ==>
      Step(s, feed, normalization, outcome).held == s.held
  {
  }

  lemma {:induction false} StepsNeverGoBack(s: State, feed: string, normalization: nat, outcomes: seq<Settlement>)
    ensures NeverBack(s.held, Steps(s, feed, normalization, outcomes).held)
    decreases |outcomes|
  {
    if outcomes != [] {
      var n := |outcomes| - 1;
      StepsNeverGoBack(s, feed, normalization, outcomes[..n]);
      StepNeverGoesBack(Steps(s, feed, normalization, outcomes[..n]), feed, normalization, outcomes[n]);
    }
  }

  // ---- What a complete sync still owes ----

  predicate Older(outcome: Settlement) {
    outcome.fetched.Got? && outcome.fetched.advisory.modified < outcome.listing.modified
  }

  lemma OwedAfterStep(s: State, feed: string, normalization: nat, outcome: Settlement)
    requires IsOwed(s, normalization, outcome.listing) && outcome.fetched != Owing
    requires outcome.fetched.Got? ==> outcome.fetched.advisory.normalization == normalization
    ensures IsOwed(Step(s, feed, normalization, outcome), normalization, outcome.listing) <==> Older(outcome)
  {
  }

  /** The outcomes of a sync that owed these listings: one of each, and none still owed. */
  predicate Answers(outcomes: seq<Settlement>, owed: seq<Listing>) {
    && (forall i :: 0 <= i < |outcomes| ==> outcomes[i].listing in owed && outcomes[i].fetched != Owing)
    && forall i :: 0 <= i < |owed| ==> Answered(outcomes, owed[i])
  }

  predicate Answered(outcomes: seq<Settlement>, listing: Listing) {
    exists j :: 0 <= j < |outcomes| && outcomes[j].listing == listing
  }

  predicate AnsweredOlder(outcomes: seq<Settlement>, listing: Listing) {
    exists j :: 0 <= j < |outcomes| && outcomes[j].listing == listing && Older(outcomes[j])
  }

  /** The ids of a feed's listings are different. */
  predicate DistinctListings(listings: seq<Listing>) {
    forall i, j :: 0 <= i < |listings| && 0 <= j < |listings| && listings[i].id == listings[j].id ==> listings[i] == listings[j]
  }

  lemma OwedIsAnswered(s: State, feed: string, normalization: nat, outcomes: seq<Settlement>, j: nat)
    requires ValidOutcomes(outcomes, normalization) && j < |outcomes| && outcomes[j].fetched != Owing
    requires IsOwed(s, normalization, outcomes[j].listing)
    ensures IsOwed(Steps(s, feed, normalization, outcomes), normalization, outcomes[j].listing) <==> Older(outcomes[j])
    ensures AnsweredOlder(outcomes, outcomes[j].listing) <==> Older(outcomes[j])
  {
    StepsAreLocal(s, feed, normalization, outcomes, outcomes[j].listing.id);
    OwedAfterStep(s, feed, normalization, outcomes[j]);
  }

  lemma NotOwedStays(s: State, feed: string, normalization: nat, listings: seq<Listing>, outcomes: seq<Settlement>, listing: Listing)
    requires DistinctListings(listings) && ValidOutcomes(outcomes, normalization) && listing in listings && !IsOwed(s, normalization, listing)
    requires forall i :: 0 <= i < |outcomes| ==> outcomes[i].listing in OwedOf(s, normalization, listings)
    ensures !IsOwed(Steps(s, feed, normalization, outcomes), normalization, listing)
  {
    forall j | 0 <= j < |outcomes|
      ensures outcomes[j].listing.id != listing.id
    {
      OwedIs(s, normalization, listings, outcomes[j].listing);
    }
    StepsAreLocal(s, feed, normalization, outcomes, listing.id);
  }

  /** After a complete sync, a listing is still owed exactly when it was owed and its fetched record was older than it claimed. */
  lemma CompleteOwesOnlyOlder(s: State, feed: string, normalization: nat, listings: seq<Listing>, outcomes: seq<Settlement>, listing: Listing)
    requires DistinctListings(listings) && ValidOutcomes(outcomes, normalization)
    requires Answers(outcomes, OwedOf(s, normalization, listings)) && listing in listings
    ensures IsOwed(Steps(s, feed, normalization, outcomes), normalization, listing)
      <==> IsOwed(s, normalization, listing) && AnsweredOlder(outcomes, listing)
  {
    if IsOwed(s, normalization, listing) {
      var owed := OwedOf(s, normalization, listings);
      OwedIs(s, normalization, listings, listing);
      var k :| 0 <= k < |owed| && owed[k] == listing;
      assert Answered(outcomes, owed[k]);
      var j :| 0 <= j < |outcomes| && outcomes[j].listing == listing;
      OwedIsAnswered(s, feed, normalization, outcomes, j);
    } else {
      NotOwedStays(s, feed, normalization, listings, outcomes, listing);
    }
  }

  // ---- As it runs ----

  predicate Covers(kept: seq<Listing>, listing: Listing) {
    exists k :: 0 <= k < |kept| && kept[k].id == listing.id && kept[k].modified >= listing.modified
  }

  /** Of listings that name an advisory more than once, the newest of each is kept. */
  method Latest(listings: seq<Listing>) returns (kept: seq<Listing>)
    ensures DistinctListings(kept)
    ensures forall i :: 0 <= i < |kept| ==> kept[i] in listings
    ensures forall i :: 0 <= i < |listings| ==> Covers(kept, listings[i])
  {
    var newest: map<string, int> := map[];
    for i := 0 to |listings|
      invariant forall id :: id in newest ==> Listing(id, newest[id]) in listings
      invariant forall j :: 0 <= j < i ==> listings[j].id in newest && listings[j].modified <= newest[listings[j].id]
    {
      var listing := listings[i];
      if listing.id !in newest || listing.modified > newest[listing.id] {
        newest := newest[listing.id := listing.modified];
      }
    }
    kept := [];
    var ids := newest.Keys;
    while ids != {}
      invariant ids <= newest.Keys
      invariant forall i :: 0 <= i < |kept| ==> kept[i].id in newest && kept[i].id !in ids && kept[i].modified == newest[kept[i].id]
      invariant forall id :: id in newest && id !in ids ==> Listing(id, newest[id]) in kept
      decreases |ids|
    {
      var id :| id in ids;
      ids := ids - {id};
      kept := kept + [Listing(id, newest[id])];
    }
    forall i | 0 <= i < |listings|
      ensures Covers(kept, listings[i])
    {
      var id := listings[i].id;
      assert Listing(id, newest[id]) in kept;
    }
  }

  /** The advisories of a batch, published together. */
  function Batched(s: State, feed: string, batch: seq<Settlement>): State
    requires forall i :: 0 <= i < |batch| ==> batch[i].fetched.Got?
    decreases |batch|
  {
    if batch == [] then s
    else
      var n := |batch| - 1;
      Publish(Batched(s, feed, batch[..n]), feed, batch[n].listing, batch[n].fetched.advisory)
  }

  predicate AllGot(batch: seq<Settlement>) {
    forall i :: 0 <= i < |batch| ==> batch[i].fetched.Got?
  }

  predicate Elsewhere(batch: seq<Settlement>, id: string) {
    forall i :: 0 <= i < |batch| ==> batch[i].listing.id != id
  }

  lemma {:induction false} BatchedIsElsewhere(s: State, feed: string, batch: seq<Settlement>, id: string)
    requires AllGot(batch) && Elsewhere(batch, id)
    ensures SameAt(Batched(s, feed, batch), s, id)
    decreases |batch|
  {
    if batch != [] {
      BatchedIsElsewhere(s, feed, batch[..|batch| - 1], id);
    }
  }

  /** Settling another listing and publishing a batch can be done in either order. */
  lemma {:induction false} SettleThenBatch(s: State, feed: string, batch: seq<Settlement>, listing: Listing)
    requires AllGot(batch) && Elsewhere(batch, listing.id)
    ensures Batched(Settle(s, listing), feed, batch) == Settle(Batched(s, feed, batch), listing)
    decreases |batch|
  {
    if batch != [] {
      var n := |batch| - 1;
      SettleThenBatch(s, feed, batch[..n], listing);
      PublishThenSettle(Batched(s, feed, batch[..n]), feed, batch[n].listing, batch[n].fetched.advisory, listing);
    }
  }

  lemma PublishThenSettle(s: State, feed: string, listing: Listing, advisory: Advisory, other: Listing)
    requires listing.id != other.id
    ensures Publish(Settle(s, other), feed, listing, advisory) == Settle(Publish(s, feed, listing, advisory), other)
  {
    assert s.settled[other.id := other.modified][listing.id := listing.modified] == s.settled[listing.id := listing.modified][other.id := other.modified];
  }

  lemma BatchedThen(s: State, feed: string, batch: seq<Settlement>, next: Settlement)
    requires AllGot(batch) && next.fetched.Got?
    ensures AllGot(batch + [next])
    ensures Batched(s, feed, batch + [next]) == Publish(Batched(s, feed, batch), feed, next.listing, next.fetched.advisory)
  {
    assert (batch + [next])[..|batch|] == batch;
  }

  /** Every advisory of a batch is at least as new as what is held. */
  predicate NotOlder(s: State, batch: seq<Settlement>)
    requires AllGot(batch)
  {
    forall i :: 0 <= i < |batch| ==> batch[i].listing.id in s.held ==> s.held[batch[i].listing.id].modified <= batch[i].fetched.advisory.modified
  }

  /** Where a read stands: the outcomes so far are settled but for a batch of different listings not yet published. */
  ghost predicate Standing(start: State, s: State, feed: string, normalization: nat, done: seq<Settlement>, batch: seq<Settlement>) {
    && AllGot(batch) && NotOlder(s, batch)
    && (forall i, j :: 0 <= i < j < |batch| ==> batch[i].listing.id != batch[j].listing.id)
    && (forall i :: 0 <= i < |batch| ==> batch[i] in done)
    && Batched(s, feed, batch) == Steps(start, feed, normalization, done)
  }

  /** Where a read stands, whether or not the log has refused a batch of it. */
  ghost predicate Reading(start: State, s: State, feed: string, normalization: nat, done: seq<Settlement>, batch: seq<Settlement>, refused: bool) {
    NeverBack(start.held, s.held) && AllGot(batch) && (!refused ==> Standing(start, s, feed, normalization, done, batch))
  }

  /** Some fetch could not be made now. */
  predicate Owes(outcomes: seq<Settlement>) {
    exists i :: 0 <= i < |outcomes| && outcomes[i].fetched == Owing
  }

  lemma OwesThen(outcomes: seq<Settlement>, next: Settlement)
    ensures Owes(outcomes + [next]) <==> Owes(outcomes) || next.fetched == Owing
  {
    var all := outcomes + [next];
    assert all[|outcomes|] == next && forall i :: 0 <= i < |outcomes| ==> all[i] == outcomes[i];
    if Owes(outcomes) {
      var i :| 0 <= i < |outcomes| && outcomes[i].fetched == Owing;
      assert all[i].fetched == Owing;
    }
  }

  predicate NewIn(done: seq<Settlement>, id: string) {
    forall i :: 0 <= i < |done| ==> done[i].listing.id != id
  }

  lemma StepsThen(start: State, feed: string, normalization: nat, done: seq<Settlement>, next: Settlement)
    ensures Steps(start, feed, normalization, done + [next]) == Step(Steps(start, feed, normalization, done), feed, normalization, next)
  {
    assert (done + [next])[..|done|] == done;
  }

  lemma StandingThen(start: State, s: State, feed: string, normalization: nat, done: seq<Settlement>, batch: seq<Settlement>, next: Settlement)
    requires Standing(start, s, feed, normalization, done, batch) && NewIn(done, next.listing.id)
    ensures var published := next.fetched.Got? && Publishable(s, normalization, next.listing, next.fetched.advisory);
      && (published ==> Standing(start, s, feed, normalization, done + [next], batch + [next]))
      && (!published ==> Standing(start, Step(s, feed, normalization, next), feed, normalization, done + [next], batch))
  {
    var listing := next.listing;
    assert Elsewhere(batch, listing.id);
    BatchedIsElsewhere(s, feed, batch, listing.id);
    StepsThen(start, feed, normalization, done, next);
    SettleThenBatch(s, feed, batch, listing);
    if next.fetched.Got? {
      BatchedThen(s, feed, batch, next);
    }
  }

  lemma {:induction false} BatchNeverGoesBack(s: State, feed: string, batch: seq<Settlement>)
    requires AllGot(batch) && NotOlder(s, batch)
    requires forall i, j :: 0 <= i < j < |batch| ==> batch[i].listing.id != batch[j].listing.id
    ensures NeverBack(s.held, Batched(s, feed, batch).held)
    decreases |batch|
  {
    if batch != [] {
      var n := |batch| - 1;
      BatchNeverGoesBack(s, feed, batch[..n]);
      assert Elsewhere(batch[..n], batch[n].listing.id);
      BatchedIsElsewhere(s, feed, batch[..n], batch[n].listing.id);
    }
  }

  lemma StandingFlushed(start: State, s: State, feed: string, normalization: nat, done: seq<Settlement>, batch: seq<Settlement>)
    requires Standing(start, s, feed, normalization, done, batch)
    ensures Standing(start, Batched(s, feed, batch), feed, normalization, done, [])
    ensures NeverBack(s.held, Batched(s, feed, batch).held)
  {
    BatchNeverGoesBack(s, feed, batch);
  }

  class Follower {
    const feed: string
    const normalization: nat
    const batchSize: nat
    var held: map<string, Holding>
    var settled: map<string, int>
    var listings: seq<Listing>

    constructor (feed: string, normalization: nat, batchSize: nat)
      requires batchSize > 0
      ensures this.feed == feed && this.normalization == normalization && this.batchSize == batchSize
      ensures held == map[] && settled == map[] && listings == []
    {
      this.feed, this.normalization, this.batchSize := feed, normalization, batchSize;
      held, settled, listings := map[], map[], [];
    }

    function Now(): State
      reads this
    {
      State(held, settled)
    }

    method Keep(origin: string, advisory: Advisory)
      modifies this`held
      ensures held == Kept(old(held), origin, advisory) && NeverBack(old(held), held)
    {
      if advisory.id in held && advisory.modified < held[advisory.id].modified {
        return;
      }
      held := held[advisory.id := Holding(origin, advisory.modified, advisory.normalization, advisory.statement)];
    }

    method Owed() returns (owed: seq<Listing>)
      ensures owed == OwedOf(Now(), normalization, listings)
    {
      owed := [];
      for i := 0 to |listings|
        invariant owed == OwedOf(Now(), normalization, listings[..i])
      {
        var listing := listings[i];
        assert listings[..i + 1][..i] == listings[..i] && owed + [] == owed;
        if listing.id in settled && listing.modified <= settled[listing.id] {
          continue;
        }
        if listing.id in held && held[listing.id].normalization >= normalization && listing.modified <= held[listing.id].modified {
          continue;
        }
        owed := owed + [listing];
      }
      assert listings[..|listings|] == listings;
    }

    method PublishBatch(batch: seq<Settlement>)
      requires AllGot(batch)
      modifies this`held, this`settled
      ensures Now() == Batched(old(Now()), feed, batch)
    {
      ghost var start := Now();
      for i := 0 to |batch|
        invariant Now() == Batched(start, feed, batch[..i])
      {
        assert batch[..i + 1] == batch[..i] + [batch[i]];
        BatchedThen(start, feed, batch[..i], batch[i]);
        var listing, advisory := batch[i].listing, batch[i].fetched.advisory;
        held := held[listing.id := Holding(feed, advisory.modified, advisory.normalization, advisory.statement)];
        if advisory.modified >= listing.modified {
          settled := settled[listing.id := listing.modified];
        }
      }
      assert batch[..|batch|] == batch;
    }

    /** Settles an outcome, or holds it back to be published with others. */
    method Take(outcome: Settlement, batch: seq<Settlement>) returns (more: seq<Settlement>)
      modifies this`settled
      ensures var published := outcome.fetched.Got? && Publishable(old(Now()), normalization, outcome.listing, outcome.fetched.advisory);
        if published then Now() == old(Now()) && more == batch + [outcome]
        else Now() == Step(old(Now()), feed, normalization, outcome) && more == batch
    {
      more := batch;
      match outcome.fetched {
        case Owing =>
        case Gone => settled := settled[outcome.listing.id := outcome.listing.modified];
        case Refused => settled := settled[outcome.listing.id := outcome.listing.modified];
        case Got(advisory) =>
          if Publishable(Now(), normalization, outcome.listing, advisory) {
            more := batch + [outcome];
          } else if advisory.modified >= outcome.listing.modified {
            settled := settled[outcome.listing.id := outcome.listing.modified];
          }
      }
    }

    /** Publishes a batch unless the log has refused one, or refuses this one; `left` is how many more it takes. */
    method Flush(batch: seq<Settlement>, wasRefused: bool, taken: nat) returns (refused: bool, left: nat)
      requires AllGot(batch)
      modifies this`held, this`settled
      ensures batch == [] || wasRefused || taken == 0 ==> Now() == old(Now()) && left == taken
      ensures refused <==> wasRefused || (batch != [] && taken == 0)
      ensures !refused ==> Now() == Batched(old(Now()), feed, batch)
    {
      if batch == [] || wasRefused {
        return wasRefused, taken;
      }
      if taken == 0 {
        return true, 0;
      }
      PublishBatch(batch);
      return false, taken - 1;
    }

    /** One outcome of a read: taken, and the batch published if it is full. */
    method TakeNext(outcome: Settlement, batch: seq<Settlement>, wasRefused: bool, taken: nat, ghost start: State, ghost done: seq<Settlement>)
      returns (more: seq<Settlement>, refused: bool, left: nat)
      requires Reading(start, Now(), feed, normalization, done, batch, wasRefused) && NewIn(done, outcome.listing.id)
      modifies this`held, this`settled
      ensures Reading(start, Now(), feed, normalization, done + [outcome], more, refused)
      ensures wasRefused ==> refused
    {
      if !wasRefused {
        StandingThen(start, Now(), feed, normalization, done, batch, outcome);
      }
      more := Take(outcome, batch);
      if |more| < batchSize {
        return more, wasRefused, taken;
      }
      if !wasRefused {
        StandingFlushed(start, Now(), feed, normalization, done + [outcome], more);
      }
      refused, left := Flush(more, wasRefused, taken);
      more := [];
    }

    /**
     Outcomes are settled as they complete and advisories published in batches, of which the log takes some number before
     it refuses one.  Unless it refuses, what is left is what settling and publishing every outcome at once would leave;
     whether or not it does, nothing held goes back.
     */
    method Read(outcomes: seq<Settlement>, taken: nat) returns (stranded: bool, refused: bool)
      requires ValidOutcomes(outcomes, normalization) && batchSize > 0
      modifies this`held, this`settled
      ensures NeverBack(old(held), held)
      ensures !refused ==> Now() == Steps(old(Now()), feed, normalization, outcomes)
      ensures stranded <==> refused || Owes(outcomes)
    {
      ghost var start := Now();
      var batch: seq<Settlement>, left := [], taken;
      var owing := false;
      refused := false;
      for i := 0 to |outcomes|
        invariant Reading(start, Now(), feed, normalization, outcomes[..i], batch, refused)
        invariant owing <==> Owes(outcomes[..i])
      {
        assert outcomes[..i + 1] == outcomes[..i] + [outcomes[i]];
        assert NewIn(outcomes[..i], outcomes[i].listing.id);
        OwesThen(outcomes[..i], outcomes[i]);
        batch, refused, left := TakeNext(outcomes[i], batch, refused, left, start, outcomes[..i]);
        owing := owing || outcomes[i].fetched == Owing;
      }
      assert outcomes[..|outcomes|] == outcomes;
      if !refused {
        StandingFlushed(start, Now(), feed, normalization, outcomes, batch);
      }
      refused, left := Flush(batch, refused, left);
      stranded := owing || refused;
    }
  }
}
