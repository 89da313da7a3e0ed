/**
 Whether an event completed the ordered story a rule is written for (internal/analysis/sequence.go),
 decided over the window the platform keeps for one rule and one group (internal/detectionstate/keeper.go).

 An arrival is folded into a window kept in event time, and the story is complete when the window holds, in
 event time, an event for every stage.  The fold that made the window completable decides, so a story is to be
 found once however the backbone delivered it.
 */
module Sequence {
  import opened Sets

  /** An event as the platform names it: by the agent that sent it and the identifier it gave. */
  datatype EventName = EventName(agent: string, id: string)

  /** `stages` are the bits of the value an observation carries: the stages its event satisfies. */
  datatype Observation = Observation(event: EventName, at: int, stages: set<nat>, skew: int)

  const NOBODY := EventName("", "")

  // ---- The earliest assignment of a window to the stages ----

  /** Observations for the first stages, in the order the window keeps them. */
  predicate Chain(window: seq<Observation>, without: EventName, picks: seq<nat>) {
    && (forall i :: 0 <= i < |picks| ==>
          && picks[i] < |window| && window[picks[i]].event != without && i in window[picks[i]].stages)
    && forall i, j :: 0 <= i < j < |picks| ==> picks[i] < picks[j]
  }

  ghost predicate Completable(window: seq<Observation>, stages: nat, without: EventName) {
    exists picks :: |picks| == stages && Chain(window, without, picks)
  }

  function Extended(window: seq<Observation>, without: EventName, picks: seq<nat>): (longer: seq<nat>)
    requires window != [] && window[|window| - 1].event != without && |picks| in window[|window| - 1].stages
    requires Chain(window, without, picks) && forall i :: 0 <= i < |picks| ==> picks[i] < |window| - 1
    ensures Chain(window, without, longer)
  {
    picks + [|window| - 1]
  }

  /** The picks of a scan of the window, each the first that the stage it stands for allows. */
  function Earliest(window: seq<Observation>, stages: nat, without: EventName): (picks: seq<nat>)
    ensures |picks| <= stages && Chain(window, without, picks)
    decreases |window|
  {
    if window == [] then []
    else
      var n := |window| - 1;
      var picks := Earliest(window[..n], stages, without);
      assert forall i :: 0 <= i < |picks| ==> picks[i] < n && window[..n][picks[i]] == window[picks[i]];
      assert Chain(window, without, picks);
      if |picks| < stages && window[n].event != without && |picks| in window[n].stages then Extended(window, without, picks)
      else picks
  }

  lemma ChainIsInside(window: seq<Observation>, without: EventName, picks: seq<nat>)
    requires Chain(window, without, picks)
    ensures forall i :: 0 <= i < |picks| ==> picks[i] < |window|
  {
  }

  lemma ChainBefore(window: seq<Observation>, without: EventName, picks: seq<nat>, n: nat)
    requires Chain(window, without, picks) && n <= |window| && forall i :: 0 <= i < |picks| ==> picks[i] < n
    ensures Chain(window[..n], without, picks)
  {
  }

  /** What one more observation makes of the earliest chain. */
  lemma EarliestGrows(window: seq<Observation>, stages: nat, without: EventName)
    requires window != []
    ensures var n := |window| - 1;
      var before, least := Earliest(window[..n], stages, without), Earliest(window, stages, without);
      && before <= least
      && (|before| < stages && window[n].event != without && |before| in window[n].stages ==> least == before + [n])
  {
  }

  /** One assignment is as long as another, and ahead of it nowhere. */
  predicate NoLater(least: seq<nat>, picks: seq<nat>) {
    |picks| <= |least| && forall i :: 0 <= i < |picks| ==> least[i] <= picks[i]
  }

  lemma NoLaterStill(before: seq<nat>, least: seq<nat>, picks: seq<nat>)
    requires NoLater(before, picks) && before <= least
    ensures NoLater(least, picks)
  {
  }

  lemma NoLaterThen(before: seq<nat>, least: seq<nat>, picks: seq<nat>, n: nat)
    requires picks != [] && picks[|picks| - 1] == n && NoLater(before, picks[..|picks| - 1]) && before <= least
    requires (forall i :: 0 <= i < |before| ==> before[i] < n) && (|before| < |picks| ==> least == before + [n])
    ensures NoLater(least, picks)
  {
  }

  /** No chain is longer than the earliest one, or ahead of it at any stage. */
  lemma {:induction false} EarliestIsLeast(window: seq<Observation>, stages: nat, without: EventName, picks: seq<nat>)
    requires Chain(window, without, picks) && |picks| <= stages
    ensures NoLater(Earliest(window, stages, without), picks)
    decreases |window|
  {
    if picks != [] {
      assert picks[0] < |window|;
      var n, m := |window| - 1, |picks| - 1;
      var before, least := Earliest(window[..n], stages, without), Earliest(window, stages, without);
      EarliestGrows(window, stages, without);
      if picks[m] == n {
        EndsAtLast(window, without, picks);
        ChainIsInside(window[..n], without, before);
        EarliestIsLeast(window[..n], stages, without, picks[..m]);
        NoLaterThen(before, least, picks, n);
      } else {
        assert forall i :: 0 <= i < |picks| ==> picks[i] <= picks[m];
        ChainBefore(window, without, picks, n);
        EarliestIsLeast(window[..n], stages, without, picks);
        NoLaterStill(before, least, picks);
      }
    }
  }

  /** A chain that ends at the last observation, without it. */
  lemma EndsAtLast(window: seq<Observation>, without: EventName, picks: seq<nat>)
    requires Chain(window, without, picks) && picks != [] && window != [] && picks[|picks| - 1] == |window| - 1
    ensures Chain(window[..|window| - 1], without, picks[..|picks| - 1])
    ensures window[|window| - 1].event != without && |picks| - 1 in window[|window| - 1].stages
  {
    var others := picks[..|picks| - 1];
    assert Chain(window, without, others) && forall i :: 0 <= i < |others| ==> others[i] < |window| - 1;
    ChainBefore(window, without, others, |window| - 1);
  }

  lemma EarliestDecides(window: seq<Observation>, stages: nat, without: EventName)
    ensures |Earliest(window, stages, without)| == stages <==> Completable(window, stages, without)
  {
    if Completable(window, stages, without) {
      var picks :| |picks| == stages && Chain(window, without, picks);
      EarliestIsLeast(window, stages, without, picks);
    }
  }

  function Picked(window: seq<Observation>, picks: seq<nat>): seq<Observation>
    requires forall i :: 0 <= i < |picks| ==> picks[i] < |window|
  {
    seq(|picks|, i requires 0 <= i < |picks| => window[picks[i]])
  }

  /**
   `ordered`: it succeeds exactly when some assignment of the window to the stages does, and tells the one
   that is earliest at every stage.
   */
  method Ordered(window: seq<Observation>, stages: nat, without: EventName)
    returns (told: seq<Observation>, complete: bool, ghost picks: seq<nat>)
    ensures complete <==> Completable(window, stages, without)
    ensures |told| == |picks| && Chain(window, without, picks) && told == Picked(window, picks)
    ensures complete ==> |told| == stages
    ensures forall other :: Chain(window, without, other) && |other| <= stages ==> NoLater(picks, other)
  {
    told, picks := [], [];
    var index := 0;
    while index < |window|
      invariant index <= |window|
      invariant picks == Earliest(window[..index], stages, without)
      invariant Chain(window, without, picks) && told == Picked(window, picks)
    {
      if |told| == stages {
        EarliestStays(window, index, stages, without);
        break;
      }
      var seen := window[index];
      assert window[..index + 1][..index] == window[..index];
      if seen.event != without && |told| in seen.stages {
        told, picks := told + [seen], picks + [index];
      }
      index := index + 1;
    }
    assert window[..|window|] == window;
    complete := |told| == stages;
    EarliestDecides(window, stages, without);
    EarliestIsLeastOfAll(window, stages, without);
  }

  lemma EarliestIsLeastOfAll(window: seq<Observation>, stages: nat, without: EventName)
    ensures forall other :: Chain(window, without, other) && |other| <= stages ==> NoLater(Earliest(window, stages, without), other)
  {
    forall other | Chain(window, without, other) && |other| <= stages
      ensures NoLater(Earliest(window, stages, without), other)
    {
      EarliestIsLeast(window, stages, without, other);
    }
  }

  /** Once every stage has its event, the rest of the window changes nothing. */
  lemma {:induction false} EarliestStays(window: seq<Observation>, index: nat, stages: nat, without: EventName)
    requires index <= |window| && |Earliest(window[..index], stages, without)| == stages
    ensures Earliest(window, stages, without) == Earliest(window[..index], stages, without)
    decreases |window|
  {
    if index < |window| {
      var n := |window| - 1;
      assert window[..n][..index] == window[..index];
      EarliestStays(window[..n], index, stages, without);
    } else {
      assert window[..index] == window;
    }
  }

  /** `correlated`: how far apart the clocks that timed the story stood. */
  method ClockSpread(told: seq<Observation>) returns (spread: int)
    requires told != []
    ensures forall i, j :: 0 <= i < |told| && 0 <= j < |told| ==> told[i].skew - told[j].skew <= spread
    ensures exists i, j :: 0 <= i < |told| && 0 <= j < |told| && told[i].skew - told[j].skew == spread
  {
    var widest, narrowest := told[0].skew, told[0].skew;
    ghost var w, n := 0, 0;
    for index := 0 to |told|
      invariant forall i :: 0 <= i < index ==> narrowest <= told[i].skew <= widest
      invariant 0 <= w < |told| && 0 <= n < |told| && told[w].skew == widest && told[n].skew == narrowest
    {
      if widest < told[index].skew { widest, w := told[index].skew, index; }
      if told[index].skew < narrowest { narrowest, n := told[index].skew, index; }
    }
    spread := widest - narrowest;
    assert told[w].skew - told[n].skew == spread;
  }

  // ---- The window a key keeps ----

  datatype Folded = Repeated | TooLate | Kept

  function Last(seen: seq<Observation>): int
    requires seen != []
  {
    seen[|seen| - 1].at
  }

  /** Where an observation goes: after everything that happened no later than it did. */
  function Place(seen: seq<Observation>, at: int): (index: nat)
    ensures index <= |seen|
    ensures index < |seen| ==> seen[index].at > at
    ensures forall i :: 0 <= i < index ==> seen[i].at <= at
  {
    if seen == [] || seen[0].at > at then 0 else 1 + Place(seen[1..], at)
  }

  function Inserted(seen: seq<Observation>, o: Observation): seq<Observation> {
    var index := Place(seen, o.at);
    seen[..index] + [o] + seen[index..]
  }

  function Expired(seen: seq<Observation>, cutoff: int): seq<Observation> {
    if seen != [] && seen[0].at < cutoff then Expired(seen[1..], cutoff) else seen
  }

  /** The newest instant a window and an arrival name. */
  function Newest(seen: seq<Observation>, o: Observation): int {
    if seen != [] && Last(seen) > o.at then Last(seen) else o.at
  }

  /** The newest observations, as many as a key may hold. */
  function Trimmed(window: seq<Observation>, ceiling: nat): seq<Observation> {
    if |window| > ceiling then window[|window| - ceiling..] else window
  }

  /** `held.observe`: the window after an observation, and what became of the observation. */
  function Observe(seen: seq<Observation>, o: Observation, span: int, ceiling: nat): (Folded, seq<Observation>) {
    if exists i :: 0 <= i < |seen| && seen[i].event == o.event then (Repeated, seen)
    else
      var cutoff := Newest(seen, o) - span;
      var kept := Expired(seen, cutoff);
      if o.at < cutoff then (TooLate, kept) else (Kept, Trimmed(Inserted(kept, o), ceiling))
  }

  /** `completed`: whether this arrival completed the story, and the window it leaves. */
  ghost function Completed(seen: seq<Observation>, o: Observation, stages: nat, span: int, ceiling: nat): (bool, seq<Observation>) {
    if o.stages == {} then (false, seen)
    else
      var (folded, window) := Observe(seen, o, span, ceiling);
      (folded == Kept && Completable(window, stages, NOBODY) && !Completable(window, stages, o.event), window)
  }

  /** One rule's memory of one group, as the process that decides holds it. */
  class Memory {
    const stages: nat
    const span: int
    const ceiling: nat
    var seen: seq<Observation>

    constructor (stages: nat, span: int, ceiling: nat)
      ensures this.stages == stages && this.span == span && this.ceiling == ceiling && seen == []
    {
      this.stages, this.span, this.ceiling := stages, span, ceiling;
      seen := [];
    }

    /** `Engine.completed`: fold the arrival, then ask whether the window is complete with it and was not without it. */
    method Complete(o: Observation) returns (fired: bool, told: seq<Observation>)
      modifies this`seen
      ensures (fired, seen) == Completed(old(seen), o, stages, span, ceiling)
      ensures fired ==> |told| == stages && exists i :: 0 <= i < |told| && told[i].event == o.event
    {
      fired, told := false, [];
      if o.stages == {} {
        return;
      }
      var (folded, window) := Observe(seen, o, span, ceiling);
      seen := window;
      if folded != Kept {
        return;
      }
      var complete, before;
      ghost var picks, others;
      told, complete, picks := Ordered(window, stages, NOBODY);
      if !complete {
        return;
      }
      var earlier;
      earlier, before, others := Ordered(window, stages, o.event);
      fired := !before;
      if fired {
        CompletingEventIsTold(window, stages, o.event, picks);
        ghost var i :| 0 <= i < |picks| && window[picks[i]].event == o.event;
        assert told[i].event == o.event;
      }
    }
  }

  /** A story only this event completes is one it tells a part of. */
  lemma CompletingEventIsTold(window: seq<Observation>, stages: nat, event: EventName, picks: seq<nat>)
    requires Chain(window, NOBODY, picks) && |picks| == stages && !Completable(window, stages, event)
    ensures exists i :: 0 <= i < |picks| && window[picks[i]].event == event
  {
    if forall i :: 0 <= i < |picks| ==> window[picks[i]].event != event {
      assert Chain(window, event, picks);
    }
  }

  // ---- A story is found once, whatever order its events arrive in ----

  function Window(arrivals: seq<Observation>, span: int, ceiling: nat): seq<Observation>
    decreases |arrivals|
  {
    if arrivals == [] then []
    else
      var n := |arrivals| - 1;
      var seen := Window(arrivals[..n], span, ceiling);
      if arrivals[n].stages == {} then seen else Observe(seen, arrivals[n], span, ceiling).1
  }

  /** How often a run of arrivals is found to complete the story. */
  ghost function Fires(arrivals: seq<Observation>, stages: nat, span: int, ceiling: nat): nat
    decreases |arrivals|
  {
    if arrivals == [] then 0
    else
      var n := |arrivals| - 1;
      Fires(arrivals[..n], stages, span, ceiling) +
      (if Completed(Window(arrivals[..n], span, ceiling), arrivals[n], stages, span, ceiling).0 then 1 else 0)
  }

  function Elements(arrivals: seq<Observation>): set<Observation> {
    set o | o in arrivals
  }

  /** Those of the arrivals that satisfy any stage, which are the ones a key remembers. */
  function Staged(arrivals: seq<Observation>): set<Observation> {
    set o | o in arrivals && o.stages != {}
  }

  /** A set of events tells the story: one event for each stage, in the order of event time. */
  ghost predicate Tells(events: set<Observation>, tale: seq<Observation>) {
    && (forall i :: 0 <= i < |tale| ==> tale[i] in events && i in tale[i].stages)
    && forall i, j :: 0 <= i < j < |tale| ==> tale[i].at < tale[j].at
  }

  ghost predicate Admits(events: set<Observation>, stages: nat) {
    exists tale :: |tale| == stages && Tells(events, tale)
  }

  /** Arrivals a window holds whole: named, an event redelivered as it was, inside one span and under the ceiling. */
  ghost predicate Stream(arrivals: seq<Observation>, span: int, ceiling: nat) {
    && (forall i :: 0 <= i < |arrivals| ==> arrivals[i].event != NOBODY)
    && (forall i, j :: 0 <= i < |arrivals| && 0 <= j < |arrivals| && arrivals[i].event == arrivals[j].event ==> arrivals[i] == arrivals[j])
    && (forall i, j :: 0 <= i < |arrivals| && 0 <= j < |arrivals| ==> arrivals[i].at - arrivals[j].at <= span)
    && |Elements(arrivals)| <= ceiling
  }

  /** No two events happened at the same instant. */
  ghost predicate Untied(arrivals: seq<Observation>) {
    forall i, j :: 0 <= i < |arrivals| && 0 <= j < |arrivals| && arrivals[i].at == arrivals[j].at ==> arrivals[i] == arrivals[j]
  }

  predicate InTime(window: seq<Observation>) {
    forall i, j :: 0 <= i < j < |window| ==> window[i].at < window[j].at
  }

  lemma {:induction false} InTimeIsDistinct(window: seq<Observation>)
    requires InTime(window)
    ensures |Elements(window)| == |window|
    decreases |window|
  {
    if window != [] {
      var n := |window| - 1;
      InTimeIsDistinct(window[..n]);
      assert window == window[..n] + [window[n]];
      assert Elements(window) == Elements(window[..n]) + {window[n]};
      assert window[n] !in Elements(window[..n]);
    }
  }

  lemma InsertedInTime(window: seq<Observation>, o: Observation)
    requires InTime(window) && forall i :: 0 <= i < |window| ==> window[i].at != o.at
    ensures InTime(Inserted(window, o)) && Elements(Inserted(window, o)) == Elements(window) + {o}
  {
    InsertedElements(window, o);
    InsertedOrder(window, o);
  }

  lemma InsertedElements(window: seq<Observation>, o: Observation)
    ensures Elements(Inserted(window, o)) == Elements(window) + {o}
  {
    var index := Place(window, o.at);
    assert window == window[..index] + window[index..];
  }

  /** What an insertion leaves at each place. */
  lemma InsertedAt(window: seq<Observation>, o: Observation, i: nat)
    requires i <= |window|
    ensures |Inserted(window, o)| == |window| + 1
    ensures var index := Place(window, o.at);
      Inserted(window, o)[i] == if i < index then window[i] else if i == index then o else window[i - 1]
  {
  }

  lemma InsertedOrder(window: seq<Observation>, o: Observation)
    requires InTime(window) && forall i :: 0 <= i < |window| ==> window[i].at != o.at
    ensures InTime(Inserted(window, o))
  {
    var now := Inserted(window, o);
    forall i, j | 0 <= i < j < |now|
      ensures now[i].at < now[j].at
    {
      InsertedAt(window, o, i);
      InsertedAt(window, o, j);
    }
  }

  lemma NothingExpires(window: seq<Observation>, cutoff: int)
    requires forall i :: 0 <= i < |window| ==> cutoff <= window[i].at
    ensures Expired(window, cutoff) == window
  {
  }

  /** What a window holds of a stream: each staged event once, in event time. */
  ghost predicate Holds(window: seq<Observation>, arrivals: seq<Observation>) {
    InTime(window) && Elements(window) == Staged(arrivals)
  }

  lemma HeldArrived(window: seq<Observation>, arrivals: seq<Observation>, i: nat)
    requires Holds(window, arrivals) && i < |window|
    ensures exists j :: 0 <= j < |arrivals| && window[i] == arrivals[j]
  {
    assert window[i] in Elements(window);
  }

  lemma RepeatHolds(window: seq<Observation>, arrivals: seq<Observation>, o: Observation, span: int, ceiling: nat)
    requires Holds(window, arrivals) && o in Elements(window)
    ensures Observe(window, o, span, ceiling) == (Repeated, window) && Holds(window, arrivals + [o])
  {
    assert Staged(arrivals + [o]) == Staged(arrivals);
  }

  lemma FreshFits(window: seq<Observation>, arrivals: seq<Observation>, o: Observation, span: int, ceiling: nat, i: nat)
    requires Stream(arrivals + [o], span, ceiling) && Untied(arrivals + [o])
    requires Holds(window, arrivals) && o !in Elements(window) && i < |window|
    ensures window[i].event != o.event && window[i].at != o.at && o.at - window[i].at <= span
    ensures Last(window) - window[i].at <= span && Last(window) - o.at <= span
  {
    HeldArrived(window, arrivals, i);
    HeldArrived(window, arrivals, |window| - 1);
    var j :| 0 <= j < |arrivals| && window[i] == arrivals[j];
    var k :| 0 <= k < |arrivals| && window[|window| - 1] == arrivals[k];
    var all := arrivals + [o];
    assert all[j] == window[i] && Last(window) == all[k].at && all[|arrivals|] == o;
    assert window[i] in Elements(window);
  }

  /** An observation inside the span of everything held is kept, and pushes nothing out. */
  lemma FreshIsKept(window: seq<Observation>, o: Observation, span: int, ceiling: nat)
    requires forall i :: 0 <= i < |window| ==> window[i].event != o.event && o.at - window[i].at <= span && Last(window) - window[i].at <= span
    requires 0 <= span && (window != [] ==> Last(window) - o.at <= span) && |window| < ceiling
    ensures Observe(window, o, span, ceiling) == (Kept, Inserted(window, o))
  {
    NothingExpires(window, Newest(window, o) - span);
  }

  lemma FreshHolds(window: seq<Observation>, arrivals: seq<Observation>, o: Observation, span: int, ceiling: nat)
    requires Stream(arrivals + [o], span, ceiling) && Untied(arrivals + [o])
    requires Holds(window, arrivals) && o !in Elements(window) && o.stages != {}
    ensures Observe(window, o, span, ceiling) == (Kept, Inserted(window, o)) && Holds(Inserted(window, o), arrivals + [o])
  {
    forall i | 0 <= i < |window|
      ensures window[i].event != o.event && window[i].at != o.at && o.at - window[i].at <= span
      ensures Last(window) - window[i].at <= span && Last(window) - o.at <= span
    {
      FreshFits(window, arrivals, o, span, ceiling, i);
    }
    InsertedInTime(window, o);
    InTimeIsDistinct(Inserted(window, o));
    assert Staged(arrivals + [o]) == Staged(arrivals) + {o};
    NoMore(Staged(arrivals + [o]), Elements(arrivals + [o]));
    assert (arrivals + [o])[|arrivals|] == o;
    if window != [] { assert window[0].event != o.event; }
    FreshIsKept(window, o, span, ceiling);
  }

  function Besides(window: seq<Observation>, event: EventName): set<Observation> {
    set o | o in window && o.event != event
  }

  /** Over a window kept strictly in event time, picking stages in order is telling the story. */
  lemma CompletableIsAdmitted(window: seq<Observation>, stages: nat, without: EventName)
    requires InTime(window)
    ensures Completable(window, stages, without) <==> Admits(Besides(window, without), stages)
  {
    var events := Besides(window, without);
    if Completable(window, stages, without) {
      var picks :| |picks| == stages && Chain(window, without, picks);
      assert Tells(events, Picked(window, picks));
    }
    if Admits(events, stages) {
      var tale :| |tale| == stages && Tells(events, tale);
      var picks := TalePicks(window, without, tale);
      assert Chain(window, without, picks);
    }
  }

  lemma LaterIsAfter(window: seq<Observation>, a: nat, b: nat)
    requires InTime(window) && a < |window| && b < |window| && window[a].at < window[b].at
    ensures a < b
  {
  }

  lemma ChainGoesOn(window: seq<Observation>, without: EventName, picks: seq<nat>, k: nat)
    requires Chain(window, without, picks) && k < |window| && window[k].event != without && |picks| in window[k].stages
    requires forall i :: 0 <= i < |picks| ==> picks[i] < k
    ensures Chain(window, without, picks + [k])
  {
  }

  lemma {:induction false} TalePicks(window: seq<Observation>, without: EventName, tale: seq<Observation>) returns (picks: seq<nat>)
    requires InTime(window) && Tells(Besides(window, without), tale)
    ensures |picks| == |tale| && Chain(window, without, picks)
    ensures forall i :: 0 <= i < |tale| ==> window[picks[i]] == tale[i]
    decreases |tale|
  {
    if tale == [] {
      picks := [];
    } else {
      var n := |tale| - 1;
      var before := TalePicks(window, without, tale[..n]);
      assert tale[n] in Besides(window, without);
      var k: nat :| k < |window| && window[k] == tale[n];
      forall i | 0 <= i < n
        ensures before[i] < k
      {
        assert window[before[i]] == tale[i] && tale[i].at < tale[n].at;
        LaterIsAfter(window, before[i], k);
      }
      ChainGoesOn(window, without, before, k);
      picks := before + [k];
    }
  }

  lemma ArrivalHolds(window: seq<Observation>, arrivals: seq<Observation>, o: Observation, span: int, ceiling: nat)
    requires Stream(arrivals + [o], span, ceiling) && Untied(arrivals + [o]) && Holds(window, arrivals)
    ensures Holds(if o.stages == {} then window else Observe(window, o, span, ceiling).1, arrivals + [o])
  {
    if o.stages == {} {
      assert Staged(arrivals + [o]) == Staged(arrivals);
    } else if o in Elements(window) {
      RepeatHolds(window, arrivals, o, span, ceiling);
    } else {
      FreshHolds(window, arrivals, o, span, ceiling);
    }
  }

  lemma {:induction false} WindowHolds(arrivals: seq<Observation>, span: int, ceiling: nat)
    requires Stream(arrivals, span, ceiling) && Untied(arrivals)
    ensures Holds(Window(arrivals, span, ceiling), arrivals)
    decreases |arrivals|
  {
    if arrivals != [] {
      var n := |arrivals| - 1;
      assert arrivals == arrivals[..n] + [arrivals[n]];
      PrefixStream(arrivals, span, ceiling);
      WindowHolds(arrivals[..n], span, ceiling);
      ArrivalHolds(Window(arrivals[..n], span, ceiling), arrivals[..n], arrivals[n], span, ceiling);
    }
  }

  lemma PrefixStream(arrivals: seq<Observation>, span: int, ceiling: nat)
    requires arrivals != [] && Stream(arrivals, span, ceiling) && Untied(arrivals)
    ensures Stream(arrivals[..|arrivals| - 1], span, ceiling) && Untied(arrivals[..|arrivals| - 1])
  {
    NoMore(Elements(arrivals[..|arrivals| - 1]), Elements(arrivals));
  }

  /** An arrival fires exactly when the events so far tell the story and those before it did not. */
  lemma FiresWhenTold(arrivals: seq<Observation>, stages: nat, span: int, ceiling: nat)
    requires arrivals != [] && Stream(arrivals, span, ceiling) && Untied(arrivals)
    ensures var n := |arrivals| - 1;
      Completed(Window(arrivals[..n], span, ceiling), arrivals[n], stages, span, ceiling).0
      <==> (Admits(Staged(arrivals), stages) && !Admits(Staged(arrivals[..n]), stages))
  {
    var n := |arrivals| - 1;
    var o, before := arrivals[n], arrivals[..n];
    assert arrivals == before + [o];
    PrefixStream(arrivals, span, ceiling);
    WindowHolds(before, span, ceiling);
    var window := Window(before, span, ceiling);
    if o.stages == {} {
      assert Staged(arrivals) == Staged(before);
    } else if o in Elements(window) {
      RepeatHolds(window, before, o, span, ceiling);
      assert Staged(arrivals) == Staged(before);
    } else {
      FreshFires(window, arrivals, stages, span, ceiling);
    }
  }

  lemma FreshFires(window: seq<Observation>, arrivals: seq<Observation>, stages: nat, span: int, ceiling: nat)
    requires arrivals != [] && Stream(arrivals, span, ceiling) && Untied(arrivals)
    requires Holds(window, arrivals[..|arrivals| - 1]) && arrivals[|arrivals| - 1] !in Elements(window) && arrivals[|arrivals| - 1].stages != {}
    ensures var n := |arrivals| - 1;
      Completed(window, arrivals[n], stages, span, ceiling).0
      <==> (Admits(Staged(arrivals), stages) && !Admits(Staged(arrivals[..n]), stages))
  {
    var n := |arrivals| - 1;
    var o, before := arrivals[n], arrivals[..n];
    assert arrivals == before + [o];
    FreshHolds(window, before, o, span, ceiling);
    var now := Inserted(window, o);
    CompletableIsAdmitted(now, stages, NOBODY);
    CompletableIsAdmitted(now, stages, o.event);
    SplitByEvent(now, arrivals, o, span, ceiling);
  }

  lemma SplitByEvent(now: seq<Observation>, arrivals: seq<Observation>, o: Observation, span: int, ceiling: nat)
    requires Stream(arrivals, span, ceiling) && Holds(now, arrivals) && o in now
    requires arrivals != [] && arrivals[|arrivals| - 1] == o && o !in Staged(arrivals[..|arrivals| - 1])
    ensures Besides(now, NOBODY) == Staged(arrivals)
    ensures Besides(now, o.event) == Staged(arrivals[..|arrivals| - 1])
  {
    var n := |arrivals| - 1;
    assert arrivals == arrivals[..n] + [o];
    forall x | x in now
      ensures x.event != NOBODY && (x.event == o.event ==> x == o)
    {
      assert x in Elements(now);
      var j :| 0 <= j < |arrivals| && arrivals[j] == x;
      assert arrivals[n] == o;
    }
    assert Staged(arrivals) == Staged(arrivals[..n]) + {o};
    forall x | x in Staged(arrivals)
      ensures x in now
    {
      assert x in Elements(now);
    }
    forall x
      ensures x in now ==> x in Staged(arrivals)
    {
      if x in now { assert x in Elements(now); }
    }
  }

  lemma MoreAdmits(some: set<Observation>, more: set<Observation>, stages: nat)
    requires some <= more && Admits(some, stages)
    ensures Admits(more, stages)
  {
    var tale :| |tale| == stages && Tells(some, tale);
    assert Tells(more, tale);
  }

  /**
   Events of distinct instants, delivered in any order and any number of times into a window that holds them all,
   complete a story exactly once if they tell it and never otherwise.
   */
  lemma {:induction false} FoundOnce(arrivals: seq<Observation>, stages: nat, span: int, ceiling: nat)
    requires Stream(arrivals, span, ceiling) && Untied(arrivals) && 1 <= stages
    ensures Fires(arrivals, stages, span, ceiling) == if Admits(Staged(arrivals), stages) then 1 else 0
    decreases |arrivals|
  {
    if arrivals == [] {
      forall tale: seq<Observation> | |tale| == stages
        ensures !Tells(Staged(arrivals), tale)
      {
        assert tale[0] !in Staged(arrivals);
      }
    } else {
      var n := |arrivals| - 1;
      PrefixStream(arrivals, span, ceiling);
      FoundOnce(arrivals[..n], stages, span, ceiling);
      FiresWhenTold(arrivals, stages, span, ceiling);
      if Admits(Staged(arrivals[..n]), stages) {
        MoreAdmits(Staged(arrivals[..n]), Staged(arrivals), stages);
      }
    }
  }

  /** Two deliveries of the same events, of distinct instants, find a story equally often. */
  lemma SameEventsSameFires(a: seq<Observation>, b: seq<Observation>, stages: nat, span: int, ceiling: nat)
    requires Stream(a, span, ceiling) && Stream(b, span, ceiling) && Untied(a) && Untied(b) && 1 <= stages
    requires Elements(a) == Elements(b)
    ensures Fires(a, stages, span, ceiling) == Fires(b, stages, span, ceiling)
  {
    FoundOnce(a, stages, span, ceiling);
    FoundOnce(b, stages, span, ceiling);
    assert Staged(a) == Staged(b) by {
      assert forall o :: o in a <==> o in Elements(a);
      assert forall o :: o in b <==> o in Elements(b);
    }
  }
}
