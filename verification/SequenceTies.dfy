/**
 Exactly when the order events arrive in decides nothing.  A window keeps events of one instant in the order they
 arrived, so a story can be found in one delivery of its events and missed in another; it can exactly when as many
 events as the story has stages, two of them of one instant, fit one window.
 */
module SequenceTies {
  import opened Sets
  import opened Sequence

  /** An event and when it happened, whatever it satisfies. */
  datatype Dated = Dated(event: EventName, at: int)

  ghost predicate Over(events: set<Dated>, arrivals: seq<Observation>) {
    forall i :: 0 <= i < |arrivals| ==> Dated(arrivals[i].event, arrivals[i].at) in events
  }

  /** Whatever stages the events satisfy, two deliveries of the same observations find a story equally often. */
  ghost predicate OrderFree(events: set<Dated>, stages: nat, span: int, ceiling: nat) {
    forall a, b :: Over(events, a) && Over(events, b) && Elements(a) == Elements(b)
      && Stream(a, span, ceiling) && Stream(b, span, ceiling)
      ==> Fires(a, stages, span, ceiling) == Fires(b, stages, span, ceiling)
  }

  predicate Tied(some: set<Dated>) {
    exists e, f :: e in some && f in some && e != f && e.at == f.at
  }

  /** Some of the events, one for each stage, two of them of one instant, inside one window. */
  predicate TiedStory(some: set<Dated>, stages: nat, span: int, ceiling: nat) {
    |some| == stages <= ceiling && Tied(some) && forall e, f :: e in some && f in some ==> e.at - f.at <= span
  }

  // ---- Too few events never complete a story ----

  predicate Different(window: seq<Observation>) {
    forall i, j :: 0 <= i < j < |window| ==> window[i].event != window[j].event
  }

  lemma {:induction false} DifferentCounts(window: seq<Observation>)
    requires Different(window)
    ensures |Elements(window)| == |window|
    decreases |window|
  {
    if window != [] {
      var n := |window| - 1;
      DifferentCounts(window[..n]);
      assert window == window[..n] + [window[n]];
      assert Elements(window) == Elements(window[..n]) + {window[n]};
      assert window[n] !in Elements(window[..n]);
    }
  }

  lemma {:induction false} ExpiredIsSuffix(seen: seq<Observation>, cutoff: int) returns (n: nat)
    ensures n <= |seen| && Expired(seen, cutoff) == seen[n..]
    decreases |seen|
  {
    if seen != [] && seen[0].at < cutoff {
      var m := ExpiredIsSuffix(seen[1..], cutoff);
      n := m + 1;
      assert seen[1..][m..] == seen[n..];
    } else {
      n := 0;
    }
  }

  lemma InsertedDiffers(kept: seq<Observation>, o: Observation)
    requires Different(kept) && forall i :: 0 <= i < |kept| ==> kept[i].event != o.event
    ensures Different(Inserted(kept, o))
  {
    var now := Inserted(kept, o);
    forall i, j | 0 <= i < j < |now|
      ensures now[i].event != now[j].event
    {
      InsertedAt(kept, o, i);
      InsertedAt(kept, o, j);
    }
  }

  lemma SuffixDiffers(window: seq<Observation>, n: nat)
    requires Different(window) && n <= |window|
    ensures Different(window[n..]) && Elements(window[n..]) <= Elements(window)
  {
  }

  lemma ExpiredDiffers(seen: seq<Observation>, cutoff: int)
    requires Different(seen)
    ensures Different(Expired(seen, cutoff)) && Elements(Expired(seen, cutoff)) <= Elements(seen)
  {
    var n := ExpiredIsSuffix(seen, cutoff);
    SuffixDiffers(seen, n);
  }

  lemma TrimmedDiffers(window: seq<Observation>, ceiling: nat)
    requires Different(window)
    ensures Different(Trimmed(window, ceiling)) && Elements(Trimmed(window, ceiling)) <= Elements(window)
  {
    if |window| > ceiling {
      SuffixDiffers(window, |window| - ceiling);
    }
  }

  lemma KeptDiffers(kept: seq<Observation>, o: Observation, ceiling: nat)
    requires Different(kept) && forall i :: 0 <= i < |kept| ==> kept[i].event != o.event
    ensures Different(Trimmed(Inserted(kept, o), ceiling)) && Elements(Trimmed(Inserted(kept, o), ceiling)) <= Elements(kept) + {o}
  {
    InsertedDiffers(kept, o);
    InsertedElements(kept, o);
    TrimmedDiffers(Inserted(kept, o), ceiling);
  }

  lemma ObserveDiffers(seen: seq<Observation>, o: Observation, span: int, ceiling: nat)
    requires Different(seen)
    ensures Different(Observe(seen, o, span, ceiling).1)
    ensures Elements(Observe(seen, o, span, ceiling).1) <= Elements(seen) + {o}
  {
    if forall i :: 0 <= i < |seen| ==> seen[i].event != o.event {
      var kept := Expired(seen, Newest(seen, o) - span);
      ExpiredDiffers(seen, Newest(seen, o) - span);
      forall i | 0 <= i < |kept|
        ensures kept[i].event != o.event
      {
        assert kept[i] in Elements(kept);
      }
      KeptDiffers(kept, o, ceiling);
    }
  }

  lemma {:induction false} WindowIsOfArrivals(arrivals: seq<Observation>, span: int, ceiling: nat)
    ensures Different(Window(arrivals, span, ceiling))
    ensures Elements(Window(arrivals, span, ceiling)) <= Elements(arrivals)
    decreases |arrivals|
  {
    if arrivals != [] {
      var n := |arrivals| - 1;
      WindowIsOfArrivals(arrivals[..n], span, ceiling);
      ObserveDiffers(Window(arrivals[..n], span, ceiling), arrivals[n], span, ceiling);
      assert Elements(arrivals[..n]) + {arrivals[n]} <= Elements(arrivals);
    }
  }

  lemma WindowIsNoLonger(arrivals: seq<Observation>, span: int, ceiling: nat)
    ensures |Window(arrivals, span, ceiling)| <= |Elements(arrivals)|
  {
    var window := Window(arrivals, span, ceiling);
    WindowIsOfArrivals(arrivals, span, ceiling);
    DifferentCounts(window);
    NoMore(Elements(window), Elements(arrivals));
  }

  lemma {:induction false} PicksAreApart(window: seq<Observation>, without: EventName, picks: seq<nat>, i: nat)
    requires Chain(window, without, picks) && i < |picks|
    ensures i <= picks[i] <= |window| - (|picks| - i)
    decreases i
  {
    var last := |picks| - 1;
    PicksAreAtLeast(window, without, picks, i);
    PicksAreAtMost(window, without, picks, i, last);
  }

  lemma {:induction false} PicksAreAtLeast(window: seq<Observation>, without: EventName, picks: seq<nat>, i: nat)
    requires Chain(window, without, picks) && i < |picks|
    ensures i <= picks[i]
    decreases i
  {
    if i > 0 {
      PicksAreAtLeast(window, without, picks, i - 1);
      assert picks[i - 1] < picks[i];
    }
  }

  lemma {:induction false} PicksAreAtMost(window: seq<Observation>, without: EventName, picks: seq<nat>, i: nat, last: nat)
    requires Chain(window, without, picks) && i <= last == |picks| - 1
    ensures picks[i] <= |window| - (|picks| - i)
    decreases last - i
  {
    if i < last {
      PicksAreAtMost(window, without, picks, i + 1, last);
      assert picks[i] < picks[i + 1];
    }
  }

  lemma ShortIsIncomplete(window: seq<Observation>, stages: nat, without: EventName)
    requires |window| < stages
    ensures !Completable(window, stages, without)
  {
    forall picks: seq<nat> | |picks| == stages
      ensures !Chain(window, without, picks)
    {
      if Chain(window, without, picks) {
        PicksAreApart(window, without, picks, 0);
      }
    }
  }

  lemma {:induction false} FewNeverFire(arrivals: seq<Observation>, stages: nat, span: int, ceiling: nat)
    requires |Elements(arrivals)| < stages
    ensures Fires(arrivals, stages, span, ceiling) == 0
    decreases |arrivals|
  {
    if arrivals != [] {
      var n := |arrivals| - 1;
      NoMore(Elements(arrivals[..n]), Elements(arrivals));
      FewNeverFire(arrivals[..n], stages, span, ceiling);
      if arrivals[n].stages != {} {
        var window := Observe(Window(arrivals[..n], span, ceiling), arrivals[n], span, ceiling).1;
        assert window == Window(arrivals, span, ceiling);
        WindowIsNoLonger(arrivals, span, ceiling);
        ShortIsIncomplete(window, stages, NOBODY);
      }
    }
  }

  // ---- As many events as stages, delivered in event time ----

  /** Different events, delivered in event time, that fit one window. */
  predicate InTurn(arrivals: seq<Observation>, span: int, ceiling: nat) {
    && Different(arrivals) && |arrivals| <= ceiling && 0 <= span
    && (forall i, j :: 0 <= i < j < |arrivals| ==> arrivals[i].at <= arrivals[j].at)
    && (forall i, j :: 0 <= i < |arrivals| && 0 <= j < |arrivals| ==> arrivals[i].at - arrivals[j].at <= span)
    && forall i :: 0 <= i < |arrivals| ==> arrivals[i].stages != {} && arrivals[i].event != NOBODY
  }

  lemma KeptLast(window: seq<Observation>, o: Observation, span: int, ceiling: nat)
    requires InTurn(window + [o], span, ceiling)
    ensures Observe(window, o, span, ceiling) == (Kept, window + [o])
  {
    var all := window + [o];
    assert all[|window|] == o && forall i :: 0 <= i < |window| ==> all[i] == window[i];
    assert forall i :: 0 <= i < |window| ==> window[i].event != o.event && window[i].at <= o.at;
    FreshIsKept(window, o, span, ceiling);
    assert Place(window, o.at) == |window|;
    assert Inserted(window, o) == window + [o];
  }

  lemma PrefixInTurn(arrivals: seq<Observation>, n: nat, span: int, ceiling: nat)
    requires InTurn(arrivals, span, ceiling) && n <= |arrivals|
    ensures InTurn(arrivals[..n], span, ceiling)
  {
  }

  lemma {:induction false} InTurnIsKept(arrivals: seq<Observation>, span: int, ceiling: nat)
    requires InTurn(arrivals, span, ceiling)
    ensures Window(arrivals, span, ceiling) == arrivals
    decreases |arrivals|
  {
    if arrivals != [] {
      var n := |arrivals| - 1;
      PrefixInTurn(arrivals, n, span, ceiling);
      InTurnIsKept(arrivals[..n], span, ceiling);
      assert arrivals == arrivals[..n] + [arrivals[n]];
      KeptLast(arrivals[..n], arrivals[n], span, ceiling);
    }
  }

  predicate EachItsStage(arrivals: seq<Observation>) {
    forall i :: 0 <= i < |arrivals| ==> i in arrivals[i].stages
  }

  /** A window of as many events as stages is complete only as it stands. */
  lemma WholeWindow(window: seq<Observation>, without: EventName)
    ensures Completable(window, |window|, without) <==> EachItsStage(window) && forall i :: 0 <= i < |window| ==> window[i].event != without
  {
    var stages := |window|;
    if Completable(window, stages, without) {
      var picks :| |picks| == stages && Chain(window, without, picks);
      forall i | 0 <= i < stages
        ensures i in window[i].stages && window[i].event != without
      {
        PicksAreApart(window, without, picks, i);
      }
    }
    if EachItsStage(window) && forall i :: 0 <= i < |window| ==> window[i].event != without {
      assert Chain(window, without, seq(stages, i => i));
    }
  }

  lemma InTurnFires(arrivals: seq<Observation>, span: int, ceiling: nat)
    requires arrivals != [] && InTurn(arrivals, span, ceiling)
    ensures Fires(arrivals, |arrivals|, span, ceiling) == if EachItsStage(arrivals) then 1 else 0
  {
    var n := |arrivals| - 1;
    var before, o := arrivals[..n], arrivals[n];
    assert arrivals == before + [o];
    PrefixInTurn(arrivals, n, span, ceiling);
    DifferentCounts(before);
    FewNeverFire(before, |arrivals|, span, ceiling);
    InTurnIsKept(before, span, ceiling);
    KeptLast(before, o, span, ceiling);
    WholeWindow(arrivals, NOBODY);
    WholeWindow(arrivals, o.event);
  }

  // ---- A tie is told one way and not the other ----

  predicate Ascending(order: seq<Dated>) {
    && (forall i, j :: 0 <= i < j < |order| ==> order[i] != order[j])
    && forall i, j :: 0 <= i < j < |order| ==> order[i].at <= order[j].at
  }

  lemma {:induction false} Latest(some: set<Dated>) returns (last: Dated)
    requires some != {}
    ensures last in some && forall e :: e in some ==> e.at <= last.at
    decreases some
  {
    var one :| one in some;
    last := one;
    var others := some - {one};
    assert forall e :: e in some ==> e == one || e in others;
    if others != {} {
      var other := Latest(others);
      if other.at > one.at {
        last := other;
      }
    }
  }

  lemma {:induction false} InOrder(some: set<Dated>) returns (order: seq<Dated>)
    ensures Ascending(order) && |order| == |some| && forall e :: e in order <==> e in some
    decreases some
  {
    if some == {} {
      order := [];
    } else {
      var last := Latest(some);
      var before := InOrder(some - {last});
      order := before + [last];
      assert forall i :: 0 <= i < |before| ==> before[i] in some - {last};
    }
  }

  /** Among events in order, two of one instant stand side by side. */
  lemma TieIsSideBySide(some: set<Dated>, order: seq<Dated>) returns (p: nat)
    requires Tied(some) && Ascending(order) && forall e :: e in order <==> e in some
    ensures p + 1 < |order| && order[p].at == order[p + 1].at
  {
    var e, f :| e in some && f in some && e != f && e.at == f.at;
    assert e in order && f in order;
    var i :| 0 <= i < |order| && order[i] == e;
    var j :| 0 <= j < |order| && order[j] == f;
    p := if i < j then i else j;
  }

  function Staging(order: seq<Dated>): seq<Observation> {
    seq(|order|, i requires 0 <= i < |order| => Observation(order[i].event, order[i].at, {i}, 0))
  }

  function Swapped(a: seq<Observation>, p: nat): seq<Observation>
    requires p + 1 < |a|
  {
    a[p := a[p + 1]][p + 1 := a[p]]
  }

  lemma SwapKeeps(a: seq<Observation>, p: nat, span: int, ceiling: nat)
    requires p + 1 < |a| && InTurn(a, span, ceiling) && a[p].at == a[p + 1].at
    ensures InTurn(Swapped(a, p), span, ceiling) && Elements(Swapped(a, p)) == Elements(a)
  {
    var b := Swapped(a, p);
    assert forall i :: 0 <= i < |a| ==> b[i] == if i == p then a[p + 1] else if i == p + 1 then a[p] else a[i];
    forall o
      ensures o in Elements(a) <==> o in Elements(b)
    {
      if o in Elements(a) {
        var i :| 0 <= i < |a| && a[i] == o;
        assert b[if i == p then p + 1 else if i == p + 1 then p else i] == o;
      }
    }
  }

  lemma InTurnStreams(a: seq<Observation>, span: int, ceiling: nat)
    requires InTurn(a, span, ceiling)
    ensures Stream(a, span, ceiling)
  {
    DifferentCounts(a);
  }

  lemma OverSame(events: set<Dated>, a: seq<Observation>, b: seq<Observation>)
    requires Over(events, a) && Elements(a) == Elements(b)
    ensures Over(events, b)
  {
    forall i | 0 <= i < |b|
      ensures Dated(b[i].event, b[i].at) in events
    {
      assert b[i] in Elements(b);
    }
  }

  lemma StagingInTurn(events: set<Dated>, some: set<Dated>, order: seq<Dated>, stages: nat, span: int, ceiling: nat)
    requires some <= events && TiedStory(some, stages, span, ceiling) && 0 <= span
    requires forall e :: e in events ==> e.event != NOBODY
    requires forall e, f :: e in events && f in events && e.event == f.event ==> e == f
    requires Ascending(order) && |order| == stages && forall e :: e in order <==> e in some
    ensures InTurn(Staging(order), span, ceiling) && Over(events, Staging(order))
  {
    forall i | 0 <= i < |order|
      ensures order[i] in some
    {
    }
  }

  /** Two deliveries of events in turn, one telling the story and one not. */
  lemma SwapDecides(a: seq<Observation>, p: nat, span: int, ceiling: nat)
    requires p + 1 < |a| && InTurn(a, span, ceiling) && a[p].at == a[p + 1].at
    requires EachItsStage(a) && p !in a[p + 1].stages
    ensures Stream(a, span, ceiling) && Stream(Swapped(a, p), span, ceiling)
    ensures Fires(a, |a|, span, ceiling) == 1 && Fires(Swapped(a, p), |a|, span, ceiling) == 0
  {
    var b := Swapped(a, p);
    SwapKeeps(a, p, span, ceiling);
    InTurnStreams(a, span, ceiling);
    InTurnStreams(b, span, ceiling);
    InTurnFires(a, span, ceiling);
    InTurnFires(b, span, ceiling);
    assert b[p] == a[p + 1];
  }

  lemma TieDecides(events: set<Dated>, some: set<Dated>, stages: nat, span: int, ceiling: nat)
    requires some <= events && TiedStory(some, stages, span, ceiling) && 0 <= span
    requires forall e :: e in events ==> e.event != NOBODY
    requires forall e, f :: e in events && f in events && e.event == f.event ==> e == f
    ensures !OrderFree(events, stages, span, ceiling)
  {
    var order := InOrder(some);
    var p := TieIsSideBySide(some, order);
    var a := Staging(order);
    StagingInTurn(events, some, order, stages, span, ceiling);
    SwapKeeps(a, p, span, ceiling);
    OverSame(events, a, Swapped(a, p));
    SwapDecides(a, p, span, ceiling);
  }

  // ---- Without such a tie nothing is decided by order ----

  function Dates(some: set<Observation>): set<Dated> {
    set o | o in some :: Dated(o.event, o.at)
  }

  lemma {:induction false} DatesCount(some: set<Observation>)
    requires forall o, q :: o in some && q in some && o.event == q.event ==> o == q
    ensures |Dates(some)| == |some|
    decreases some
  {
    if some != {} {
      var o :| o in some;
      DatesCount(some - {o});
      var date := Dated(o.event, o.at);
      assert date !in Dates(some - {o});
      assert Dates(some) == Dates(some - {o}) + {date};
    }
  }

  lemma {:induction false} ChooseWith(all: set<Dated>, e: Dated, f: Dated, n: nat) returns (some: set<Dated>)
    requires e in all && f in all && e != f && 2 <= n <= |all|
    ensures some <= all && |some| == n && e in some && f in some
    decreases |all|
  {
    if |all| == n {
      some := all;
    } else {
      var pair := {e, f};
      assert exists g :: g in all && g !in pair by {
        if all <= pair {
          NoMore(all, pair);
        }
      }
      var g :| g in all && g !in pair;
      some := ChooseWith(all - {g}, e, f, n);
    }
  }

  lemma TiesAreFew(events: set<Dated>, a: seq<Observation>, stages: nat, span: int, ceiling: nat)
    requires 2 <= stages && Over(events, a) && Stream(a, span, ceiling) && !Untied(a)
    requires !exists some :: some <= events && TiedStory(some, stages, span, ceiling)
    ensures |Elements(a)| < stages
  {
    var i, j :| 0 <= i < |a| && 0 <= j < |a| && a[i].at == a[j].at && a[i] != a[j];
    var all := Dates(Elements(a));
    assert a[i] in Elements(a) && a[j] in Elements(a);
    DatesCount(Elements(a));
    var e, f := Dated(a[i].event, a[i].at), Dated(a[j].event, a[j].at);
    assert e in all && f in all && e != f;
    if stages <= |all| {
      var some := ChooseWith(all, e, f, stages);
      assert Tied(some);
      assert some <= events;
      assert TiedStory(some, stages, span, ceiling);
    }
  }

  lemma SameUntied(a: seq<Observation>, b: seq<Observation>)
    requires Elements(a) == Elements(b) && Untied(a)
    ensures Untied(b)
  {
    forall i, j | 0 <= i < |b| && 0 <= j < |b| && b[i].at == b[j].at
      ensures b[i] == b[j]
    {
      assert b[i] in Elements(b) && b[j] in Elements(b);
      var k :| 0 <= k < |a| && a[k] == b[i];
      var l :| 0 <= l < |a| && a[l] == b[j];
    }
  }

  lemma NoTieDecides(events: set<Dated>, stages: nat, span: int, ceiling: nat)
    requires 2 <= stages && !exists some :: some <= events && TiedStory(some, stages, span, ceiling)
    ensures OrderFree(events, stages, span, ceiling)
  {
    forall a, b | Over(events, a) && Over(events, b) && Elements(a) == Elements(b) && Stream(a, span, ceiling) && Stream(b, span, ceiling)
      ensures Fires(a, stages, span, ceiling) == Fires(b, stages, span, ceiling)
    {
      if Untied(a) {
        SameUntied(a, b);
        SameEventsSameFires(a, b, stages, span, ceiling);
      } else {
        TiesAreFew(events, a, stages, span, ceiling);
        FewNeverFire(a, stages, span, ceiling);
        FewNeverFire(b, stages, span, ceiling);
      }
    }
  }

  /**
   A story of any number of stages is found equally often in every order its events may arrive in exactly when no events,
   as many as its stages and two of them of one instant, fit one window.
   */
  lemma OrderFreeIffNoTiedStory(events: set<Dated>, stages: nat, span: int, ceiling: nat)
    requires 2 <= stages && 0 <= span
    requires forall e :: e in events ==> e.event != NOBODY
    requires forall e, f :: e in events && f in events && e.event == f.event ==> e == f
    ensures OrderFree(events, stages, span, ceiling) <==> !exists some :: some <= events && TiedStory(some, stages, span, ceiling)
  {
    if some :| some <= events && TiedStory(some, stages, span, ceiling) {
      TieDecides(events, some, stages, span, ceiling);
    } else {
      NoTieDecides(events, stages, span, ceiling);
    }
  }

  // ---- Tied or not, a story is found at most once ----

  /** What a window holds of a stream: each staged event once. */
  ghost predicate Whole(window: seq<Observation>, arrivals: seq<Observation>) {
    Different(window) && Elements(window) == Staged(arrivals)
  }

  lemma WholeArrived(window: seq<Observation>, arrivals: seq<Observation>, i: nat) returns (j: nat)
    requires Whole(window, arrivals) && i < |window|
    ensures j < |arrivals| && window[i] == arrivals[j]
  {
    assert window[i] in Elements(window);
    j :| 0 <= j < |arrivals| && window[i] == arrivals[j];
  }

  lemma NewcomerFits(window: seq<Observation>, arrivals: seq<Observation>, o: Observation, span: int, ceiling: nat, i: nat)
    requires Stream(arrivals + [o], span, ceiling) && Whole(window, arrivals) && o !in Elements(window) && i < |window|
    ensures window[i].event != o.event && window[i].event != NOBODY && o.at - window[i].at <= span
    ensures Last(window) - window[i].at <= span && Last(window) - o.at <= span
  {
    var j := WholeArrived(window, arrivals, i);
    var k := WholeArrived(window, arrivals, |window| - 1);
    var all := arrivals + [o];
    assert all[j] == window[i] && Last(window) == all[k].at && all[|arrivals|] == o;
    assert window[i] in Elements(window);
  }

  lemma NewcomersFit(window: seq<Observation>, arrivals: seq<Observation>, o: Observation, span: int, ceiling: nat)
    requires Stream(arrivals + [o], span, ceiling) && Whole(window, arrivals) && o !in Elements(window)
    ensures forall i :: 0 <= i < |window| ==> window[i].event != o.event && window[i].event != NOBODY
    ensures forall i :: 0 <= i < |window| ==> o.at - window[i].at <= span && Last(window) - window[i].at <= span
    ensures 0 <= span && o.event != NOBODY && (window != [] ==> Last(window) - o.at <= span)
  {
    forall i | 0 <= i < |window|
      ensures window[i].event != o.event && window[i].event != NOBODY && o.at - window[i].at <= span
      ensures Last(window) - window[i].at <= span && Last(window) - o.at <= span
    {
      NewcomerFits(window, arrivals, o, span, ceiling, i);
    }
    assert (arrivals + [o])[|arrivals|] == o;
    if window != [] { assert window[0].event != o.event; }
  }

  lemma NewcomerIsKept(window: seq<Observation>, arrivals: seq<Observation>, o: Observation, span: int, ceiling: nat)
    requires Stream(arrivals + [o], span, ceiling) && Whole(window, arrivals) && o !in Elements(window) && o.stages != {}
    ensures Observe(window, o, span, ceiling) == (Kept, Inserted(window, o)) && Whole(Inserted(window, o), arrivals + [o])
  {
    NewcomersFit(window, arrivals, o, span, ceiling);
    InsertedDiffers(window, o);
    InsertedElements(window, o);
    DifferentCounts(Inserted(window, o));
    assert Staged(arrivals + [o]) == Staged(arrivals) + {o};
    NoMore(Staged(arrivals + [o]), Elements(arrivals + [o]));
    FreshIsKept(window, o, span, ceiling);
  }

  lemma PrefixStreams(arrivals: seq<Observation>, span: int, ceiling: nat)
    requires arrivals != [] && Stream(arrivals, span, ceiling)
    ensures Stream(arrivals[..|arrivals| - 1], span, ceiling)
  {
    NoMore(Elements(arrivals[..|arrivals| - 1]), Elements(arrivals));
  }

  /** An insertion keeps every chain. */
  lemma InsertionKeepsChains(window: seq<Observation>, o: Observation, picks: seq<nat>) returns (lifted: seq<nat>)
    requires Chain(window, NOBODY, picks) && forall i :: 0 <= i < |window| ==> window[i].event != o.event
    ensures |lifted| == |picks| && Chain(Inserted(window, o), o.event, lifted)
  {
    var index, now := Place(window, o.at), Inserted(window, o);
    lifted := seq(|picks|, i requires 0 <= i < |picks| => if picks[i] < index then picks[i] else picks[i] + 1);
    forall i | 0 <= i < |picks|
      ensures lifted[i] < |now| && now[lifted[i]] == window[picks[i]]
    {
      InsertedAt(window, o, lifted[i]);
    }
  }

  /** A chain without what was inserted was there before. */
  lemma ChainsWithoutInsertion(window: seq<Observation>, o: Observation, picks: seq<nat>) returns (dropped: seq<nat>)
    requires Chain(Inserted(window, o), o.event, picks) && forall i :: 0 <= i < |window| ==> window[i].event != NOBODY
    ensures |dropped| == |picks| && Chain(window, NOBODY, dropped)
  {
    var index, now := Place(window, o.at), Inserted(window, o);
    forall i | 0 <= i < |picks|
      ensures picks[i] != index && picks[i] <= |window|
      ensures now[picks[i]] == if picks[i] < index then window[picks[i]] else window[picks[i] - 1]
    {
      InsertedAt(window, o, picks[i]);
    }
    dropped := seq(|picks|, i requires 0 <= i < |picks| => if picks[i] < index then picks[i] else picks[i] - 1);
  }

  lemma InsertionCompletes(window: seq<Observation>, o: Observation, stages: nat)
    requires o.event != NOBODY && forall i :: 0 <= i < |window| ==> window[i].event != o.event && window[i].event != NOBODY
    ensures Completable(Inserted(window, o), stages, o.event) <==> Completable(window, stages, NOBODY)
    ensures Completable(window, stages, NOBODY) ==> Completable(Inserted(window, o), stages, NOBODY)
  {
    var now := Inserted(window, o);
    if Completable(window, stages, NOBODY) {
      var picks :| |picks| == stages && Chain(window, NOBODY, picks);
      var lifted := InsertionKeepsChains(window, o, picks);
      forall i | 0 <= i < |lifted|
        ensures now[lifted[i]].event != NOBODY
      {
        InsertedAt(window, o, lifted[i]);
      }
      assert Chain(now, NOBODY, lifted);
    }
    if Completable(now, stages, o.event) {
      var picks :| |picks| == stages && Chain(now, o.event, picks);
      var dropped := ChainsWithoutInsertion(window, o, picks);
    }
  }

  lemma {:induction false} WindowIsWhole(arrivals: seq<Observation>, span: int, ceiling: nat)
    requires Stream(arrivals, span, ceiling)
    ensures Whole(Window(arrivals, span, ceiling), arrivals)
    decreases |arrivals|
  {
    if arrivals != [] {
      var n := |arrivals| - 1;
      var o, before := arrivals[n], arrivals[..n];
      assert arrivals == before + [o];
      PrefixStreams(arrivals, span, ceiling);
      WindowIsWhole(before, span, ceiling);
      var window := Window(before, span, ceiling);
      if o.stages == {} {
        assert Staged(arrivals) == Staged(before);
      } else if o in Elements(window) {
        assert Staged(arrivals) == Staged(before);
      } else {
        NewcomerIsKept(window, before, o, span, ceiling);
      }
    }
  }

  /**
   Events delivered in any order and any number of times into a window that holds them all, of one instant or not,
   complete a story once if the window they leave is complete and never otherwise: never twice.
   */
  lemma {:induction false} FoundAtMostOnce(arrivals: seq<Observation>, stages: nat, span: int, ceiling: nat)
    requires Stream(arrivals, span, ceiling) && 1 <= stages
    ensures Fires(arrivals, stages, span, ceiling) == if Completable(Window(arrivals, span, ceiling), stages, NOBODY) then 1 else 0
    decreases |arrivals|
  {
    if arrivals == [] {
      ShortIsIncomplete([], stages, NOBODY);
    } else {
      var n := |arrivals| - 1;
      var o, before := arrivals[n], arrivals[..n];
      assert arrivals == before + [o];
      PrefixStreams(arrivals, span, ceiling);
      FoundAtMostOnce(before, stages, span, ceiling);
      WindowIsWhole(before, span, ceiling);
      var window := Window(before, span, ceiling);
      if o.stages != {} && o !in Elements(window) {
        NewcomerIsKept(window, before, o, span, ceiling);
        NewcomersFit(window, before, o, span, ceiling);
        InsertionCompletes(window, o, stages);
      }
    }
  }
}
