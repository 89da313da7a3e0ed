/**
 Reading the backbone (internal/broker/consumer.go, recovery.go): records are delivered before their position is
 committed, and a reader handed a partition goes back from the committed position by a window measured from the last
 record it had committed.  Instants are in milliseconds.
 */
module Consumer {
  import opened Wrappers

  datatype Partition = Partition(index: int)

  /** What the broker says of one partition: an offset, negative where it has none, or a failure. */
  datatype Listed = Listed(offset: int, failed: bool)

  /** The broker's answers: where partitions start, when their last committed records were produced, and the first offsets at or after an instant.  A call that failed has none. */
  datatype Broker = Broker(starts: Option<map<Partition, Listed>>, times: Option<map<Partition, int>>, listed: Option<map<Partition, Listed>>)

  datatype Refusal = WindowUnknown | StartsUnread | StartUnknown | LastUnread | ListUnread

  // ---- Going back ----

  function Committed(offsets: map<Partition, int>): map<Partition, int> {
    map p | p in offsets && offsets[p] > 0 :: offsets[p]
  }

  predicate StartKnown(starts: map<Partition, Listed>, p: Partition) {
    p in starts && !starts[p].failed && starts[p].offset >= 0
  }

  /** The partitions whose last committed record the topic may still hold. */
  function Held(committed: map<Partition, int>, starts: map<Partition, Listed>): map<Partition, int> {
    map p | p in committed && StartKnown(starts, p) && committed[p] - 1 >= starts[p].offset :: committed[p]
  }

  /** Where a partition of a known last record is read from. */
  function From(position: int, answer: Option<Listed>): int {
    if answer.None? || answer.value.failed || answer.value.offset < 0 || answer.value.offset >= position then position
    else answer.value.offset
  }

  function AnswerOf(listed: map<Partition, Listed>, p: Partition): Option<Listed> {
    if p in listed then Some(listed[p]) else None
  }

  /** The offsets, of some partitions those the listing gives. */
  function Listing(offsets: map<Partition, int>, from: set<Partition>, listed: map<Partition, Listed>): map<Partition, int> {
    map p | p in offsets :: if p in from then From(offsets[p], AnswerOf(listed, p)) else offsets[p]
  }

  function Rewound(offsets: map<Partition, int>, broker: Broker): Result<map<Partition, int>, Refusal> {
    if Committed(offsets) == map[] then Ok(offsets)
    else if broker.starts.None? then Err(StartsUnread)
    else if exists p :: p in Committed(offsets) && !StartKnown(broker.starts.value, p) then Err(StartUnknown)
    else
      var held := Held(Committed(offsets), broker.starts.value);
      if held == map[] then Ok(offsets)
      else if broker.times.None? then Err(LastUnread)
      else
        var last := map p | p in held && p in broker.times.value :: broker.times.value[p];
        if last == map[] then Ok(offsets)
        else if broker.listed.None? then Err(ListUnread)
        else Ok(Listing(offsets, last.Keys, broker.listed.value))
  }

  /** No partition is ever moved forward, and none is added or left out. */
  lemma RewindNeverGoesForward(offsets: map<Partition, int>, broker: Broker)
    requires Rewound(offsets, broker).Ok?
    ensures Rewound(offsets, broker).value.Keys == offsets.Keys
    ensures forall p :: p in offsets ==> Rewound(offsets, broker).value[p] <= offsets[p]
    ensures forall p :: p in offsets && offsets[p] <= 0 ==> Rewound(offsets, broker).value[p] == offsets[p]
    ensures forall p :: p in offsets && offsets[p] >= 0 ==> Rewound(offsets, broker).value[p] >= 0
  {
  }

  method HeldPartitions(committed: map<Partition, int>, starts: map<Partition, Listed>) returns (held: Option<map<Partition, int>>)
    ensures held.Some? <==> forall p :: p in committed ==> StartKnown(starts, p)
    ensures held.Some? ==> held.value == Held(committed, starts)
  {
    var kept: map<Partition, int> := map[];
    var left: set<Partition> := committed.Keys;
    while left != {}
      invariant left <= committed.Keys
      invariant forall p :: p in committed && p !in left ==> StartKnown(starts, p)
      invariant kept == map p | p in committed && p !in left && StartKnown(starts, p) && committed[p] - 1 >= starts[p].offset :: committed[p]
      decreases |left|
    {
      var p :| p in left;
      if !StartKnown(starts, p) {
        return None;
      }
      left := left - {p};
      if committed[p] - 1 >= starts[p].offset {
        kept := kept[p := committed[p]];
      }
    }
    return Some(kept);
  }

  method Rewind(offsets: map<Partition, int>, broker: Broker) returns (r: Result<map<Partition, int>, Refusal>)
    ensures r == Rewound(offsets, broker)
  {
    var committed: map<Partition, int> := map[];
    var left: set<Partition> := offsets.Keys;
    while left != {}
      invariant left <= offsets.Keys
      invariant committed == map p | p in offsets && p !in left && offsets[p] > 0 :: offsets[p]
      decreases |left|
    {
      var p :| p in left;
      left := left - {p};
      if offsets[p] > 0 {
        committed := committed[p := offsets[p]];
      }
    }
    assert committed == Committed(offsets);
    if committed == map[] {
      return Ok(offsets);
    }
    if broker.starts.None? {
      return Err(StartsUnread);
    }
    var kept := HeldPartitions(committed, broker.starts.value);
    if kept.None? {
      return Err(StartUnknown);
    }
    var held := kept.value;
    if held == map[] {
      return Ok(offsets);
    }
    if broker.times.None? {
      return Err(LastUnread);
    }
    var last := map p | p in held && p in broker.times.value :: broker.times.value[p];
    if last == map[] {
      return Ok(offsets);
    }
    if broker.listed.None? {
      return Err(ListUnread);
    }
    var rebuilt := Rebuild(offsets, last.Keys, broker.listed.value);
    r := Ok(rebuilt);
  }

  lemma ListingThen(offsets: map<Partition, int>, from: set<Partition>, listed: map<Partition, Listed>, p: Partition)
    requires p in offsets && p !in from
    ensures Listing(offsets, from + {p}, listed) == Listing(offsets, from, listed)[p := From(offsets[p], AnswerOf(listed, p))]
  {
  }

  method Rebuild(offsets: map<Partition, int>, from: set<Partition>, listed: map<Partition, Listed>) returns (rebuilt: map<Partition, int>)
    requires from <= offsets.Keys
    ensures rebuilt == Listing(offsets, from, listed)
  {
    rebuilt := offsets;
    var left := from;
    while left != {}
      invariant left <= from && rebuilt == Listing(offsets, from - left, listed)
      decreases |left|
    {
      var p :| p in left;
      ListingThen(offsets, from - left, listed, p);
      assert from - (left - {p}) == from - left + {p};
      left := left - {p};
      if p in listed && !listed[p].failed && 0 <= listed[p].offset < offsets[p] {
        rebuilt := rebuilt[p := listed[p].offset];
      }
    }
    assert from - left == from;
  }

  // ---- What is read again ----

  /** What a topic holds of a partition: the records from an offset on, each with its instant. */
  datatype Log = Log(start: nat, stamps: seq<int>)

  predicate Holds(log: Log, offset: int) {
    log.start <= offset < log.start + |log.stamps|
  }

  function StampOf(log: Log, offset: int): int
    requires Holds(log, offset)
  {
    log.stamps[offset - log.start]
  }

  /** The first record at or after an instant, by offset. */
  predicate IsFirst(log: Log, instant: int, offset: int) {
    && Holds(log, offset) && StampOf(log, offset) >= instant
    && forall other :: log.start <= other < offset ==> StampOf(log, other) < instant
  }

  ghost predicate NoneAfter(log: Log, instant: int) {
    forall other :: Holds(log, other) ==> StampOf(log, other) < instant
  }

  /** The broker answers truly about a partition; only what it lists after an instant may fail. */
  ghost predicate Truthful(broker: Broker, log: Log, p: Partition, position: int, window: int) {
    && broker.starts.Some? && p in broker.starts.value && broker.starts.value[p] == Listed(log.start, false)
    && broker.times.Some? && (p in broker.times.value <==> Holds(log, position - 1))
    && (p in broker.times.value ==> broker.times.value[p] == StampOf(log, position - 1))
    && broker.listed.Some?
    && (p in broker.times.value && p in broker.listed.value && !broker.listed.value[p].failed ==>
          var offset, instant := broker.listed.value[p].offset, broker.times.value[p] - window;
          IsFirst(log, instant, offset) || (offset < 0 && NoneAfter(log, instant)))
  }

  predicate ListingAnswered(broker: Broker, p: Partition) {
    broker.listed.Some? && p in broker.listed.value && !broker.listed.value[p].failed
  }

  /**
   Where the broker answers truly, a partition goes back exactly when the topic still holds its last committed record and
   the listing was answered; and then it reads again every record held that was stamped within the window before that
   record, starting at the first of them.
   */
  lemma RewindCoversTheWindow(offsets: map<Partition, int>, broker: Broker, log: Log, p: Partition, window: int)
    requires p in offsets && offsets[p] > 0 && window >= 0
    requires Rewound(offsets, broker).Ok? && Truthful(broker, log, p, offsets[p], window)
    ensures var position, read := offsets[p], Rewound(offsets, broker).value[p];
      && (read < position <==> Holds(log, position - 1) && ListingAnswered(broker, p))
      && (read < position ==> IsFirst(log, StampOf(log, position - 1) - window, read))
      && (read < position ==> forall o :: Holds(log, o) && StampOf(log, o) >= StampOf(log, position - 1) - window ==> o >= read)
  {
    var position, starts := offsets[p], broker.starts.value;
    assert p in Committed(offsets) && p in Committed(offsets).Keys;
    if Holds(log, position - 1) {
      var held := Held(Committed(offsets), starts);
      assert p in held && p in held.Keys;
      var last := map q | q in held && q in broker.times.value :: broker.times.value[q];
      assert p in last && p in last.Keys;
      assert Rewound(offsets, broker).value[p] == From(position, AnswerOf(broker.listed.value, p));
    }
  }

  // ---- Every run ----

  /** One partition: what the topic holds of it, where the group stands, what was delivered, and what the topic dropped before it was. */
  datatype Part = Part(start: int, end: int, committed: int, delivered: set<int>, lost: set<int>)

  datatype Batch = Batch(from: int, upTo: int)

  /**
   One reader of the group: the partitions it was handed and where it stands in each, whether a poll of it waits, what its
   last poll took and was not delivered, what was delivered and not committed, and whether it refused.
   */
  datatype Reader = Reader(
    positions: map<Partition, int>, polling: bool, taken: map<Partition, Batch>, moved: map<Partition, int>, refused: bool)

  datatype World = World(topic: map<Partition, Part>, readers: map<string, Reader>)

  /** What a reader must read again, as it answers when it is handed partitions. */
  datatype Recovery = Unasked | Unanswerable | Back(window: int)

  datatype Action =
    | Append(partition: Partition)
    | Expire(partition: Partition, upTo: int)
    | Assign(reader: string, partitions: set<Partition>, recovery: Recovery, broker: Broker)
    | Revoke(reader: string, partitions: set<Partition>, refuses: bool)
    | BeginPoll(reader: string)
    | Poll(reader: string, counts: map<Partition, nat>)
    | Deliver(reader: string)
    | Commit(reader: string, accepted: set<Partition>)
    | Crash(reader: string)

  const IDLE := Reader(map[], false, map[], map[], false)

  function Initial(partitions: set<Partition>): World {
    World(map p | p in partitions :: Part(0, 0, 0, {}, {}), map[])
  }

  function ReaderOf(w: World, reader: string): Reader {
    if reader in w.readers then w.readers[reader] else IDLE
  }

  function Range(from: int, end: int): (r: set<int>)
    ensures forall o :: o in r <==> from <= o < end
    decreases end - from
  {
    if from >= end then {} else Range(from, end - 1) + {end - 1}
  }

  /** Where a reader handed partitions starts in each: at the committed positions, or further back, or nowhere at all. */
  function Rebuilt(offsets: map<Partition, int>, recovery: Recovery, broker: Broker): Result<map<Partition, int>, Refusal> {
    match recovery
    case Unasked => Ok(offsets)
    case Unanswerable => Err(WindowUnknown)
    case Back(window) => if window <= 0 || offsets == map[] then Ok(offsets) else Rewound(offsets, broker)
  }

  function CommittedOf(topic: map<Partition, Part>, partitions: set<Partition>): map<Partition, int> {
    map p | p in topic && p in partitions :: topic[p].committed
  }

  function Assigned(topic: map<Partition, Part>, r: Reader, partitions: set<Partition>, recovery: Recovery, broker: Broker): Reader {
    var rebuilt := Rebuilt(CommittedOf(topic, partitions), recovery, broker);
    if rebuilt.Err? then r.(refused := true) else r.(positions := r.positions + rebuilt.value)
  }

  function Expiring(part: Part, upTo: int): Part {
    if part.start <= upTo <= part.end then part.(start := upTo, lost := part.lost + (Range(part.start, upTo) - part.delivered)) else part
  }

  /** A position the topic no longer holds is read from where it starts. */
  function ReadFrom(part: Part, position: int): int {
    if position < part.start then part.start else position
  }

  /** A poll begins unless the reader refused, and not before what the last one took was delivered and committed. */
  predicate MayPoll(r: Reader) {
    !r.refused && !r.polling && r.taken == map[] && r.moved == map[]
  }

  /** A poll that waits may return what the partitions held by then have, whether or not the reader refused meanwhile. */
  predicate Pollable(topic: map<Partition, Part>, r: Reader, counts: map<Partition, nat>) {
    && r.polling && r.taken == map[] && r.moved == map[]
    && forall p :: p in counts ==> p in r.positions && p in topic && ReadFrom(topic[p], r.positions[p]) + counts[p] <= topic[p].end
  }

  function Polled(topic: map<Partition, Part>, r: Reader, counts: map<Partition, nat>): Reader
    requires Pollable(topic, r, counts)
  {
    r.(polling := false, taken := map p | p in counts :: Batch(ReadFrom(topic[p], r.positions[p]), ReadFrom(topic[p], r.positions[p]) + counts[p]))
  }

  function DeliveredTo(topic: map<Partition, Part>, taken: map<Partition, Batch>): map<Partition, Part> {
    map p | p in topic :: if p in taken then topic[p].(delivered := topic[p].delivered + Range(taken[p].from, taken[p].upTo)) else topic[p]
  }

  function After(r: Reader): Reader {
    Reader(map p | p in r.positions :: if p in r.taken then r.taken[p].upTo else r.positions[p],
           r.polling, map[], map p | p in r.taken :: r.taken[p].upTo, r.refused)
  }

  function CommittedTo(topic: map<Partition, Part>, moved: map<Partition, int>, accepted: set<Partition>): map<Partition, Part> {
    map p | p in topic :: if p in moved && p in accepted then topic[p].(committed := moved[p]) else topic[p]
  }

  /**
   Everything is joint: a poll takes records of any of the partitions held, a delivery is of all it took, a commit is of
   all that was delivered, and a refusal is of the whole assignment.  A commit the broker accepts in part ends the reader.
   */
  function Step(w: World, action: Action): World {
    match action
    case Append(p) => if p in w.topic then w.(topic := w.topic[p := w.topic[p].(end := w.topic[p].end + 1)]) else w
    case Expire(p, upTo) => if p in w.topic then w.(topic := w.topic[p := Expiring(w.topic[p], upTo)]) else w
    case Assign(m, partitions, recovery, broker) =>
      w.(readers := w.readers[m := Assigned(w.topic, ReaderOf(w, m), partitions, recovery, broker)])
    case Revoke(m, partitions, refuses) =>
      var r := ReaderOf(w, m);
      w.(readers := w.readers[m := r.(positions := r.positions - partitions, refused := r.refused || refuses)])
    case BeginPoll(m) =>
      if MayPoll(ReaderOf(w, m)) then w.(readers := w.readers[m := ReaderOf(w, m).(polling := true)]) else w
    case Poll(m, counts) =>
      if Pollable(w.topic, ReaderOf(w, m), counts) then w.(readers := w.readers[m := Polled(w.topic, ReaderOf(w, m), counts)]) else w
    case Deliver(m) =>
      if ReaderOf(w, m).taken == map[] then w
      else World(DeliveredTo(w.topic, ReaderOf(w, m).taken), w.readers[m := After(ReaderOf(w, m))])
    case Commit(m, accepted) =>
      var r := ReaderOf(w, m);
      World(CommittedTo(w.topic, r.moved, accepted), if r.moved.Keys <= accepted then w.readers[m := r.(moved := map[])] else w.readers - {m})
    case Crash(m) => w.(readers := w.readers - {m})
  }

  function Run(w: World, actions: seq<Action>): World
    decreases |actions|
  {
    if actions == [] then w else Run(Step(w, actions[0]), actions[1..])
  }

  /** Everything below an offset was delivered, or the topic dropped it before it could be. */
  predicate DoneBelow(part: Part, offset: int) {
    forall o :: 0 <= o < offset ==> o in part.delivered || o in part.lost
  }

  predicate PartDone(part: Part) {
    && 0 <= part.start <= part.end && DoneBelow(part, part.start) && DoneBelow(part, part.committed)
    && forall o :: o in part.lost ==> o < part.start
  }

  predicate TopicDone(topic: map<Partition, Part>) {
    forall p :: p in topic ==> PartDone(topic[p])
  }

  predicate ReaderDone(topic: map<Partition, Part>, r: Reader) {
    && (forall p :: p in r.positions && p in topic ==> DoneBelow(topic[p], r.positions[p]))
    && (forall p :: p in r.taken && p in topic ==> DoneBelow(topic[p], r.taken[p].from))
    && (forall p :: p in r.moved && p in topic ==> DoneBelow(topic[p], r.moved[p]))
  }

  predicate Inv(w: World) {
    TopicDone(w.topic) && forall m :: m in w.readers ==> ReaderDone(w.topic, w.readers[m])
  }

  /** Nothing delivered or dropped is forgotten. */
  predicate Grows(topic: map<Partition, Part>, next: map<Partition, Part>) {
    topic.Keys == next.Keys && forall p :: p in topic ==> topic[p].delivered <= next[p].delivered && topic[p].lost <= next[p].lost
  }

  lemma ReaderStaysDone(topic: map<Partition, Part>, next: map<Partition, Part>, r: Reader)
    requires Grows(topic, next) && ReaderDone(topic, r)
    ensures ReaderDone(next, r)
  {
  }

  lemma RebuiltGoesBack(offsets: map<Partition, int>, recovery: Recovery, broker: Broker, p: Partition)
    requires Rebuilt(offsets, recovery, broker).Ok? && p in Rebuilt(offsets, recovery, broker).value
    ensures p in offsets && Rebuilt(offsets, recovery, broker).value[p] <= offsets[p]
  {
    if recovery.Back? && recovery.window > 0 && offsets != map[] {
      RewindNeverGoesForward(offsets, broker);
      assert p in offsets.Keys;
    }
  }

  lemma AssignedIsDone(topic: map<Partition, Part>, r: Reader, partitions: set<Partition>, recovery: Recovery, broker: Broker)
    requires TopicDone(topic) && ReaderDone(topic, r)
    ensures ReaderDone(topic, Assigned(topic, r, partitions, recovery, broker))
  {
    var offsets := CommittedOf(topic, partitions);
    var rebuilt := Rebuilt(offsets, recovery, broker);
    if rebuilt.Ok? {
      forall p | p in rebuilt.value && p in topic
        ensures DoneBelow(topic[p], rebuilt.value[p])
      {
        RebuiltGoesBack(offsets, recovery, broker, p);
        assert PartDone(topic[p]);
      }
    }
  }

  lemma PolledIsDone(topic: map<Partition, Part>, r: Reader, counts: map<Partition, nat>)
    requires TopicDone(topic) && ReaderDone(topic, r) && Pollable(topic, r, counts)
    ensures ReaderDone(topic, Polled(topic, r, counts))
  {
    forall p | p in counts
      ensures DoneBelow(topic[p], ReadFrom(topic[p], r.positions[p]))
    {
      assert PartDone(topic[p]);
    }
  }

  lemma DeliveryIsDone(topic: map<Partition, Part>, r: Reader)
    requires TopicDone(topic) && ReaderDone(topic, r)
    ensures Grows(topic, DeliveredTo(topic, r.taken)) && TopicDone(DeliveredTo(topic, r.taken)) && ReaderDone(DeliveredTo(topic, r.taken), After(r))
  {
    var next := DeliveredTo(topic, r.taken);
    forall p | p in topic
      ensures PartDone(next[p]) && topic[p].delivered <= next[p].delivered && topic[p].lost == next[p].lost
      ensures p in r.taken ==> DoneBelow(next[p], r.taken[p].upTo)
      ensures p in r.positions ==> DoneBelow(next[p], r.positions[p])
    {
      assert PartDone(topic[p]);
    }
  }

  lemma CommitIsDone(topic: map<Partition, Part>, r: Reader, accepted: set<Partition>)
    requires TopicDone(topic) && ReaderDone(topic, r)
    ensures Grows(topic, CommittedTo(topic, r.moved, accepted)) && TopicDone(CommittedTo(topic, r.moved, accepted))
  {
    var next := CommittedTo(topic, r.moved, accepted);
    forall p | p in topic
      ensures PartDone(next[p]) && topic[p].delivered == next[p].delivered && topic[p].lost == next[p].lost
    {
      assert PartDone(topic[p]);
    }
  }

  lemma TopicStepKeeps(w: World, p: Partition, part: Part)
    requires Inv(w) && p in w.topic && PartDone(part) && w.topic[p].delivered <= part.delivered && w.topic[p].lost <= part.lost
    ensures Inv(w.(topic := w.topic[p := part]))
  {
    var next := w.topic[p := part];
    assert Grows(w.topic, next);
    forall m | m in w.readers
      ensures ReaderDone(next, w.readers[m])
    {
      ReaderStaysDone(w.topic, next, w.readers[m]);
    }
  }

  lemma ReaderStepKeeps(w: World, next: map<Partition, Part>, m: string, r: Reader)
    requires Inv(w) && Grows(w.topic, next) && TopicDone(next) && ReaderDone(next, r)
    ensures Inv(World(next, w.readers[m := r])) && Inv(World(next, w.readers - {m}))
  {
    forall n | n in w.readers
      ensures ReaderDone(next, w.readers[n])
    {
      ReaderStaysDone(w.topic, next, w.readers[n]);
    }
  }

  lemma ExpiringIsDone(part: Part, upTo: int)
    requires PartDone(part)
    ensures PartDone(Expiring(part, upTo)) && part.delivered <= Expiring(part, upTo).delivered && part.lost <= Expiring(part, upTo).lost
  {
  }

  lemma AppendedIsDone(part: Part)
    requires PartDone(part)
    ensures PartDone(part.(end := part.end + 1))
  {
    var next := part.(end := part.end + 1);
    assert DoneBelow(next, next.start) && DoneBelow(next, next.committed);
  }

  lemma AppendKeeps(w: World, p: Partition)
    requires Inv(w)
    ensures Inv(Step(w, Append(p)))
  {
    if p in w.topic {
      var part := w.topic[p].(end := w.topic[p].end + 1);
      assert PartDone(w.topic[p]);
      AppendedIsDone(w.topic[p]);
      assert part.delivered == w.topic[p].delivered && part.lost == w.topic[p].lost;
      TopicStepKeeps(w, p, part);
      assert Step(w, Append(p)) == w.(topic := w.topic[p := part]);
    }
  }

  lemma ExpireKeeps(w: World, p: Partition, upTo: int)
    requires Inv(w)
    ensures Inv(Step(w, Expire(p, upTo)))
  {
    if p in w.topic {
      assert PartDone(w.topic[p]);
      ExpiringIsDone(w.topic[p], upTo);
      TopicStepKeeps(w, p, Expiring(w.topic[p], upTo));
    }
  }

  lemma ReaderActionKeeps(w: World, action: Action)
    requires Inv(w) && !action.Append? && !action.Expire?
    ensures Inv(Step(w, action))
  {
    var m, r := action.reader, ReaderOf(w, action.reader);
    assert ReaderDone(w.topic, r);
    match action {
      case Assign(_, partitions, recovery, broker) =>
        AssignedIsDone(w.topic, r, partitions, recovery, broker);
        ReaderStepKeeps(w, w.topic, m, Assigned(w.topic, r, partitions, recovery, broker));
      case Revoke(_, partitions, refuses) =>
        ReaderStepKeeps(w, w.topic, m, r.(positions := r.positions - partitions, refused := r.refused || refuses));
      case BeginPoll(_) =>
        ReaderStepKeeps(w, w.topic, m, r.(polling := true));
      case Poll(_, counts) =>
        if Pollable(w.topic, r, counts) {
          PolledIsDone(w.topic, r, counts);
          ReaderStepKeeps(w, w.topic, m, Polled(w.topic, r, counts));
        }
      case Deliver(_) =>
        DeliveryIsDone(w.topic, r);
        ReaderStepKeeps(w, DeliveredTo(w.topic, r.taken), m, After(r));
      case Commit(_, accepted) =>
        CommitIsDone(w.topic, r, accepted);
        var next := CommittedTo(w.topic, r.moved, accepted);
        ReaderStaysDone(w.topic, next, r);
        ReaderStepKeeps(w, next, m, r.(moved := map[]));
      case Crash(_) =>
        ReaderStepKeeps(w, w.topic, m, r);
    }
  }

  lemma StepKeeps(w: World, action: Action)
    requires Inv(w)
    ensures Inv(Step(w, action)) && Step(w, action).topic.Keys == w.topic.Keys
  {
    if action.Append? {
      AppendKeeps(w, action.partition);
    } else if action.Expire? {
      ExpireKeeps(w, action.partition, action.upTo);
    } else {
      ReaderActionKeeps(w, action);
    }
  }

  lemma {:induction false} RunKeeps(w: World, actions: seq<Action>)
    requires Inv(w)
    ensures Inv(Run(w, actions)) && Run(w, actions).topic.Keys == w.topic.Keys
    decreases |actions|
  {
    if actions != [] {
      StepKeeps(w, actions[0]);
      RunKeeps(Step(w, actions[0]), actions[1..]);
    }
  }

  /**
   Over every run of a group of any number of readers, with joint polls, deliveries and commits, commits accepted in part,
   crashes, partitions handed over in any way and rewinds of whole assignments, every record of every partition below its
   committed position was delivered at least once, but for what the topic dropped before it was delivered; so everything
   the topic still holds below a committed position was delivered.
   */
  lemma CommittedIsDelivered(partitions: set<Partition>, actions: seq<Action>, p: Partition)
    requires p in partitions
    ensures p in Run(Initial(partitions), actions).topic
    ensures var part := Run(Initial(partitions), actions).topic[p];
      && (forall o :: 0 <= o < part.committed ==> o in part.delivered || o in part.lost)
      && (forall o :: part.start <= o < part.committed ==> o in part.delivered)
  {
    assert p in Initial(partitions).topic.Keys;
    RunKeeps(Initial(partitions), actions);
    assert PartDone(Run(Initial(partitions), actions).topic[p]);
  }

  // ---- A refusal is of the whole assignment ----

  /** A step in which a poll of the reader returns. */
  predicate Returns(w: World, action: Action, m: string) {
    action.Poll? && action.reader == m && Pollable(w.topic, ReaderOf(w, m), action.counts)
  }

  /** How many polls of the reader return in a run. */
  function Returned(w: World, actions: seq<Action>, m: string): nat
    decreases |actions|
  {
    if actions == [] then 0 else (if Returns(w, actions[0], m) then 1 else 0) + Returned(Step(w, actions[0]), actions[1..], m)
  }

  lemma RefusedStep(w: World, m: string, action: Action)
    requires ReaderOf(w, m).refused && action != Crash(m) && !(action.Commit? && action.reader == m && !(ReaderOf(w, m).moved.Keys <= action.accepted))
    ensures ReaderOf(Step(w, action), m).refused
    ensures ReaderOf(Step(w, action), m).polling ==> ReaderOf(w, m).polling && !Returns(w, action, m)
  {
  }

  /** The reader process goes on: it does not crash, and no commit of it is accepted only in part. */
  predicate GoesOn(w: World, m: string, actions: seq<Action>)
    decreases |actions|
  {
    actions != [] ==>
      && actions[0] != Crash(m)
      && !(actions[0].Commit? && actions[0].reader == m && !(ReaderOf(w, m).moved.Keys <= actions[0].accepted))
      && GoesOn(Step(w, actions[0]), m, actions[1..])
  }

  /** Once a reader refused, no poll of it begins: only one that already waited returns, and that once. */
  lemma {:induction false} RefusedReturnsOnce(w: World, m: string, actions: seq<Action>)
    requires ReaderOf(w, m).refused && GoesOn(w, m, actions)
    ensures ReaderOf(Run(w, actions), m).refused
    ensures Returned(w, actions, m) <= if ReaderOf(w, m).polling then 1 else 0
    decreases |actions|
  {
    if actions != [] {
      RefusedStep(w, m, actions[0]);
      RefusedReturnsOnce(Step(w, actions[0]), m, actions[1..]);
    }
  }

  /**
   One partition whose start the broker does not say refuses the whole assignment: the reader is handed none of it, and in
   every run until it is started again no poll of it begins after the refusal; so nothing is taken of any partition it
   holds but by a poll that already waited, and that at most once.
   */
  lemma OneUnknownStartStopsAll(w: World, m: string, partitions: set<Partition>, p: Partition, window: int, broker: Broker, actions: seq<Action>)
    requires p in partitions && p in w.topic && w.topic[p].committed > 0 && window > 0
    requires broker.starts.Some? ==> !StartKnown(broker.starts.value, p)
    requires GoesOn(Step(w, Assign(m, partitions, Back(window), broker)), m, actions)
    ensures var next := Step(w, Assign(m, partitions, Back(window), broker));
      && ReaderOf(next, m) == ReaderOf(w, m).(refused := true)
      && ReaderOf(Run(next, actions), m).refused
      && Returned(next, actions, m) <= if ReaderOf(w, m).polling then 1 else 0
  {
    var offsets := CommittedOf(w.topic, partitions);
    assert p in Committed(offsets) && p in Committed(offsets).Keys;
    assert Rewound(offsets, broker).Err?;
    assert offsets != map[] by { assert p in offsets; }
    RefusedReturnsOnce(Step(w, Assign(m, partitions, Back(window), broker)), m, actions);
  }
}
