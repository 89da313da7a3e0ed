/**
 The rebuild of a live table under another sorting key (internal/clickhouse/rebuild.go)
 and the ledger that decides whether it is run again (internal/clickhouse/migrate.go).

 The migrator copies the live table into a staging table, exchanges the two names,
 waits for the writes still on their way to the displaced table, copies what reached it
 late, and drops it.  Writers keep writing and parts keep merging all the while, and the
 migrator may die after any statement: what it knew is lost, and the next attempt reads
 where it stands from the store.  All of this is one machine: `Step` takes one action of
 a writer, of the store's background merges, or of the migrator, and `Run` is any
 interleaving of them.
 */
module Rebuild {
  import opened Wrappers

  /** A row belongs to one partition, and two rows that are equal collapse. */
  datatype Row = Row(partition: string, id: nat)

  /** An active part: the blocks merged into it run from `least` to `newest`. */
  datatype Part = Part(partition: string, least: nat, newest: nat, rows: set<Row>)

  /**
   `next` is the block number the next insert is given; block numbers start at 1.  `key` is the
   sorting key without its white space, which is how two keys are compared.
   */
  datatype Table = Table(key: string, parts: set<Part>, next: nat)

  /** The rows of a set of parts, one part after another. */
  ghost function RowsOf(parts: set<Part>): set<Row> {
    if parts == {} then {}
    else
      var p :| p in parts;
      p.rows + RowsOf(parts - {p})
  }

  lemma {:induction false} RowsOfParts(parts: set<Part>)
    ensures forall r :: r in RowsOf(parts) <==> exists p :: p in parts && r in p.rows
  {
    if parts != {} {
      var p :| p in parts && RowsOf(parts) == p.rows + RowsOf(parts - {p});
      RowsOfParts(parts - {p});
      assert forall q :: q in parts <==> q == p || q in parts - {p};
    }
  }

  ghost function Rows(t: Table): set<Row> {
    RowsOf(t.parts)
  }

  ghost predicate ValidTable(t: Table) {
    && 1 <= t.next
    && forall p :: p in t.parts ==> 1 <= p.newest < t.next
  }

  /**
   The statement the migrator is about to send, with what it carries between statements:
   `through` is the newest block the first copy is known to hold, `left` the partitions it
   has yet to copy, and `pending` the rows an INSERT ... SELECT has read and not yet landed.
   */
  datatype Pc =
    | Idle
    | ReadLedger
    | ReadLiveKey
    | CreateStaging
    | ReadStagedKey
    | ReadThrough
    | ReadPartitions(through: nat)
    | CopyPartitions(through: nat, left: seq<string>)
    | CopyingPartition(through: nat, left: seq<string>, pending: set<Row>)
    | ExchangeNames(through: nat)
    | ReadDisplacedKey(through: nat)
    | Reattach(through: nat)
    | ReadReattachedKey(through: nat)
    | DetachDisplaced(through: nat)
    | AttachDisplaced(through: nat)
    | ReadLate(through: nat)
    | CopyingLate(pending: set<Row>)
    | DropDisplaced
    | Record

  /** Why an attempt returned an error of its own rather than dying. */
  datatype Refusal = NoTable | StagingUnusable | StagingOrderedTheSame

  /**
   The store: its physical tables, the names that resolve to them, the writes under way
   and the ledger; the migrator at work on it, if any; and, for the statements below, every
   row a writer ever landed and every row of the table that was dropped.
   */
  datatype Store = Store(
    tables: map<nat, Table>,
    unused: nat,
    live: Option<nat>,
    staging: Option<nat>,
    detached: Option<nat>,
    writers: map<nat, nat>,
    recorded: bool,
    pc: Pc,
    refusals: set<Refusal>,
    written: set<Row>,
    dropped: set<Row>)

  datatype Action =
    | Resolve(writer: nat)
    | Land(writer: nat, partition: string, rows: set<Row>)
    | Finish(writer: nat)
    | Merge(table: nat, a: Part, b: Part)
    | Start
    | Crash
    | Statement(chunk: set<Row>)

  /** An insert becomes one part, under the next block number. */
  function Landed(t: Table, partition: string, rows: set<Row>): Table {
    t.(parts := t.parts + {Part(partition, t.next, t.next, rows)}, next := t.next + 1)
  }

  function Min(a: nat, b: nat): nat { if a < b then a else b }

  function Max(a: nat, b: nat): nat { if a < b then b else a }

  /** Two parts of one partition replaced by the part holding both. */
  function MergedPart(a: Part, b: Part): Part {
    Part(a.partition, Min(a.least, b.least), Max(a.newest, b.newest), a.rows + b.rows)
  }

  function Merged(t: Table, a: Part, b: Part): Table {
    t.(parts := t.parts - {a, b} + {MergedPart(a, b)})
  }

  /** The newest block of a set of parts, and 0 when there is none. */
  ghost function Newest(parts: set<Part>): (n: nat)
    ensures forall p :: p in parts ==> p.newest <= n
    ensures parts != {} ==> exists p :: p in parts && p.newest == n
    ensures parts == {} ==> n == 0
  {
    if parts == {} then 0
    else
      var p :| p in parts;
      var rest := Newest(parts - {p});
      assert forall q :: q in parts ==> q == p || q in parts - {p};
      Max(p.newest, rest)
  }

  /** The partitions of a set of parts, each once, in some order. */
  ghost function Partitions(parts: set<Part>): (names: seq<string>)
    ensures forall p :: p in parts ==> p.partition in names
    ensures forall name :: name in names ==> exists p :: p in parts && p.partition == name
  {
    if parts == {} then []
    else
      var p :| p in parts;
      var rest := Partitions(parts - {p});
      assert forall q :: q in parts ==> q == p || q in parts - {p};
      if p.partition in rest then rest else [p.partition] + rest
  }

  ghost function RowsIn(t: Table, partition: string): set<Row> {
    RowsOf(set p | p in t.parts && p.partition == partition)
  }

  ghost function RowsAfter(t: Table, through: nat): set<Row> {
    RowsOf(set p | p in t.parts && through < p.newest)
  }

  /** The rows of a chunk an INSERT lands next: one partition's worth of what is pending. */
  ghost function Chunk(pending: set<Row>, chunk: set<Row>): (rows: set<Row>)
    ensures rows <= pending
    ensures pending != {} ==> rows != {}
    ensures forall r, q :: r in rows && q in rows ==> r.partition == q.partition
  {
    var wanted := pending * chunk;
    if wanted != {} && forall r, q :: r in wanted && q in wanted ==> r.partition == q.partition then wanted
    else if pending == {} then {}
    else
      var r :| r in pending;
      {r}
  }

  ghost function PartitionOf(rows: set<Row>): string
    requires rows != {}
  {
    var r :| r in rows;
    r.partition
  }

  ghost function LandChunk(t: Table, rows: set<Row>): Table {
    if rows == {} then t else Landed(t, PartitionOf(rows), rows)
  }

  predicate Held(s: Store, id: nat) {
    exists w :: w in s.writers && s.writers[w] == id
  }

  predicate Exists(s: Store, name: Option<nat>) {
    name.Some? && name.value in s.tables
  }

  /** The attempt ends with an error. */
  function Refuse(s: Store, why: Refusal): Store {
    s.(pc := Idle, refusals := s.refusals + {why})
  }

  /** A statement reaching a table that is not there is an error, and ends the attempt. */
  function Fail(s: Store): Store {
    Refuse(s, NoTable)
  }

  /** The migrator's next statement: Apply, apply, rebuild, copyLive, settle and reattach. */
  ghost function Statements(s: Store, target: string, chunk: set<Row>): Store {
    match s.pc
    case Idle => s
    case ReadLedger =>
      s.(pc := if s.recorded then Idle else ReadLiveKey)
    case ReadLiveKey =>
      if !Exists(s, s.live) then Refuse(s, NoTable)
      else if s.tables[s.live.value].key == target then s.(pc := ReadDisplacedKey(0))
      else s.(pc := CreateStaging)
    case CreateStaging =>
      if s.detached.Some? then Refuse(s, StagingUnusable)
      else if s.staging.Some? then s.(pc := ReadStagedKey)
      else s.(tables := s.tables[s.unused := Table(target, {}, 1)], unused := s.unused + 1,
              staging := Some(s.unused), pc := ReadStagedKey)
    case ReadStagedKey =>
      if !Exists(s, s.staging) || s.tables[s.staging.value].key != target then Refuse(s, StagingUnusable)
      else s.(pc := ReadThrough)
    case ReadThrough =>
      if !Exists(s, s.live) then Fail(s)
      else s.(pc := ReadPartitions(Newest(s.tables[s.live.value].parts)))
    case ReadPartitions(through) =>
      if !Exists(s, s.live) then Fail(s)
      else s.(pc := CopyPartitions(through, Partitions(s.tables[s.live.value].parts)))
    case CopyPartitions(through, left) =>
      if left == [] then s.(pc := ExchangeNames(through))
      else if !Exists(s, s.live) then Fail(s)
      else s.(pc := CopyingPartition(through, left, RowsIn(s.tables[s.live.value], left[0])))
    case CopyingPartition(through, left, pending) =>
      if pending == {} then s.(pc := CopyPartitions(through, if left == [] then [] else left[1..]))
      else if !Exists(s, s.staging) then Fail(s)
      else
        var rows := Chunk(pending, chunk);
        s.(tables := s.tables[s.staging.value := LandChunk(s.tables[s.staging.value], rows)],
           pc := CopyingPartition(through, left, pending - rows))
    case ExchangeNames(through) =>
      if !Exists(s, s.live) || !Exists(s, s.staging) then Fail(s)
      else s.(live := s.staging, staging := s.live, pc := ReadDisplacedKey(through))
    case ReadDisplacedKey(through) =>
      if !Exists(s, s.staging) then s.(pc := Reattach(through))
      else if s.tables[s.staging.value].key == target then Refuse(s, StagingOrderedTheSame)
      else s.(pc := DetachDisplaced(through))
    case Reattach(through) =>
      if s.detached.None? then s.(pc := Record)
      else s.(staging := s.detached, detached := None, pc := ReadReattachedKey(through))
    case ReadReattachedKey(through) =>
      var displaced := if Exists(s, s.staging) then s.tables[s.staging.value].key else "";
      if displaced == target then Refuse(s, StagingOrderedTheSame)
      else s.(pc := DetachDisplaced(through))
    case DetachDisplaced(through) =>
      if !Exists(s, s.staging) then Fail(s)
      else if Held(s, s.staging.value) then s
      else s.(detached := s.staging, staging := None, pc := AttachDisplaced(through))
    case AttachDisplaced(through) =>
      if s.detached.None? then Fail(s)
      else s.(staging := s.detached, detached := None, pc := ReadLate(through))
    case ReadLate(through) =>
      if !Exists(s, s.staging) then Fail(s)
      else s.(pc := CopyingLate(RowsAfter(s.tables[s.staging.value], through)))
    case CopyingLate(pending) =>
      if pending == {} then s.(pc := DropDisplaced)
      else if !Exists(s, s.live) then Fail(s)
      else
        var rows := Chunk(pending, chunk);
        s.(tables := s.tables[s.live.value := LandChunk(s.tables[s.live.value], rows)], pc := CopyingLate(pending - rows))
    case DropDisplaced =>
      if !Exists(s, s.staging) then Fail(s)
      else if Held(s, s.staging.value) then s
      else s.(tables := s.tables - {s.staging.value}, dropped := s.dropped + Rows(s.tables[s.staging.value]),
              staging := None, pc := Record)
    case Record =>
      s.(recorded := true, pc := Idle)
  }

  /** One action.  An action that is not possible where the store stands changes nothing. */
  ghost function Step(s: Store, target: string, a: Action): Store {
    match a
    case Resolve(writer) =>
      if writer in s.writers || !Exists(s, s.live) then s
      else s.(writers := s.writers[writer := s.live.value])
    case Land(writer, partition, rows) =>
      if writer !in s.writers || rows == {} || exists r :: r in rows && r.partition != partition then s
      else if s.writers[writer] !in s.tables then s.(written := s.written + rows)
      else
        var id := s.writers[writer];
        s.(tables := s.tables[id := Landed(s.tables[id], partition, rows)], written := s.written + rows)
    case Finish(writer) =>
      s.(writers := s.writers - {writer})
    case Merge(id, one, other) =>
      if id !in s.tables || one == other || one.partition != other.partition then s
      else if one !in s.tables[id].parts || other !in s.tables[id].parts then s
      else s.(tables := s.tables[id := Merged(s.tables[id], one, other)])
    case Start =>
      if s.pc == Idle then s.(pc := ReadLedger) else s
    case Crash =>
      s.(pc := Idle)
    case Statement(chunk) =>
      Statements(s, target, chunk)
  }

  ghost function Run(s: Store, target: string, actions: seq<Action>): Store
    decreases |actions|
  {
    if actions == [] then s else Step(Run(s, target, actions[..|actions| - 1]), target, actions[|actions| - 1])
  }

  /** A store before the migration: the live table, writers already on their way to it, and nothing staged. */
  ghost predicate Initial(s: Store) {
    && s.live.Some? && s.live.value < s.unused
    && s.tables.Keys == {s.live.value}
    && ValidTable(s.tables[s.live.value])
    && s.staging.None? && s.detached.None?
    && (forall w :: w in s.writers ==> s.writers[w] == s.live.value)
    && !s.recorded && s.pc == Idle && s.refusals == {}
    && s.written == Rows(s.tables[s.live.value]) && s.dropped == {}
  }

  // ---- What every reachable store satisfies ----

  /** Every part no newer than `through`, outside the partitions left, is in the other table or about to land there. */
  ghost predicate Copied(from: Table, into: Table, through: nat, left: seq<string>, pending: set<Row>) {
    forall p :: p in from.parts && p.newest <= through && p.partition !in left ==> p.rows <= Rows(into) + pending
  }

  ghost predicate Sound(s: Store) {
    && s.live.Some? && s.live.value in s.tables
    && s.refusals == {}
    && forall id :: id in s.tables ==> id < s.unused && ValidTable(s.tables[id])
  }

  /** Before the exchange: the live table holds everything written, and the staging table is a part copy of it. */
  ghost predicate Copying(s: Store, target: string)
    requires Sound(s)
  {
    var live := s.tables[s.live.value];
    && !s.recorded && s.dropped == {} && s.detached.None?
    && live.key != target
    && Rows(live) == s.written
    && (forall w :: w in s.writers ==> s.writers[w] == s.live.value)
    && (s.staging.None? ==> s.tables.Keys == {s.live.value})
    && (s.staging.Some? ==>
          && s.staging.value != s.live.value
          && s.tables.Keys == {s.live.value, s.staging.value}
          && s.tables[s.staging.value].key == target
          && Rows(s.tables[s.staging.value]) <= s.written)
    && CopyingAt(s)
  }

  /** What holds at each statement before the exchange. */
  ghost predicate CopyingAt(s: Store)
    requires Sound(s) && (s.staging.Some? ==> s.staging.value in s.tables)
  {
    var live := s.tables[s.live.value];
    match s.pc
       case Idle => true
       case ReadLedger => true
       case ReadLiveKey => true
       case CreateStaging => true
       case ReadStagedKey => s.staging.Some?
       case ReadThrough => s.staging.Some?
       case ReadPartitions(through) => s.staging.Some? && through < live.next
       case CopyPartitions(through, left) =>
         s.staging.Some? && through < live.next && Copied(live, s.tables[s.staging.value], through, left, {})
       case CopyingPartition(through, left, pending) =>
         && s.staging.Some? && through < live.next && left != [] && pending <= s.written
         && Copied(live, s.tables[s.staging.value], through, left[1..], pending)
       case ExchangeNames(through) =>
         s.staging.Some? && through < live.next && Copied(live, s.tables[s.staging.value], through, [], {})
       case _ => false
  }

  ghost function Displaced(s: Store): Option<nat> {
    if s.staging.Some? then s.staging else s.detached
  }

  ghost predicate Unheld(s: Store, id: nat) {
    forall w :: w in s.writers ==> s.writers[w] != id
  }

  /** Between the exchange and the drop: what was written is in the live table or in the displaced one. */
  ghost predicate Settling(s: Store, target: string)
    requires Sound(s)
  {
    var live := s.tables[s.live.value];
    && !s.recorded && s.dropped == {}
    && live.key == target
    && (s.staging.Some? <==> s.detached.None?)
    && Displaced(s).Some?
    && var id := Displaced(s).value;
    && id != s.live.value && s.tables.Keys == {s.live.value, id}
    && var gone := s.tables[id];
    && gone.key != target
    && Rows(live) + Rows(gone) == s.written
    && (forall w :: w in s.writers ==> s.writers[w] in {s.live.value, id})
    && SettlingAt(s, live, id, gone)
  }

  /** What holds at each statement between the exchange and the drop. */
  ghost predicate SettlingAt(s: Store, live: Table, id: nat, gone: Table) {
    match s.pc
       case Idle => true
       case ReadLedger => true
       case ReadLiveKey => true
       case ReadDisplacedKey(through) => through < gone.next && Copied(gone, live, through, [], {})
       case Reattach(through) => s.detached.Some? && through < gone.next && Copied(gone, live, through, [], {})
       case ReadReattachedKey(through) => s.staging.Some? && through < gone.next && Copied(gone, live, through, [], {})
       case DetachDisplaced(through) => s.staging.Some? && through < gone.next && Copied(gone, live, through, [], {})
       case AttachDisplaced(through) =>
         s.detached.Some? && through < gone.next && Copied(gone, live, through, [], {}) && Unheld(s, id)
       case ReadLate(through) =>
         s.staging.Some? && through < gone.next && Copied(gone, live, through, [], {}) && Unheld(s, id)
       case CopyingLate(pending) =>
         s.staging.Some? && pending <= s.written && Rows(gone) <= Rows(live) + pending && Unheld(s, id)
       case DropDisplaced =>
         s.staging.Some? && Rows(gone) <= Rows(live) && Unheld(s, id)
       case _ => false
  }

  /** Once the displaced table is gone: the live table is the only one, and holds everything written. */
  ghost predicate Settled(s: Store, target: string)
    requires Sound(s)
  {
    var live := s.tables[s.live.value];
    && live.key == target
    && s.staging.None? && s.detached.None?
    && s.tables.Keys == {s.live.value}
    && Rows(live) == s.written
    && s.dropped <= Rows(live)
    && (forall w :: w in s.writers ==> s.writers[w] == s.live.value)
    && match s.pc
       case Idle => true
       case ReadLedger => true
       case ReadLiveKey => !s.recorded
       case ReadDisplacedKey(_) => !s.recorded
       case Reattach(_) => !s.recorded
       case Record => !s.recorded
       case _ => false
  }

  ghost predicate Invariant(s: Store, target: string) {
    Sound(s) && (Copying(s, target) || Settling(s, target) || Settled(s, target))
  }

  // ---- Tables under inserts and merges ----

  lemma LandedRows(t: Table, partition: string, rows: set<Row>)
    ensures Rows(Landed(t, partition, rows)) == Rows(t) + rows
    ensures ValidTable(t) ==> ValidTable(Landed(t, partition, rows))
  {
    var added := Part(partition, t.next, t.next, rows);
    RowsOfParts(t.parts);
    RowsOfParts(t.parts + {added});
    assert added in t.parts + {added};
    forall p | p in t.parts ensures p in t.parts + {added} {}
  }

  lemma MergedRows(t: Table, a: Part, b: Part)
    requires a in t.parts && b in t.parts && a.partition == b.partition
    ensures Rows(Merged(t, a, b)) == Rows(t)
    ensures ValidTable(t) ==> ValidTable(Merged(t, a, b))
  {
    var parts' := Merged(t, a, b).parts;
    RowsOfParts(t.parts);
    RowsOfParts(parts');
    assert MergedPart(a, b) in parts';
    forall p | p in t.parts ensures p == a || p == b || p in parts' {}
  }

  lemma LandChunkRows(t: Table, pending: set<Row>, chunk: set<Row>)
    ensures var rows := Chunk(pending, chunk); Rows(LandChunk(t, rows)) == Rows(t) + rows
    ensures var t' := LandChunk(t, Chunk(pending, chunk)); (ValidTable(t) ==> ValidTable(t')) && t'.key == t.key && t.next <= t'.next
  {
    var rows := Chunk(pending, chunk);
    if rows != {} {
      LandedRows(t, PartitionOf(rows), rows);
    }
  }

  // ---- The invariant ----

  lemma InitialHolds(s: Store, target: string)
    requires Initial(s)
    ensures Invariant(s, target)
  {
    if s.tables[s.live.value].key == target {
      assert Settled(s, target);
    } else {
      assert Copying(s, target);
    }
  }

  /** What an insert of `more`, or a merge, makes of a table. */
  ghost predicate Changes(t: Table, t': Table, more: set<Row>) {
    || (exists partition :: t' == Landed(t, partition, more))
    || (more == {} && exists a, b :: a in t.parts && b in t.parts && a.partition == b.partition && t' == Merged(t, a, b))
  }

  lemma ChangedRows(t: Table, t': Table, more: set<Row>)
    requires Changes(t, t', more)
    ensures Rows(t') == Rows(t) + more && t'.key == t.key && t.next <= t'.next
    ensures ValidTable(t) ==> ValidTable(t')
  {
    if partition :| t' == Landed(t, partition, more) {
      LandedRows(t, partition, more);
    } else {
      var a, b :| a in t.parts && b in t.parts && a.partition == b.partition && t' == Merged(t, a, b);
      MergedRows(t, a, b);
    }
  }

  /** A copy stays a copy while either table changes: a new block is newer than `through`, and a merged part is as new as its newest. */
  lemma CopiedKept(from: Table, into: Table, through: nat, left: seq<string>, pending: set<Row>, from': Table, more: set<Row>, into': Table)
    requires Copied(from, into, through, left, pending) && through < from.next
    requires from' == from || Changes(from, from', more)
    requires Rows(into) <= Rows(into')
    ensures Copied(from', into', through, left, pending)
  {
  }

  /** A change to a table keeps what the statement the copy stands at needs. */
  lemma TouchKeepsCopyingAt(s: Store, target: string, id: nat, t': Table, more: set<Row>)
    requires Sound(s) && Copying(s, target) && id in s.tables && Changes(s.tables[id], t', more)
    requires var s' := s.(tables := s.tables[id := t'], written := s.written + more); Sound(s')
    ensures CopyingAt(s.(tables := s.tables[id := t'], written := s.written + more))
  {
    var s' := s.(tables := s.tables[id := t'], written := s.written + more);
    ChangedRows(s.tables[id], t', more);
    if s.staging.Some? {
      var live, live' := s.tables[s.live.value], s'.tables[s.live.value];
      var staged, staged' := s.tables[s.staging.value], s'.tables[s.staging.value];
      assert live' == live || Changes(live, live', more);
      assert Rows(staged) <= Rows(staged') && live.next <= live'.next;
      match s.pc {
        case CopyPartitions(through, left) => CopiedKept(live, staged, through, left, {}, live', more, staged');
        case CopyingPartition(through, left, pending) => CopiedKept(live, staged, through, left[1..], pending, live', more, staged');
        case ExchangeNames(through) => CopiedKept(live, staged, through, [], {}, live', more, staged');
        case _ =>
      }
    }
  }

  lemma TouchKeepsCopying(s: Store, target: string, id: nat, t': Table, more: set<Row>)
    requires Sound(s) && Copying(s, target) && id in s.tables && Changes(s.tables[id], t', more)
    requires more != {} ==> !Unheld(s, id)
    ensures var s' := s.(tables := s.tables[id := t'], written := s.written + more); Sound(s') && Copying(s', target)
  {
    var s' := s.(tables := s.tables[id := t'], written := s.written + more);
    ChangedRows(s.tables[id], t', more);
    assert Sound(s');
    TouchKeepsCopyingAt(s, target, id, t', more);
    assert Rows(s'.tables[s.live.value]) == s'.written;
  }

  lemma SettlingAtKept(s: Store, live: Table, id: nat, gone: Table, live': Table, gone': Table, more: set<Row>)
    requires SettlingAt(s, live, id, gone)
    requires (gone' == gone && Changes(live, live', more)) || (live' == live && Changes(gone, gone', more))
    requires gone' != gone && more != {} ==> !Unheld(s, id)
    ensures SettlingAt(s.(written := s.written + more), live', id, gone')
  {
    if gone' == gone && Changes(live, live', more) { ChangedRows(live, live', more); } else { ChangedRows(gone, gone', more); }
    if s.pc.ReadDisplacedKey? || s.pc.Reattach? || s.pc.ReadReattachedKey? || s.pc.DetachDisplaced? || s.pc.AttachDisplaced? || s.pc.ReadLate? {
      CopiedKept(gone, live, s.pc.through, [], {}, gone', more, live');
    }
  }

  /** Two tables of the target key and another, changed and still sound, settle on. */
  lemma ChangedSettles(s: Store, target: string, s': Store)
    requires Sound(s) && Settling(s, target) && Sound(s') && s' == s.(tables := s'.tables, written := s'.written) && s'.tables.Keys == s.tables.Keys
    requires var live, gone := s'.tables[s.live.value], s'.tables[Displaced(s).value];
      && live.key == s.tables[s.live.value].key && gone.key == s.tables[Displaced(s).value].key
      && Rows(live) + Rows(gone) == s'.written && SettlingAt(s', live, Displaced(s).value, gone)
    ensures Settling(s', target)
  {
  }

  lemma TouchIsSound(s: Store, id: nat, t': Table, more: set<Row>)
    requires Sound(s) && id in s.tables && Changes(s.tables[id], t', more)
    ensures Sound(s.(tables := s.tables[id := t'], written := s.written + more))
  {
    ChangedRows(s.tables[id], t', more);
  }

  lemma TouchLiveKeepsSettling(s: Store, target: string, t': Table, more: set<Row>)
    requires Sound(s) && Settling(s, target) && Changes(s.tables[s.live.value], t', more)
    ensures var s' := s.(tables := s.tables[s.live.value := t'], written := s.written + more); Sound(s') && Settling(s', target)
  {
    var id, live, gone := Displaced(s).value, s.tables[s.live.value], s.tables[Displaced(s).value];
    var s' := s.(tables := s.tables[s.live.value := t'], written := s.written + more);
    TouchIsSound(s, s.live.value, t', more);
    ChangedRows(live, t', more);
    SettlingAtKept(s, live, id, gone, t', gone, more);
    SettlingAtOf(s.(written := s.written + more), s', t', id, gone);
    assert s'.tables[s.live.value] == t' && s'.tables[id] == gone && s'.tables.Keys == s.tables.Keys;
    ChangedSettles(s, target, s');
  }

  lemma TouchGoneKeepsSettling(s: Store, target: string, t': Table, more: set<Row>)
    requires Sound(s) && Settling(s, target) && Changes(s.tables[Displaced(s).value], t', more)
    requires more != {} ==> !Unheld(s, Displaced(s).value)
    ensures var s' := s.(tables := s.tables[Displaced(s).value := t'], written := s.written + more); Sound(s') && Settling(s', target)
  {
    var id, live, gone := Displaced(s).value, s.tables[s.live.value], s.tables[Displaced(s).value];
    var s' := s.(tables := s.tables[id := t'], written := s.written + more);
    TouchIsSound(s, id, t', more);
    ChangedRows(gone, t', more);
    SettlingAtKept(s, live, id, gone, live, t', more);
    SettlingAtOf(s.(written := s.written + more), s', live, id, t');
    assert s'.tables[s.live.value] == live && s'.tables[id] == t' && s'.tables.Keys == s.tables.Keys;
    ChangedSettles(s, target, s');
  }

  lemma TouchKeepsSettling(s: Store, target: string, id: nat, t': Table, more: set<Row>)
    requires Sound(s) && Settling(s, target) && id in s.tables && Changes(s.tables[id], t', more)
    requires more != {} ==> !Unheld(s, id)
    ensures var s' := s.(tables := s.tables[id := t'], written := s.written + more); Sound(s') && Settling(s', target)
  {
    if id == s.live.value {
      TouchLiveKeepsSettling(s, target, t', more);
    } else {
      assert id == Displaced(s).value;
      TouchGoneKeepsSettling(s, target, t', more);
    }
  }

  /** Which tables there are is not among what a statement needs beyond these two. */
  lemma SettlingAtOf(s: Store, s': Store, live: Table, id: nat, gone: Table)
    requires s' == s.(tables := s'.tables) && SettlingAt(s, live, id, gone)
    ensures SettlingAt(s', live, id, gone)
  {
  }

  lemma TouchKeeps(s: Store, target: string, id: nat, t': Table, more: set<Row>)
    requires Invariant(s, target) && id in s.tables && Changes(s.tables[id], t', more)
    requires more != {} ==> !Unheld(s, id)
    ensures Invariant(s.(tables := s.tables[id := t'], written := s.written + more), target)
  {
    if Copying(s, target) {
      TouchKeepsCopying(s, target, id, t', more);
    } else if Settling(s, target) {
      TouchKeepsSettling(s, target, id, t', more);
    } else {
      var s' := s.(tables := s.tables[id := t'], written := s.written + more);
      ChangedRows(s.tables[id], t', more);
      assert Settled(s', target);
    }
  }

  /** A change of who is writing, of which table. */
  lemma WritersKeep(s: Store, target: string, writers: map<nat, nat>)
    requires Invariant(s, target)
    requires forall w :: w in writers ==> writers[w] == s.live.value || (w in s.writers && writers[w] == s.writers[w])
    ensures Invariant(s.(writers := writers), target)
  {
    var s' := s.(writers := writers);
    assert Sound(s');
    if Copying(s, target) {
      assert CopyingAt(s');
    } else if Settling(s, target) {
      assert SettlingAt(s', s.tables[s.live.value], Displaced(s).value, s.tables[Displaced(s).value]);
    }
  }

  lemma LandKeeps(s: Store, target: string, writer: nat, partition: string, rows: set<Row>)
    requires Invariant(s, target) && writer in s.writers
    ensures s.writers[writer] in s.tables
    ensures Invariant(s.(tables := s.tables[s.writers[writer] := Landed(s.tables[s.writers[writer]], partition, rows)],
                         written := s.written + rows), target)
  {
    var id := s.writers[writer];
    assert id in s.tables;
    assert !Unheld(s, id);
    TouchKeeps(s, target, id, Landed(s.tables[id], partition, rows), rows);
  }

  lemma MergeKeeps(s: Store, target: string, id: nat, a: Part, b: Part)
    requires Invariant(s, target) && id in s.tables
    requires a in s.tables[id].parts && b in s.tables[id].parts && a.partition == b.partition
    ensures Invariant(s.(tables := s.tables[id := Merged(s.tables[id], a, b)]), target)
  {
    TouchKeeps(s, target, id, Merged(s.tables[id], a, b), {});
    assert s.written + {} == s.written;
  }

  /** A migrator that starts, or that dies, changes only where it stands. */
  lemma PcKeeps(s: Store, target: string, pc: Pc)
    requires Invariant(s, target) && (pc == Idle || pc == ReadLedger)
    ensures Invariant(s.(pc := pc), target)
  {
    var s' := s.(pc := pc);
    assert Sound(s');
    if Copying(s, target) {
      assert Copying(s', target);
    } else if Settling(s, target) {
      assert Settling(s', target);
    }
  }

  lemma CopyLoopKeeps(s: Store, target: string, chunk: set<Row>)
    requires Sound(s) && Copying(s, target) && (s.pc.ReadPartitions? || s.pc.CopyPartitions?)
    ensures var s' := Statements(s, target, chunk); Sound(s') && Copying(s', target)
  {
    var s' := Statements(s, target, chunk);
    var live, staged := s.tables[s.live.value], s.tables[s.staging.value];
    if s.pc.CopyPartitions? && s.pc.left != [] {
      var through, left, pending := s.pc.through, s.pc.left, RowsIn(live, s.pc.left[0]);
      RowsOfParts(live.parts);
      RowsOfParts(set p | p in live.parts && p.partition == left[0]);
      forall p | p in live.parts && p.newest <= through && p.partition !in left[1..]
        ensures p.rows <= Rows(staged) + pending
      {
        if p.partition in left { assert p.partition == left[0]; }
      }
      assert pending <= s.written;
      assert CopyingAt(s');
    }
    assert Copying(s', target);
  }

  lemma CopyChunkKeeps(s: Store, target: string, chunk: set<Row>)
    requires Sound(s) && Copying(s, target) && s.pc.CopyingPartition?
    ensures var s' := Statements(s, target, chunk); Sound(s') && Copying(s', target)
  {
    var s' := Statements(s, target, chunk);
    if s.pc.pending == {} {
      assert s' == s.(pc := CopyPartitions(s.pc.through, s.pc.left[1..]));
    } else {
      var rows := Chunk(s.pc.pending, chunk);
      var staged' := LandChunk(s.tables[s.staging.value], rows);
      LandChunkRows(s.tables[s.staging.value], s.pc.pending, chunk);
      assert s' == s.(tables := s.tables[s.staging.value := staged'], pc := s.pc.(pending := s.pc.pending - rows));
      assert CopyingAt(s');
    }
  }

  lemma ExchangeKeeps(s: Store, target: string, chunk: set<Row>)
    requires Sound(s) && Copying(s, target) && s.pc.ExchangeNames?
    ensures var s' := Statements(s, target, chunk); Sound(s') && Settling(s', target)
  {
    var s' := Statements(s, target, chunk);
    assert s' == s.(live := s.staging, staging := s.live, pc := ReadDisplacedKey(s.pc.through));
    var live, gone := s.tables[s.staging.value], s.tables[s.live.value];
    assert Rows(live) + Rows(gone) == s.written;
    assert SettlingAt(s', live, s.live.value, gone);
  }

  lemma CopyingKeeps(s: Store, target: string, chunk: set<Row>)
    requires Sound(s) && Copying(s, target)
    ensures Invariant(Statements(s, target, chunk), target)
  {
    if s.pc.ReadPartitions? || s.pc.CopyPartitions? {
      CopyLoopKeeps(s, target, chunk);
    } else if s.pc.CopyingPartition? {
      CopyChunkKeeps(s, target, chunk);
    } else if s.pc.ExchangeNames? {
      ExchangeKeeps(s, target, chunk);
    } else if s.pc.CreateStaging? {
      CreateKeeps(s, target, chunk);
    } else {
      BeforeCopyingKeeps(s, target, chunk);
    }
  }

  lemma CreateKeeps(s: Store, target: string, chunk: set<Row>)
    requires Sound(s) && Copying(s, target) && s.pc.CreateStaging?
    ensures Invariant(Statements(s, target, chunk), target)
  {
    var s' := Statements(s, target, chunk);
    if s.staging.None? {
      assert Rows(s'.tables[s'.staging.value]) == {};
    }
    assert Sound(s');
    assert Copying(s', target);
  }

  lemma BeforeCopyingKeeps(s: Store, target: string, chunk: set<Row>)
    requires Sound(s) && Copying(s, target)
    requires !s.pc.ReadPartitions? && !s.pc.CopyPartitions? && !s.pc.CopyingPartition? && !s.pc.ExchangeNames? && !s.pc.CreateStaging?
    ensures Invariant(Statements(s, target, chunk), target)
  {
    var s' := Statements(s, target, chunk);
    assert s' == s.(pc := s'.pc);
    assert s.pc.ReadThrough? ==> s'.pc == ReadPartitions(Newest(s.tables[s.live.value].parts));
    OnlyPcMoves(s, target, s'.pc);
  }

  /** A statement that reads and goes on keeps what holds before the exchange. */
  lemma OnlyPcMoves(s: Store, target: string, pc: Pc)
    requires Sound(s) && Copying(s, target)
    requires pc in {Idle, ReadLedger, ReadLiveKey, CreateStaging} || (pc == ReadThrough && s.staging.Some?)
             || (pc == ReadPartitions(Newest(s.tables[s.live.value].parts)) && s.staging.Some?)
    ensures Sound(s.(pc := pc)) && Copying(s.(pc := pc), target)
  {
  }

  lemma LateRows(gone: Table, live: Table, through: nat)
    requires Copied(gone, live, through, [], {})
    ensures RowsAfter(gone, through) <= Rows(gone) <= Rows(live) + RowsAfter(gone, through)
  {
    var late := set p | p in gone.parts && through < p.newest;
    RowsOfParts(gone.parts);
    RowsOfParts(late);
    forall r | r in Rows(gone)
      ensures r in Rows(live) + RowsAfter(gone, through)
    {
      var p :| p in gone.parts && r in p.rows;
      if through < p.newest { assert p in late; }
    }
  }

  lemma ReadLateKeeps(s: Store, target: string, chunk: set<Row>)
    requires Sound(s) && Settling(s, target) && s.pc.ReadLate?
    ensures var s' := Statements(s, target, chunk); Sound(s') && Settling(s', target)
  {
    var s' := Statements(s, target, chunk);
    LateRows(s.tables[s.staging.value], s.tables[s.live.value], s.pc.through);
    assert s' == s.(pc := s'.pc);
  }

  /** A chunk of what came late lands in the live table. */
  lemma LateChunkKeeps(s: Store, target: string, chunk: set<Row>)
    requires Sound(s) && Settling(s, target) && s.pc.CopyingLate? && s.pc.pending != {}
    ensures var s' := Statements(s, target, chunk); Sound(s') && Settling(s', target)
  {
    var s' := Statements(s, target, chunk);
    var live, rows := s.tables[s.live.value], Chunk(s.pc.pending, chunk);
    LandChunkRows(live, s.pc.pending, chunk);
    assert s' == s.(tables := s.tables[s.live.value := LandChunk(live, rows)], pc := CopyingLate(s.pc.pending - rows));
    assert SettlingAt(s', s'.tables[s'.live.value], s'.staging.value, s'.tables[s'.staging.value]);
  }

  lemma LateCopyKeeps(s: Store, target: string, chunk: set<Row>)
    requires Sound(s) && Settling(s, target) && (s.pc.ReadLate? || s.pc.CopyingLate?)
    ensures var s' := Statements(s, target, chunk); Sound(s') && Settling(s', target)
  {
    if s.pc.ReadLate? {
      ReadLateKeeps(s, target, chunk);
    } else if s.pc.pending == {} {
      assert Statements(s, target, chunk) == s.(pc := DropDisplaced);
    } else {
      LateChunkKeeps(s, target, chunk);
    }
  }

  lemma DropKeeps(s: Store, target: string, chunk: set<Row>)
    requires Sound(s) && Settling(s, target) && s.pc.DropDisplaced?
    ensures var s' := Statements(s, target, chunk); Sound(s') && Settled(s', target)
  {
    var s' := Statements(s, target, chunk);
    assert !Held(s, s.staging.value);
    assert s'.tables.Keys == {s.live.value};
    assert Settled(s', target);
  }

  lemma SettlingKeeps(s: Store, target: string, chunk: set<Row>)
    requires Sound(s) && Settling(s, target)
    ensures Invariant(Statements(s, target, chunk), target)
  {
    if s.pc.ReadLate? || s.pc.CopyingLate? {
      LateCopyKeeps(s, target, chunk);
    } else if s.pc.DropDisplaced? {
      DropKeeps(s, target, chunk);
    } else {
      NamesKeep(s, target, chunk);
    }
  }

  /** Moving the displaced table between its names keeps the two tables as they are. */
  lemma RenamedSettles(s: Store, target: string, s': Store)
    requires Sound(s) && Settling(s, target) && s' == s.(staging := s'.staging, detached := s'.detached, pc := s'.pc)
    requires (s'.staging.Some? <==> s'.detached.None?) && Displaced(s') == Displaced(s)
    requires SettlingAt(s', s.tables[s.live.value], Displaced(s).value, s.tables[Displaced(s).value])
    ensures Sound(s') && Settling(s', target)
  {
  }

  lemma ReattachKeeps(s: Store, target: string, chunk: set<Row>)
    requires Sound(s) && Settling(s, target) && (s.pc.Reattach? || s.pc.AttachDisplaced?)
    ensures var s' := Statements(s, target, chunk); Sound(s') && Settling(s', target)
  {
    var s' := Statements(s, target, chunk);
    assert s' == s.(staging := s.detached, detached := None, pc := s'.pc);
    RenamedSettles(s, target, s');
  }

  lemma DetachKeeps(s: Store, target: string, chunk: set<Row>)
    requires Sound(s) && Settling(s, target) && s.pc.DetachDisplaced?
    ensures var s' := Statements(s, target, chunk); Sound(s') && Settling(s', target)
  {
    var s' := Statements(s, target, chunk);
    if s' != s {
      assert s' == s.(staging := None, detached := s.staging, pc := s'.pc);
      RenamedSettles(s, target, s');
    }
  }

  lemma ReadsKeep(s: Store, target: string, chunk: set<Row>)
    requires Sound(s) && Settling(s, target)
    requires s.pc in {Idle, ReadLedger, ReadLiveKey} || s.pc.ReadDisplacedKey? || s.pc.ReadReattachedKey?
    ensures var s' := Statements(s, target, chunk); Sound(s') && Settling(s', target)
  {
    var s' := Statements(s, target, chunk);
    assert s' == s.(pc := s'.pc);
    if s.pc == ReadLiveKey {
      assert s'.pc == ReadDisplacedKey(0);
    }
    RenamedSettles(s, target, s');
  }

  /** The statements that only read a key, or detach and attach the displaced table. */
  lemma NamesKeep(s: Store, target: string, chunk: set<Row>)
    requires Sound(s) && Settling(s, target) && !s.pc.ReadLate? && !s.pc.CopyingLate? && !s.pc.DropDisplaced?
    ensures var s' := Statements(s, target, chunk); Sound(s') && Settling(s', target)
  {
    if s.pc.Reattach? || s.pc.AttachDisplaced? {
      ReattachKeeps(s, target, chunk);
    } else if s.pc.DetachDisplaced? {
      DetachKeeps(s, target, chunk);
    } else {
      ReadsKeep(s, target, chunk);
    }
  }

  lemma StepKeeps(s: Store, target: string, a: Action)
    requires Invariant(s, target)
    ensures Invariant(Step(s, target, a), target)
  {
    var s' := Step(s, target, a);
    match a {
      case Resolve(_) => WritersKeep(s, target, s'.writers);
      case Land(writer, partition, rows) => if writer in s.writers { LandKeeps(s, target, writer, partition, rows); }
      case Finish(_) => WritersKeep(s, target, s'.writers);
      case Merge(id, one, other) => if s' != s { MergeKeeps(s, target, id, one, other); }
      case Start => PcKeeps(s, target, ReadLedger);
      case Crash => PcKeeps(s, target, Idle);
      case Statement(chunk) => StatementKeeps(s, target, chunk);
    }
  }

  lemma StatementKeeps(s: Store, target: string, chunk: set<Row>)
    requires Invariant(s, target)
    ensures Invariant(Statements(s, target, chunk), target)
  {
    if Copying(s, target) {
      CopyingKeeps(s, target, chunk);
    } else if Settling(s, target) {
      SettlingKeeps(s, target, chunk);
    } else {
      assert Settled(Statements(s, target, chunk), target);
    }
  }

  lemma {:induction false} RunKeeps(s: Store, target: string, actions: seq<Action>)
    requires Invariant(s, target)
    ensures Invariant(Run(s, target, actions), target)
    decreases |actions|
  {
    if actions != [] {
      RunKeeps(s, target, actions[..|actions| - 1]);
      StepKeeps(Run(s, target, actions[..|actions| - 1]), target, actions[|actions| - 1]);
    }
  }

  // ---- What the rebuild promises ----

  /** What a reader finds under a name, attached or not. */
  ghost function RowsUnder(s: Store, name: Option<nat>): set<Row> {
    if Exists(s, name) then Rows(s.tables[name.value]) else {}
  }

  /**
   At every moment of every run no row a writer landed is lost: it is in the live table or in the
   displaced one, and no reader finds a row nobody wrote.
   */
  lemma NothingIsLost(s: Store, target: string, actions: seq<Action>)
    requires Initial(s)
    ensures var now := Run(s, target, actions);
      RowsUnder(now, now.live) + RowsUnder(now, now.staging) + RowsUnder(now, now.detached) == now.written
  {
    InitialHolds(s, target);
    RunKeeps(s, target, actions);
  }

  /**
   Once the migration is recorded, in every run, the live table is ordered as the migration asks, holds
   exactly the rows ever written, is the only table left, and is the table every write on its way resolved.
   */
  lemma RecordedMeansRebuilt(s: Store, target: string, actions: seq<Action>)
    requires Initial(s)
    requires Run(s, target, actions).recorded
    ensures var now := Run(s, target, actions);
      && now.live.Some? && now.tables.Keys == {now.live.value}
      && now.tables[now.live.value].key == target
      && Rows(now.tables[now.live.value]) == now.written
      && now.staging.None? && now.detached.None?
      && forall w :: w in now.writers ==> now.writers[w] == now.live.value
  {
    InitialHolds(s, target);
    RunKeeps(s, target, actions);
  }

  /** In every run, the table that was dropped held nothing the live table lacks. */
  lemma DroppedNothingOfItsOwn(s: Store, target: string, actions: seq<Action>)
    requires Initial(s)
    ensures var now := Run(s, target, actions); now.dropped <= RowsUnder(now, now.live)
  {
    InitialHolds(s, target);
    RunKeeps(s, target, actions);
  }

  /**
   No attempt of any run is refused: the live table is always there, the staging table is always the one
   this migration made, and a staging table ordered as the live one is never met while settling.
   */
  lemma NeverRefused(s: Store, target: string, actions: seq<Action>)
    requires Initial(s)
    ensures Run(s, target, actions).refusals == {}
  {
    InitialHolds(s, target);
    RunKeeps(s, target, actions);
  }

  // ---- An attempt left alone finishes ----

  /** How far a statement is from the recording of the migration. */
  ghost function Distance(pc: Pc): nat {
    match pc
    case Idle => 19
    case ReadLedger => 18
    case ReadLiveKey => 17
    case CreateStaging => 16
    case ReadStagedKey => 15
    case ReadThrough => 14
    case ReadPartitions(_) => 13
    case CopyPartitions(_, _) => 12
    case CopyingPartition(_, _, _) => 12
    case ExchangeNames(_) => 11
    case ReadDisplacedKey(_) => 10
    case Reattach(_) => 9
    case ReadReattachedKey(_) => 8
    case DetachDisplaced(_) => 7
    case AttachDisplaced(_) => 6
    case ReadLate(_) => 5
    case CopyingLate(_) => 4
    case DropDisplaced => 3
    case Record => 2
  }

  ghost function Left(pc: Pc): nat {
    match pc
    case CopyPartitions(_, left) => 2 * |left| + 1
    case CopyingPartition(_, left, _) => 2 * |left|
    case _ => 0
  }

  ghost function Pending(pc: Pc): set<Row> {
    match pc
    case CopyingPartition(_, _, pending) => pending
    case CopyingLate(pending) => pending
    case _ => {}
  }

  ghost predicate Nearer(pc': Pc, pc: Pc) {
    || Distance(pc') < Distance(pc)
    || (Distance(pc') == Distance(pc) && Left(pc') < Left(pc))
    || (Distance(pc') == Distance(pc) && Left(pc') == Left(pc) && Pending(pc') < Pending(pc))
  }

  lemma CopyLoopAdvances(s: Store, target: string)
    requires Sound(s) && Copying(s, target) && (s.pc.CopyPartitions? || s.pc.CopyingPartition?)
    ensures Nearer(Statements(s, target, {}).pc, s.pc)
  {
  }

  lemma CopyingAdvances(s: Store, target: string)
    requires Sound(s) && Copying(s, target) && s.pc != Idle
    ensures Nearer(Statements(s, target, {}).pc, s.pc)
  {
    if s.pc.CopyPartitions? || s.pc.CopyingPartition? {
      CopyLoopAdvances(s, target);
    }
  }

  lemma LateAdvances(s: Store, target: string)
    requires Sound(s) && Settling(s, target) && s.writers == map[] && (s.pc.ReadLate? || s.pc.CopyingLate? || s.pc.DropDisplaced?)
    ensures Nearer(Statements(s, target, {}).pc, s.pc)
  {
  }

  lemma SettlingAdvances(s: Store, target: string)
    requires Sound(s) && Settling(s, target) && s.writers == map[] && s.pc != Idle
    ensures Nearer(Statements(s, target, {}).pc, s.pc)
  {
    if s.pc.ReadLate? || s.pc.CopyingLate? || s.pc.DropDisplaced? {
      LateAdvances(s, target);
    }
  }

  /** While nobody writes, every statement of an attempt takes it nearer to recording. */
  lemma StatementAdvances(s: Store, target: string)
    requires Invariant(s, target) && s.writers == map[] && s.pc != Idle && !s.recorded
    ensures var s' := Statements(s, target, {}); s'.recorded || Nearer(s'.pc, s.pc)
    ensures Statements(s, target, {}).writers == map[]
  {
    if Copying(s, target) {
      CopyingAdvances(s, target);
    } else if Settling(s, target) {
      SettlingAdvances(s, target);
    }
  }

  lemma {:induction false} RunThen(s: Store, target: string, first: seq<Action>, rest: seq<Action>)
    ensures Run(s, target, first + rest) == Run(Run(s, target, first), target, rest)
    decreases |rest|
  {
    if rest == [] {
      assert first + rest == first;
    } else {
      assert (first + rest)[..|first + rest| - 1] == first + rest[..|rest| - 1];
      RunThen(s, target, first, rest[..|rest| - 1]);
    }
  }

  lemma RunAfter(s: Store, target: string, a: Action, rest: seq<Action>)
    ensures Run(s, target, [a] + rest) == Run(Step(s, target, a), target, rest)
  {
    RunThen(s, target, [a], rest);
    assert [a][..0] == [];
    assert Run(s, target, [a]) == Step(s, target, a);
  }

  lemma {:induction false} FinishesAlone(s: Store, target: string) returns (tail: seq<Action>)
    requires Invariant(s, target) && s.writers == map[] && s.pc != Idle && !s.recorded
    ensures Run(s, target, tail).recorded
    decreases Distance(s.pc), Left(s.pc), Pending(s.pc)
  {
    var s' := Statements(s, target, {});
    StatementAdvances(s, target);
    StatementKeeps(s, target, {});
    if s'.recorded {
      tail := [];
    } else {
      tail := FinishesAlone(s', target);
    }
    RunAfter(s, target, Statement({}), tail);
    tail := [Statement({})] + tail;
  }

  lemma {:induction false} WritersFinish(s: Store, target: string) returns (tail: seq<Action>)
    requires Invariant(s, target)
    ensures Run(s, target, tail) == s.(writers := map[])
    decreases s.writers.Keys
  {
    if s.writers == map[] {
      tail := [];
    } else {
      var w :| w in s.writers;
      var s' := Step(s, target, Finish(w));
      StepKeeps(s, target, Finish(w));
      assert s'.writers.Keys < s.writers.Keys;
      tail := WritersFinish(s', target);
      RunAfter(s, target, Finish(w), tail);
      tail := [Finish(w)] + tail;
    }
  }

  /**
   Wherever a run stands, however often it crashed and whatever it left in the store, the writes under way
   can end and the migration can be run through to its record.
   */
  lemma AlwaysResumable(s: Store, target: string, actions: seq<Action>)
    requires Initial(s)
    ensures exists tail :: Run(Run(s, target, actions), target, tail).recorded
  {
    InitialHolds(s, target);
    RunKeeps(s, target, actions);
    var now := Run(s, target, actions);
    var drain := WritersFinish(now, target);
    RunKeeps(now, target, drain);
    if !now.recorded {
      var rest := QuietFinishes(now.(writers := map[]), target);
      RunThen(now, target, drain, rest);
      assert Run(now, target, drain + rest).recorded;
    } else {
      assert Run(now, target, []).recorded;
    }
  }

  /** With no write under way, the migration runs from where it stands, or from its start, to its record. */
  lemma QuietFinishes(quiet: Store, target: string) returns (tail: seq<Action>)
    requires Invariant(quiet, target) && quiet.writers == map[] && !quiet.recorded
    ensures Run(quiet, target, tail).recorded
  {
    if quiet.pc == Idle {
      var begun := Step(quiet, target, Start);
      StepKeeps(quiet, target, Start);
      var rest := FinishesAlone(begun, target);
      RunAfter(quiet, target, Start, rest);
      tail := [Start] + rest;
    } else {
      tail := FinishesAlone(quiet, target);
    }
  }
}
