/** The catalog log of one bucket as a state machine: what is on disk, what Meta
    holds, what a process holds in memory, and every step that changes them. */
module CatalogLog {
  import opened Options

  type Seq = nat
  type Block = nat

  /** A segment's row in Meta. */
  datatype Row = Row(sealed: bool, shipped: bool, retired: bool)

  /** A segment in memory. */
  datatype Segment = Segment(
    index: set<Block>, frozen: bool, idxWritten: bool, recorded: bool,
    flushed: bool,      // a flush in progress has published the CAR, its stamp is not in yet
    shipped: bool, unlinked: bool)

  /** A batch appended and not yet committed; the bucket's lock allows one. */
  datatype Batch = Batch(seg: Seq, blocks: set<Block>)

  /** A recovery in progress. */
  datatype Recovery = Recovery(
    rows0: set<Seq>,              // the unretired rows it read
    onDisk: set<Seq>,             // the CARs it found
    todo: set<Seq>,               // the CARs not reconciled yet
    opens: set<Seq>,              // rebuilt as open, to be force-sealed
    lost: Option<set<Seq>>,       // once the rebuild runs: journaled, not on disk
    cur: Option<Seq>,             // the segment the rebuild writes
    copied: Option<Batch>)        // blocks of a lost segment written to it, rows not moved yet

  datatype Phase = Down | Recovering(r: Recovery) | Up

  datatype State = State(
    retain: nat,
    // disk
    cars: map<Seq, set<Block>>, idx: set<Seq>, away: map<Seq, set<Block>>,
    // Meta
    rows: map<Seq, Row>, journal: map<Seq, set<Block>>, nextSeq: Seq,
    // memory
    phase: Phase, creating: Option<Seq>, open: Option<Seq>,
    segs: map<Seq, Segment>, order: seq<Seq>, inflight: Option<Batch>,
    // history
    content: map<Seq, set<Block>>, committed: set<Block>, published: set<Block>,
    flushed: set<Seq>)

  /** Steps of the running log. */
  datatype LogStep =
    | Create(seg: Seq) | InsertOpen | DropCreated
    | Append(blocks: set<Block>) | Commit | Abort
    | Freeze | WriteIdx(seg: Seq) | Record(seg: Seq)
    | Flush(seg: Seq) | Stamp(seg: Seq) | GiveUp(seg: Seq)
    | Unlink(seg: Seq) | UnlinkIdx(seg: Seq) | RetireRow(seg: Seq)

  /** What the world does: a file goes and may come back, or goes for good. */
  datatype WorldStep = Lose(seg: Seq) | Destroy(seg: Seq) | LoseIdx(seg: Seq) | Return(seg: Seq) | Crash

  /** Recovery reconciles the CARs it finds with the rows it reads. */
  datatype ScanStep =
    | Start | RemoveRetired(seg: Seq) | LoadSealed(seg: Seq) | Reindex(seg: Seq)
    | SealFromIdx(seg: Seq) | RebuildOpen(seg: Seq) | ForceIdx(seg: Seq) | ForceRecord(seg: Seq)
    | DropStray(seg: Seq)

  /** Then it rebuilds lost segments from the journal and retires rows without CARs. */
  datatype RebuildStep =
    | StartRebuild | RebuildCreate(seg: Seq) | RebuildInsert
    | RebuildCopy(from: Seq, blocks: set<Block>) | RebuildMove | RebuildIdx | RebuildRecord
    | OrphanSealed(seg: Seq) | OrphanOpen(seg: Seq) | Finish(list: seq<Seq>)

  datatype Step = Log(log: LogStep) | World(world: WorldStep) | Scan(scan: ScanStep) | Rebuild(rebuild: RebuildStep)

  const FRESH: Segment := Segment({}, false, false, false, false, false, false)

  /** A map with `k`'s entry changed, if it has one. */
  function Put(m: map<Seq, set<Block>>, k: Seq, v: set<Block>): map<Seq, set<Block>> {
    if k in m then m[k := m[k] + v] else m
  }

  function Grown(m: map<Seq, set<Block>>, k: Seq, v: set<Block>): map<Seq, set<Block>> {
    m[k := (if k in m then m[k] else {}) + v]
  }

  function Less(m: map<Seq, set<Block>>, k: Seq, v: set<Block>): map<Seq, set<Block>> {
    if k in m then (if m[k] - v == {} then m - {k} else m[k := m[k] - v]) else m
  }

  /** MarkSegmentSealed: an open row becomes sealed; any other is left alone. */
  function Sealed(rows: map<Seq, Row>, k: Seq): map<Seq, Row> {
    if k in rows && !rows[k].sealed then rows[k := rows[k].(sealed := true)] else rows
  }

  /** The process's memory is gone. */
  function Forget(s: State): State {
    s.(phase := Down, creating := None, open := None, segs := map[], order := [], inflight := None)
  }

  /** How many of the listed segments are shipped and still on disk. */
  function Kept(s: State, list: seq<Seq>): nat {
    if list == [] then 0
    else Kept(s, list[..|list| - 1]) + (if Retirable(s, list[|list| - 1]) then 1 else 0)
  }

  predicate Retirable(s: State, q: Seq) { q in s.segs && s.segs[q].shipped && !s.segs[q].unlinked }

  /** Retention takes a segment with `retain` newer ones that are shipped and kept. */
  predicate PastWindow(s: State, q: Seq) {
    Retirable(s, q) && exists i | 0 <= i < |s.order| :: s.order[i] == q && Kept(s, s.order[..i]) >= s.retain
  }

  predicate Running(s: State) { s.phase.Up? }

  /** A segment in memory that takes appends: not frozen, and its volume not away. A
      CAR deleted under its open descriptor still takes them, to no use. */
  predicate Writable(s: State, q: Seq) { q in s.segs && !s.segs[q].frozen && q !in s.away }

  predicate Reconciling(s: State, q: Seq) {
    s.phase.Recovering? && q in s.phase.r.todo && q in s.cars
  }

  /** The unretired row that recovery read is sealed. */
  predicate RowSealed(s: State, q: Seq) {
    s.phase.Recovering? && q in s.phase.r.rows0 && q in s.rows && s.rows[q].sealed
  }

  /** The segment's only row is retired and stamped shipped. */
  predicate RetiredShipped(s: State, q: Seq) {
    s.phase.Recovering? && q !in s.phase.r.rows0 && q in s.rows && s.rows[q].shipped
  }

  predicate Rebuilding(s: State) { s.phase.Recovering? && s.phase.r.lost.Some? }

  /** The recovered segments, newest first. */
  predicate NewestFirst(list: seq<Seq>, segs: map<Seq, Segment>) {
    && (forall i, j | 0 <= i < j < |list| :: list[j] < list[i])
    && (forall q | q in list :: q in segs) && (forall q | q in segs :: q in list)
  }

  predicate CanLog(s: State, step: LogStep) {
    match step
    case Create(q) => s.open.None? && s.creating.None? && q >= s.nextSeq
    case InsertOpen => s.creating.Some?
    case DropCreated => s.creating.Some?
    case Append(_) => s.inflight.None? && s.open.Some? && Writable(s, s.open.value)
    case Commit => s.inflight.Some?
    case Abort => s.inflight.Some?
    case Freeze => s.open.Some? && s.open.value in s.segs && s.open.value in s.cars
    case WriteIdx(q) => q in s.segs && s.segs[q].frozen && !s.segs[q].idxWritten
    case Record(q) => q in s.segs && s.segs[q].idxWritten && !s.segs[q].recorded
    case Flush(q) => q in s.segs && s.segs[q].recorded && !s.segs[q].shipped && q in s.cars
    case Stamp(q) => q in s.segs && s.segs[q].flushed
    case GiveUp(q) => q in s.segs && s.segs[q].flushed
    case Unlink(q) => PastWindow(s, q)
    case UnlinkIdx(q) => q in s.segs && s.segs[q].unlinked
    case RetireRow(q) => q in s.segs && s.segs[q].unlinked
  }

  predicate CanWorld(s: State, step: WorldStep) {
    match step
    case Lose(q) => q in s.cars
    case Destroy(q) => q in s.cars
    case LoseIdx(q) => q in s.idx
    case Return(q) => s.phase.Down? && q in s.away
    case Crash => true
  }

  predicate CanScan(s: State, step: ScanStep) {
    match step
    case Start => s.phase.Down?
    case RemoveRetired(q) => Reconciling(s, q) && RetiredShipped(s, q)
    case LoadSealed(q) => Reconciling(s, q) && RowSealed(s, q) && q in s.idx
    case Reindex(q) => Reconciling(s, q) && RowSealed(s, q) && q !in s.idx
    case SealFromIdx(q) => Reconciling(s, q) && !RowSealed(s, q) && !RetiredShipped(s, q) && q in s.idx
    case RebuildOpen(q) => Reconciling(s, q) && !RowSealed(s, q) && !RetiredShipped(s, q) && q !in s.idx
    case ForceIdx(q) => s.phase.Recovering? && q in s.phase.r.opens && q in s.segs && q in s.cars
    case ForceRecord(q) => s.phase.Recovering? && q in s.phase.r.opens && q in s.segs && s.segs[q].idxWritten
    case DropStray(q) => s.phase.Recovering? && s.phase.r.todo == {} && s.phase.r.opens == {} && q !in s.phase.r.onDisk
  }

  predicate CanRebuild(s: State, step: RebuildStep) {
    match step
    case StartRebuild => s.phase.Recovering? && s.phase.r.todo == {} && s.phase.r.opens == {} && s.phase.r.lost.None?
    case RebuildCreate(q) => Rebuilding(s) && s.phase.r.cur.None? && s.creating.None? && q >= s.nextSeq
    case RebuildInsert => Rebuilding(s) && s.phase.r.cur.None? && s.creating.Some?
    case RebuildCopy(f, b) =>
      && Rebuilding(s) && s.phase.r.cur.Some? && s.phase.r.copied.None? && Writable(s, s.phase.r.cur.value)
      && f in s.phase.r.lost.value && f in s.journal && b <= s.journal[f]
    case RebuildMove => Rebuilding(s) && s.phase.r.cur.Some? && s.phase.r.copied.Some?
    case RebuildIdx =>
      && Rebuilding(s) && s.phase.r.cur.Some? && s.phase.r.copied.None?
      && s.phase.r.cur.value in s.segs && s.phase.r.cur.value in s.cars
    case RebuildRecord =>
      && Rebuilding(s) && s.phase.r.cur.Some? && s.phase.r.copied.None?
      && s.phase.r.cur.value in s.segs && s.segs[s.phase.r.cur.value].idxWritten
    case OrphanSealed(q) => Rebuilding(s) && s.phase.r.cur.None? && q !in s.phase.r.onDisk && RowSealed(s, q)
    case OrphanOpen(q) =>
      && Rebuilding(s) && s.phase.r.cur.None?
      && q !in s.phase.r.onDisk && q in s.phase.r.rows0 && q in s.rows && !s.rows[q].sealed
    case Finish(list) => Rebuilding(s) && s.phase.r.cur.None? && s.creating.None? && NewestFirst(list, s.segs)
  }

  predicate Can(s: State, step: Step) {
    match step
    case Log(l) => Running(s) && CanLog(s, l)
    case World(w) => CanWorld(s, w)
    case Scan(c) => CanScan(s, c)
    case Rebuild(r) => CanRebuild(s, r)
  }

  function Created(s: State, q: Seq): State {
    s.(nextSeq := q + 1, cars := s.cars[q := {}], content := s.content[q := {}], creating := Some(q))
  }

  function Seg(s: State, q: Seq, seg: Segment): State { s.(segs := s.segs[q := seg]) }

  /** Blocks written and fsynced to segment `q`. */
  function Written(s: State, q: Seq, b: set<Block>): State
    requires q in s.segs
  {
    s.(cars := Put(s.cars, q, b), content := Grown(s.content, q, b),
       segs := s.segs[q := s.segs[q].(index := s.segs[q].index + b)])
  }

  function Loaded(s: State, q: Seq, shipped: bool): Segment
    requires q in s.cars
  {
    Segment(s.cars[q], true, true, true, false, shipped, false)
  }

  function Without(list: seq<Seq>, q: Seq): seq<Seq> {
    if list == [] then []
    else Without(list[..|list| - 1], q) + (if list[|list| - 1] == q then [] else [list[|list| - 1]])
  }

  /** CommitRoot with its journal: the batch's blocks are filed under their segment
      unless its row has shipped or is gone. */
  function Committed(s: State, b: Batch): State {
    var filed := b.blocks != {} && b.seg in s.rows && !s.rows[b.seg].shipped;
    s.(committed := s.committed + b.blocks, inflight := None,
       journal := if filed then Grown(s.journal, b.seg, b.blocks) else s.journal)
  }

  /** MoveJournal: the rows leave `from`; a target that has shipped takes none. */
  function Moved(s: State, b: Batch, to: Seq): State {
    s.(journal := if to in s.rows && !s.rows[to].shipped && b.blocks != {}
                  then Grown(Less(s.journal, b.seg, b.blocks), to, b.blocks)
                  else Less(s.journal, b.seg, b.blocks))
  }

  function At(s: State, r: Recovery): State { s.(phase := Recovering(r)) }

  function DoLog(s: State, step: LogStep): State
    requires CanLog(s, step)
  {
    match step
    case Create(q) => Created(s, q)
    case InsertOpen =>
      var q := s.creating.value;
      Seg(s, q, FRESH).(rows := s.rows[q := Row(false, false, false)], open := Some(q), creating := None)
    case DropCreated => s.(cars := s.cars - {s.creating.value}, creating := None)
    case Append(b) =>
      Written(s, s.open.value, b).(inflight := Some(Batch(s.open.value, b)))
    case Commit => Committed(s, s.inflight.value)
    case Abort => s.(inflight := None)
    case Freeze =>
      var q := s.open.value;
      Seg(s, q, s.segs[q].(frozen := true)).(open := None, order := [q] + s.order)
    case WriteIdx(q) => Seg(s, q, s.segs[q].(idxWritten := true)).(idx := s.idx + {q})
    case Record(q) => Seg(s, q, s.segs[q].(recorded := true)).(rows := Sealed(s.rows, q))
    case Flush(q) =>
      Seg(s, q, s.segs[q].(flushed := true)).(published := s.published + s.segs[q].index, flushed := s.flushed + {q})
    case Stamp(q) =>
      Seg(s, q, s.segs[q].(flushed := false, shipped := true))
      .(rows := if q in s.rows then s.rows[q := s.rows[q].(shipped := true)] else s.rows, journal := s.journal - {q})
    case GiveUp(q) => Seg(s, q, s.segs[q].(flushed := false))
    case Unlink(q) => Seg(s, q, s.segs[q].(unlinked := true)).(cars := s.cars - {q})
    case UnlinkIdx(q) => s.(idx := s.idx - {q})
    case RetireRow(q) =>
      s.(segs := s.segs - {q}, order := Without(s.order, q),
         rows := if q in s.rows then s.rows[q := s.rows[q].(retired := true)] else s.rows)
  }

  function DoWorld(s: State, step: WorldStep): State
    requires CanWorld(s, step)
  {
    match step
    case Lose(q) => s.(cars := s.cars - {q}, away := s.away[q := s.cars[q]])
    case Destroy(q) => s.(cars := s.cars - {q}, away := s.away - {q})
    case LoseIdx(q) => s.(idx := s.idx - {q})
    case Return(q) => s.(cars := s.cars[q := s.away[q]], away := s.away - {q})
    case Crash => Forget(s)
  }

  function DoScan(s: State, step: ScanStep): State
    requires CanScan(s, step)
  {
    match step
    case Start =>
      At(s, Recovery((set q | q in s.rows && !s.rows[q].retired), s.cars.Keys, s.cars.Keys, {}, None, None, None))
    case RemoveRetired(q) =>
      var r := s.phase.r;
      At(s, r.(onDisk := r.onDisk - {q}, todo := r.todo - {q})).(cars := s.cars - {q}, idx := s.idx - {q})
    case LoadSealed(q) =>
      At(Seg(s, q, Loaded(s, q, s.rows[q].shipped)), s.phase.r.(todo := s.phase.r.todo - {q}))
    case Reindex(q) => s.(idx := s.idx + {q})
    case SealFromIdx(q) =>
      var rows := if q in s.phase.r.rows0 then Sealed(s.rows, q) else s.rows[q := Row(true, false, false)];
      At(Seg(s, q, Loaded(s, q, false)), s.phase.r.(todo := s.phase.r.todo - {q})).(rows := rows)
    case RebuildOpen(q) =>
      var rows := if q in s.rows then s.rows else s.rows[q := Row(false, false, false)];
      var seg := Segment(s.cars[q], false, false, false, false, false, false);
      At(Seg(s, q, seg), s.phase.r.(todo := s.phase.r.todo - {q}, opens := s.phase.r.opens + {q})).(rows := rows)
    case ForceIdx(q) => Seg(s, q, s.segs[q].(frozen := true, idxWritten := true)).(idx := s.idx + {q})
    case ForceRecord(q) =>
      At(Seg(s, q, s.segs[q].(recorded := true)),
         s.phase.r.(opens := s.phase.r.opens - {q})).(rows := Sealed(s.rows, q))
    case DropStray(q) => s.(idx := s.idx - {q})
  }

  function DoRebuild(s: State, step: RebuildStep): State
    requires CanRebuild(s, step)
  {
    match step
    case StartRebuild => At(s, s.phase.r.(lost := Some(set q | q in s.journal && q !in s.phase.r.onDisk)))
    case RebuildCreate(q) => Created(s, q)
    case RebuildInsert =>
      var q := s.creating.value;
      At(Seg(s, q, FRESH), s.phase.r.(cur := Some(q))).(rows := s.rows[q := Row(false, false, false)], creating := None)
    case RebuildCopy(f, b) =>
      var q := s.phase.r.cur.value;
      At(Written(s, q, b), s.phase.r.(copied := Some(Batch(f, b))))
    case RebuildMove =>
      At(Moved(s, s.phase.r.copied.value, s.phase.r.cur.value), s.phase.r.(copied := None))
    case RebuildIdx =>
      var q := s.phase.r.cur.value;
      Seg(s, q, s.segs[q].(frozen := true, idxWritten := true)).(idx := s.idx + {q})
    case RebuildRecord =>
      var q := s.phase.r.cur.value;
      At(Seg(s, q, s.segs[q].(recorded := true)), s.phase.r.(cur := None)).(rows := Sealed(s.rows, q))
    case OrphanSealed(q) => s.(rows := s.rows[q := s.rows[q].(retired := true)])
    case OrphanOpen(q) => s.(rows := s.rows - {q})
    case Finish(list) => s.(phase := Up, order := list)
  }

  function Do(s: State, step: Step): State
    requires Can(s, step)
  {
    match step
    case Log(l) => DoLog(s, l)
    case World(w) => DoWorld(s, w)
    case Scan(c) => DoScan(s, c)
    case Rebuild(r) => DoRebuild(s, r)
  }

  // ---------------------------------------------------------------------------
  // What every step keeps.

  /** A CAR, on disk or away, holds what was written to its segment. */
  predicate DiskTrue(cars: map<Seq, set<Block>>, away: map<Seq, set<Block>>, content: map<Seq, set<Block>>) {
    && (forall q | q in cars :: q in content && cars[q] == content[q])
    && (forall q | q in away :: q in content && away[q] == content[q])
  }

  /** Sequence numbers in use are behind the counter. */
  predicate SeqsUsed(content: map<Seq, set<Block>>, rows: map<Seq, Row>, nextSeq: Seq) {
    (forall q | q in content :: q < nextSeq) && (forall q | q in rows :: q in content)
  }

  /** The journal files blocks under a segment that holds them and has not shipped. */
  predicate JournalTrue(journal: map<Seq, set<Block>>, rows: map<Seq, Row>, content: map<Seq, set<Block>>) {
    forall q | q in journal :: q in content && journal[q] <= content[q] && !(q in rows && rows[q].shipped)
  }

  /** A batch in flight is in a segment that holds it and has a row. */
  predicate BatchTrue(inflight: Option<Batch>, up: bool, rows: map<Seq, Row>, content: map<Seq, set<Block>>) {
    inflight.Some? ==>
      var b := inflight.value;
      up && b.seg in rows && b.seg in content && b.blocks <= content[b.seg]
  }

  /** A flushed segment is published whole and its seal was recorded; a shipped row
      was flushed. */
  predicate ShipsTrue(flushed: set<Seq>, published: set<Block>, rows: map<Seq, Row>, content: map<Seq, set<Block>>) {
    && (forall q | q in flushed :: q in content && content[q] <= published && q in rows && rows[q].sealed)
    && (forall q | q in rows && rows[q].shipped :: q in flushed)
  }

  /** Segments in memory. */
  predicate MemoryTrue(segs: map<Seq, Segment>, flushed: set<Seq>, rows: map<Seq, Row>, content: map<Seq, set<Block>>) {
    forall q | q in segs :: SegTrue(q, segs[q], flushed, rows, content)
  }

  predicate SegTrue(q: Seq, g: Segment, flushed: set<Seq>, rows: map<Seq, Row>, content: map<Seq, set<Block>>) {
    && q in content && g.index == content[q] && q in rows
    && (g.idxWritten ==> g.frozen) && (g.recorded ==> g.idxWritten && rows[q].sealed)
    && (g.flushed ==> q in flushed)
    && (g.shipped ==> rows[q].shipped) && (g.unlinked ==> g.shipped)
  }

  predicate OpenRow(q: Seq, rows: map<Seq, Row>, segs: map<Seq, Segment>) {
    q in rows && !rows[q].sealed && !rows[q].shipped && q in segs
  }

  /** The open segment's row is open. */
  predicate OpenTrue(open: Option<Seq>, phase: Phase, rows: map<Seq, Row>, segs: map<Seq, Segment>) {
    && (phase.Down? ==> segs == map[])
    && (open.Some? ==> phase.Up? && OpenRow(open.value, rows, segs) && !segs[open.value].frozen)
  }

  /** A CAR made for a segment that has no row yet. */
  predicate NewTrue(creating: Option<Seq>, down: bool, rows: map<Seq, Row>, segs: map<Seq, Segment>,
                    content: map<Seq, set<Block>>) {
    creating.Some? ==>
      var q := creating.value;
      !down && q in content && content[q] == {} && q !in rows && q !in segs
  }

  predicate RecoveryTrue(r: Recovery, creating: Option<Seq>, rows: map<Seq, Row>, segs: map<Seq, Segment>,
                         content: map<Seq, set<Block>>) {
    && r.todo <= r.onDisk && r.todo !! segs.Keys
    && (r.lost.Some? ==> r.todo == {} && r.opens == {})
    && (r.cur.Some? ==> OpenRow(r.cur.value, rows, segs) && r.cur.value !in r.rows0 && r.lost.Some?)
    && (r.copied.Some? ==> r.cur.Some? && r.cur.value in content && r.copied.value.blocks <= content[r.cur.value])
    && (creating.Some? ==> creating.value !in r.rows0 && r.lost.Some?)
    && (forall q | q in r.rows0 :: q in content && (r.lost.None? ==> q in rows) && (q in segs ==> q in r.onDisk))
  }

  predicate Saved(b: Block, published: set<Block>, journal: map<Seq, set<Block>>) {
    b in published || exists q :: q in journal && b in journal[q]
  }

  /** Every block of every committed batch is journaled, under a segment not stamped
      shipped, or was in a CAR whose flush succeeded. */
  predicate Durable(committed: set<Block>, published: set<Block>, journal: map<Seq, set<Block>>) {
    forall b | b in committed :: Saved(b, published, journal)
  }

  predicate Inv(s: State) {
    && DiskTrue(s.cars, s.away, s.content) && SeqsUsed(s.content, s.rows, s.nextSeq)
    && JournalTrue(s.journal, s.rows, s.content) && BatchTrue(s.inflight, s.phase.Up?, s.rows, s.content)
    && ShipsTrue(s.flushed, s.published, s.rows, s.content) && MemoryTrue(s.segs, s.flushed, s.rows, s.content)
    && OpenTrue(s.open, s.phase, s.rows, s.segs) && NewTrue(s.creating, s.phase.Down?, s.rows, s.segs, s.content)
    && (s.phase.Recovering? ==> RecoveryTrue(s.phase.r, s.creating, s.rows, s.segs, s.content))
    && Durable(s.committed, s.published, s.journal)
  }
}
