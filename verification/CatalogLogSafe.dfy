/** Safety of the catalog log over every run: what is committed is never lost, and
    retention unlinks only what is on Forge. */
module CatalogLogSafe {
  import opened Options
  import opened CatalogLog

  // ---------------------------------------------------------------------------
  // The steps that need an argument.

  /** Recording a seal changes one row from open to sealed. */
  lemma SealKeeps(s: State, q: Seq)
    requires Inv(s)
    ensures var rows := Sealed(s.rows, q);
            && SeqsUsed(s.content, rows, s.nextSeq) && JournalTrue(s.journal, rows, s.content)
            && BatchTrue(s.inflight, s.phase.Up?, rows, s.content)
            && ShipsTrue(s.flushed, s.published, rows, s.content)
            && MemoryTrue(s.segs, s.flushed, rows, s.content)
            && (q in s.rows ==> q in rows && rows[q].sealed && rows[q].shipped == s.rows[q].shipped)
  {
  }

  /** The journal of a flushed segment can go: its blocks are published. */
  lemma StampSaves(s: State, q: Seq)
    requires Inv(s) && q in s.flushed
    ensures Durable(s.committed, s.published, s.journal - {q})
    ensures JournalTrue(s.journal - {q}, s.rows, s.content)
  {
    forall b | b in s.committed ensures Saved(b, s.published, s.journal - {q}) {
      assert Saved(b, s.published, s.journal);
      if b !in s.published {
        var p :| p in s.journal && b in s.journal[p];
        assert p != q && p in s.journal - {q};
      }
    }
  }

  /** A stamp changes the row of a flushed segment. */
  lemma StampRow(s: State, q: Seq)
    requires Inv(s) && q in s.rows && q in s.flushed
    ensures var rows := s.rows[q := s.rows[q].(shipped := true)];
            && SeqsUsed(s.content, rows, s.nextSeq) && JournalTrue(s.journal - {q}, rows, s.content)
            && BatchTrue(s.inflight, s.phase.Up?, rows, s.content)
            && ShipsTrue(s.flushed, s.published, rows, s.content) && MemoryTrue(s.segs, s.flushed, rows, s.content)
  {
  }

  /** A move loses no row. */
  lemma MoveSaves(s: State)
    requires Inv(s) && CanRebuild(s, RebuildMove)
    ensures var t := Moved(s, s.phase.r.copied.value, s.phase.r.cur.value);
            Durable(s.committed, s.published, t.journal) && JournalTrue(t.journal, s.rows, s.content)
  {
    var m, to := s.phase.r.copied.value, s.phase.r.cur.value;
    var t := Moved(s, m, to);
    forall b | b in s.committed ensures Saved(b, s.published, t.journal) {
      assert Saved(b, s.published, s.journal);
      if b !in s.published {
        var p :| p in s.journal && b in s.journal[p];
        MoveKeepsBlock(s, m, to, p, b);
      }
    }
  }

  lemma LessKeepsBlock(j: map<Seq, set<Block>>, k: Seq, v: set<Block>, p: Seq, b: Block)
    requires p in j && b in j[p] && !(p == k && b in v)
    ensures p in Less(j, k, v) && b in Less(j, k, v)[p]
  {
    if p == k {
      assert b in j[k] - v;
      assert j[k] - v != {};
    }
  }

  lemma MoveKeepsBlock(s: State, m: Batch, to: Seq, p: Seq, b: Block)
    requires to in s.rows && !s.rows[to].shipped && p in s.journal && b in s.journal[p]
    ensures exists q :: q in Moved(s, m, to).journal && b in Moved(s, m, to).journal[q]
  {
    var less, j := Less(s.journal, m.seg, m.blocks), Moved(s, m, to).journal;
    if p == m.seg && b in m.blocks {
      assert j == Grown(less, to, m.blocks);
      assert to in j && b in j[to];
    } else {
      LessKeepsBlock(s.journal, m.seg, m.blocks, p, b);
      assert j == less || j == Grown(less, to, m.blocks);
      assert p in j && b in j[p];
    }
  }

  // ---------------------------------------------------------------------------
  // Each step keeps the invariant.

  lemma CreateKeeps(s: State, q: Seq)
    requires Inv(s) && Running(s) && CanLog(s, Create(q))
    ensures Inv(DoLog(s, Create(q)))
  {
  }

  lemma InsertOpenKeeps(s: State)
    requires Inv(s) && Running(s) && CanLog(s, InsertOpen)
    ensures Inv(DoLog(s, InsertOpen))
  {
  }

  lemma DropCreatedKeeps(s: State)
    requires Inv(s) && Running(s) && CanLog(s, DropCreated)
    ensures Inv(DoLog(s, DropCreated))
  {
  }

  lemma AppendKeeps(s: State, b: set<Block>)
    requires Inv(s) && Running(s) && CanLog(s, Append(b))
    ensures Inv(DoLog(s, Append(b)))
  {
  }

  lemma CommitKeeps(s: State)
    requires Inv(s) && Running(s) && CanLog(s, Commit)
    ensures Inv(DoLog(s, Commit))
  {
  }

  lemma AbortKeeps(s: State)
    requires Inv(s) && Running(s) && CanLog(s, Abort)
    ensures Inv(DoLog(s, Abort))
  {
  }

  lemma FreezeKeeps(s: State)
    requires Inv(s) && Running(s) && CanLog(s, Freeze)
    ensures Inv(DoLog(s, Freeze))
  {
  }

  lemma WriteIdxKeeps(s: State, q: Seq)
    requires Inv(s) && Running(s) && CanLog(s, WriteIdx(q))
    ensures Inv(DoLog(s, WriteIdx(q)))
  {
  }

  lemma RecordKeeps(s: State, q: Seq)
    requires Inv(s) && Running(s) && CanLog(s, Record(q))
    ensures Inv(DoLog(s, Record(q)))
  {
    SealKeeps(s, q);
  }

  lemma FlushKeeps(s: State, q: Seq)
    requires Inv(s) && Running(s) && CanLog(s, Flush(q))
    ensures Inv(DoLog(s, Flush(q)))
  {
  }

  lemma StampKeeps(s: State, q: Seq)
    requires Inv(s) && Running(s) && CanLog(s, Stamp(q))
    ensures Inv(DoLog(s, Stamp(q)))
  {
    StampSaves(s, q);
    StampRow(s, q);
  }

  lemma GiveUpKeeps(s: State, q: Seq)
    requires Inv(s) && Running(s) && CanLog(s, GiveUp(q))
    ensures Inv(DoLog(s, GiveUp(q)))
  {
  }

  lemma UnlinkKeeps(s: State, q: Seq)
    requires Inv(s) && Running(s) && CanLog(s, Unlink(q))
    ensures Inv(DoLog(s, Unlink(q)))
  {
  }

  lemma UnlinkIdxKeeps(s: State, q: Seq)
    requires Inv(s) && Running(s) && CanLog(s, UnlinkIdx(q))
    ensures Inv(DoLog(s, UnlinkIdx(q)))
  {
  }

  lemma RetireRowKeeps(s: State, q: Seq)
    requires Inv(s) && Running(s) && CanLog(s, RetireRow(q))
    ensures Inv(DoLog(s, RetireRow(q)))
  {
  }

  lemma LoseKeeps(s: State, q: Seq)
    requires Inv(s) && CanWorld(s, Lose(q))
    ensures Inv(DoWorld(s, Lose(q)))
  {
  }

  lemma DestroyKeeps(s: State, q: Seq)
    requires Inv(s) && CanWorld(s, Destroy(q))
    ensures Inv(DoWorld(s, Destroy(q)))
  {
  }

  lemma LoseIdxKeeps(s: State, q: Seq)
    requires Inv(s) && CanWorld(s, LoseIdx(q))
    ensures Inv(DoWorld(s, LoseIdx(q)))
  {
  }

  lemma ReturnKeeps(s: State, q: Seq)
    requires Inv(s) && CanWorld(s, Return(q))
    ensures Inv(DoWorld(s, Return(q)))
  {
  }

  lemma CrashKeeps(s: State)
    requires Inv(s) && CanWorld(s, Crash)
    ensures Inv(DoWorld(s, Crash))
  {
  }

  lemma StartKeeps(s: State)
    requires Inv(s) && CanScan(s, Start)
    ensures Inv(DoScan(s, Start))
  {
  }

  lemma RemoveRetiredKeeps(s: State, q: Seq)
    requires Inv(s) && CanScan(s, RemoveRetired(q))
    ensures Inv(DoScan(s, RemoveRetired(q)))
  {
  }

  lemma LoadSealedKeeps(s: State, q: Seq)
    requires Inv(s) && CanScan(s, LoadSealed(q))
    ensures Inv(DoScan(s, LoadSealed(q)))
  {
  }

  lemma ReindexKeeps(s: State, q: Seq)
    requires Inv(s) && CanScan(s, Reindex(q))
    ensures Inv(DoScan(s, Reindex(q)))
  {
  }

  lemma SealFromIdxKeeps(s: State, q: Seq)
    requires Inv(s) && CanScan(s, SealFromIdx(q))
    ensures Inv(DoScan(s, SealFromIdx(q)))
  {
  }

  lemma RebuildOpenKeeps(s: State, q: Seq)
    requires Inv(s) && CanScan(s, RebuildOpen(q))
    ensures Inv(DoScan(s, RebuildOpen(q)))
  {
  }

  lemma ForceIdxKeeps(s: State, q: Seq)
    requires Inv(s) && CanScan(s, ForceIdx(q))
    ensures Inv(DoScan(s, ForceIdx(q)))
  {
  }

  lemma ForceRecordKeeps(s: State, q: Seq)
    requires Inv(s) && CanScan(s, ForceRecord(q))
    ensures Inv(DoScan(s, ForceRecord(q)))
  {
    SealKeeps(s, q);
  }

  lemma DropStrayKeeps(s: State, q: Seq)
    requires Inv(s) && CanScan(s, DropStray(q))
    ensures Inv(DoScan(s, DropStray(q)))
  {
  }

  lemma StartRebuildKeeps(s: State)
    requires Inv(s) && CanRebuild(s, StartRebuild)
    ensures Inv(DoRebuild(s, StartRebuild))
  {
  }

  lemma RebuildCreateKeeps(s: State, q: Seq)
    requires Inv(s) && CanRebuild(s, RebuildCreate(q))
    ensures Inv(DoRebuild(s, RebuildCreate(q)))
  {
  }

  lemma RebuildInsertKeeps(s: State)
    requires Inv(s) && CanRebuild(s, RebuildInsert)
    ensures Inv(DoRebuild(s, RebuildInsert))
  {
  }

  lemma RebuildCopyKeeps(s: State, f: Seq, b: set<Block>)
    requires Inv(s) && CanRebuild(s, RebuildCopy(f, b))
    ensures Inv(DoRebuild(s, RebuildCopy(f, b)))
  {
  }

  lemma RebuildMoveKeeps(s: State)
    requires Inv(s) && CanRebuild(s, RebuildMove)
    ensures Inv(DoRebuild(s, RebuildMove))
  {
    MoveSaves(s);
  }

  lemma RebuildIdxKeeps(s: State)
    requires Inv(s) && CanRebuild(s, RebuildIdx)
    ensures Inv(DoRebuild(s, RebuildIdx))
  {
  }

  lemma RebuildRecordKeeps(s: State)
    requires Inv(s) && CanRebuild(s, RebuildRecord)
    ensures Inv(DoRebuild(s, RebuildRecord))
  {
    SealKeeps(s, s.phase.r.cur.value);
  }

  lemma OrphanSealedKeeps(s: State, q: Seq)
    requires Inv(s) && CanRebuild(s, OrphanSealed(q))
    ensures Inv(DoRebuild(s, OrphanSealed(q)))
  {
  }

  lemma OrphanOpenKeeps(s: State, q: Seq)
    requires Inv(s) && CanRebuild(s, OrphanOpen(q))
    ensures Inv(DoRebuild(s, OrphanOpen(q)))
  {
  }

  lemma FinishKeeps(s: State, l: seq<Seq>)
    requires Inv(s) && CanRebuild(s, Finish(l))
    ensures Inv(DoRebuild(s, Finish(l)))
  {
  }

  lemma LogKeeps(s: State, step: LogStep)
    requires Inv(s) && Running(s) && CanLog(s, step)
    ensures Inv(DoLog(s, step))
  {
    match step
    case Create(q) => CreateKeeps(s, q);
    case InsertOpen => InsertOpenKeeps(s);
    case DropCreated => DropCreatedKeeps(s);
    case Append(b) => AppendKeeps(s, b);
    case Commit => CommitKeeps(s);
    case Abort => AbortKeeps(s);
    case Freeze => FreezeKeeps(s);
    case WriteIdx(q) => WriteIdxKeeps(s, q);
    case Record(q) => RecordKeeps(s, q);
    case Flush(q) => FlushKeeps(s, q);
    case Stamp(q) => StampKeeps(s, q);
    case GiveUp(q) => GiveUpKeeps(s, q);
    case Unlink(q) => UnlinkKeeps(s, q);
    case UnlinkIdx(q) => UnlinkIdxKeeps(s, q);
    case RetireRow(q) => RetireRowKeeps(s, q);
  }

  lemma WorldKeeps(s: State, step: WorldStep)
    requires Inv(s) && CanWorld(s, step)
    ensures Inv(DoWorld(s, step))
  {
    match step
    case Lose(q) => LoseKeeps(s, q);
    case Destroy(q) => DestroyKeeps(s, q);
    case LoseIdx(q) => LoseIdxKeeps(s, q);
    case Return(q) => ReturnKeeps(s, q);
    case Crash => CrashKeeps(s);
  }

  lemma ScanKeeps(s: State, step: ScanStep)
    requires Inv(s) && CanScan(s, step)
    ensures Inv(DoScan(s, step))
  {
    match step
    case Start => StartKeeps(s);
    case RemoveRetired(q) => RemoveRetiredKeeps(s, q);
    case LoadSealed(q) => LoadSealedKeeps(s, q);
    case Reindex(q) => ReindexKeeps(s, q);
    case SealFromIdx(q) => SealFromIdxKeeps(s, q);
    case RebuildOpen(q) => RebuildOpenKeeps(s, q);
    case ForceIdx(q) => ForceIdxKeeps(s, q);
    case ForceRecord(q) => ForceRecordKeeps(s, q);
    case DropStray(q) => DropStrayKeeps(s, q);
  }

  lemma RebuildKeeps(s: State, step: RebuildStep)
    requires Inv(s) && CanRebuild(s, step)
    ensures Inv(DoRebuild(s, step))
  {
    match step
    case StartRebuild => StartRebuildKeeps(s);
    case RebuildCreate(q) => RebuildCreateKeeps(s, q);
    case RebuildInsert => RebuildInsertKeeps(s);
    case RebuildCopy(f, b) => RebuildCopyKeeps(s, f, b);
    case RebuildMove => RebuildMoveKeeps(s);
    case RebuildIdx => RebuildIdxKeeps(s);
    case RebuildRecord => RebuildRecordKeeps(s);
    case OrphanSealed(q) => OrphanSealedKeeps(s, q);
    case OrphanOpen(q) => OrphanOpenKeeps(s, q);
    case Finish(l) => FinishKeeps(s, l);
  }

  lemma Keeps(s: State, step: Step)
    requires Inv(s) && Can(s, step)
    ensures Inv(Do(s, step))
  {
    match step
    case Log(l) => LogKeeps(s, l);
    case World(w) => WorldKeeps(s, w);
    case Scan(c) => ScanKeeps(s, c);
    case Rebuild(r) => RebuildKeeps(s, r);
  }

  // ---------------------------------------------------------------------------
  // Runs.

  /** A new bucket: nothing on disk, nothing in Meta, no process. */
  function New(retain: nat): State {
    State(retain, map[], {}, map[], map[], map[], 0, Down, None, None, map[], [], None, map[], {}, {}, {})
  }

  /** The state after a run, if every step of it could be taken. */
  function After(retain: nat, steps: seq<Step>): Option<State> {
    if steps == [] then Some(New(retain))
    else
      var n := |steps| - 1;
      match After(retain, steps[..n])
      case None => None
      case Some(s) => if Can(s, steps[n]) then Some(Do(s, steps[n])) else None
  }

  lemma {:induction false} EveryRun(retain: nat, steps: seq<Step>)
    requires After(retain, steps).Some?
    ensures Inv(After(retain, steps).value)
    decreases |steps|
  {
    if steps != [] {
      var n := |steps| - 1;
      EveryRun(retain, steps[..n]);
      Keeps(After(retain, steps[..n]).value, steps[n]);
    }
  }

  /** In every run, each block of each committed batch is journaled under a segment
      not stamped shipped, or was in a CAR whose flush succeeded. */
  lemma NothingCommittedIsLost(retain: nat, steps: seq<Step>, b: Block)
    requires After(retain, steps).Some? && b in After(retain, steps).value.committed
    ensures var s := After(retain, steps).value;
            || b in s.published
            || exists q :: q in s.journal && b in s.journal[q] && !(q in s.rows && s.rows[q].shipped)
  {
    EveryRun(retain, steps);
    var s := After(retain, steps).value;
    assert Saved(b, s.published, s.journal);
  }

  /** In every run, what the journal files under a segment is in its CAR whenever
      that CAR is on disk, so shipping the CAR ships what the stamp drops. */
  lemma JournalInCar(retain: nat, steps: seq<Step>, q: Seq)
    requires After(retain, steps).Some?
    ensures var s := After(retain, steps).value; q in s.journal && q in s.cars ==> s.journal[q] <= s.cars[q]
  {
    EveryRun(retain, steps);
  }

  // ---------------------------------------------------------------------------
  // Retention.

  lemma {:induction false} PrefixRuns(retain: nat, steps: seq<Step>, n: nat)
    requires After(retain, steps).Some? && n <= |steps|
    ensures After(retain, steps[..n]).Some?
    ensures n < |steps| ==> Can(After(retain, steps[..n]).value, steps[n])
    decreases |steps| - n
  {
    if n < |steps| {
      PrefixRuns(retain, steps, n + 1);
      assert steps[..n + 1][..n] == steps[..n];
    } else {
      assert steps[..n] == steps;
    }
  }

  predicate Taken(steps: seq<Step>, step: Step, i: nat) { i < |steps| && steps[i] == step }

  lemma {:induction false} StampedAt(retain: nat, steps: seq<Step>, q: Seq) returns (i: nat)
    requires After(retain, steps).Some?
    requires IsShipped(After(retain, steps).value, q)
    ensures Taken(steps, Log(Stamp(q)), i)
    decreases |steps|
  {
    var n := |steps| - 1;
    var before := After(retain, steps[..n]).value;
    if IsShipped(before, q) {
      i := StampedAt(retain, steps[..n], q);
    } else {
      i := n;
      if steps[n] != Log(Stamp(q)) {
        OnlyStampShips(before, steps[n], q);
      }
    }
  }

  predicate IsShipped(s: State, q: Seq) { q in s.rows && s.rows[q].shipped }

  lemma OnlyStampShips(s: State, step: Step, q: Seq)
    requires Can(s, step) && !IsShipped(s, q) && step != Log(Stamp(q))
    ensures !IsShipped(Do(s, step), q)
  {
    match step
    case Log(l) => LogStampShips(s, l, q);
    case World(w) => WorldShipsNone(s, w);
    case Scan(c) => ScanShipsNone(s, c, q);
    case Rebuild(r) => RebuildShipsNone(s, r, q);
  }

  lemma WorldShipsNone(s: State, step: WorldStep)
    requires CanWorld(s, step)
    ensures DoWorld(s, step).rows == s.rows && DoWorld(s, step).flushed == s.flushed
  {
  }

  lemma LogStampShips(s: State, step: LogStep, q: Seq)
    requires CanLog(s, step) && !IsShipped(s, q) && step != Stamp(q)
    ensures !IsShipped(DoLog(s, step), q)
  {
  }

  lemma ScanShipsNone(s: State, step: ScanStep, q: Seq)
    requires CanScan(s, step) && !IsShipped(s, q)
    ensures !IsShipped(DoScan(s, step), q)
  {
  }

  lemma RebuildShipsNone(s: State, step: RebuildStep, q: Seq)
    requires CanRebuild(s, step) && !IsShipped(s, q)
    ensures !IsShipped(DoRebuild(s, step), q)
  {
  }

  lemma {:induction false} FlushedAt(retain: nat, steps: seq<Step>, q: Seq) returns (i: nat)
    requires After(retain, steps).Some? && q in After(retain, steps).value.flushed
    ensures Taken(steps, Log(Flush(q)), i)
    decreases |steps|
  {
    var n := |steps| - 1;
    var before := After(retain, steps[..n]).value;
    if q in before.flushed {
      i := FlushedAt(retain, steps[..n], q);
    } else {
      i := n;
      if steps[n] != Log(Flush(q)) {
        OnlyFlushPublishes(before, steps[n], q);
      }
    }
  }

  lemma OnlyFlushPublishes(s: State, step: Step, q: Seq)
    requires Can(s, step) && q !in s.flushed && step != Log(Flush(q))
    ensures q !in Do(s, step).flushed
  {
    match step
    case Log(l) => LogFlushPublishes(s, l, q);
    case World(w) => WorldShipsNone(s, w);
    case Scan(c) => ScanFlushesNone(s, c);
    case Rebuild(r) => RebuildFlushesNone(s, r);
  }

  lemma ScanFlushesNone(s: State, step: ScanStep)
    requires CanScan(s, step)
    ensures DoScan(s, step).flushed == s.flushed
  {
  }

  lemma RebuildFlushesNone(s: State, step: RebuildStep)
    requires CanRebuild(s, step)
    ensures DoRebuild(s, step).flushed == s.flushed
  {
  }

  lemma LogFlushPublishes(s: State, step: LogStep, q: Seq)
    requires CanLog(s, step) && q !in s.flushed && step != Flush(q)
    ensures q !in DoLog(s, step).flushed
  {
  }

  /** In every run, retention unlinks a segment only after its stamp, which follows a
      successful flush, which follows the seal being recorded in Meta. */
  lemma UnlinkedLast(retain: nat, steps: seq<Step>, n: nat, q: Seq) returns (flush: nat, stamp: nat)
    requires After(retain, steps).Some? && Taken(steps, Log(Unlink(q)), n)
    ensures flush < stamp < n && Taken(steps, Log(Flush(q)), flush) && Taken(steps, Log(Stamp(q)), stamp)
    ensures After(retain, steps[..flush]).Some?
    ensures var s := After(retain, steps[..flush]).value;
            q in s.rows && s.rows[q].sealed && q in s.segs && s.segs[q].idxWritten
  {
    stamp := StampedBefore(retain, steps, n, q);
    flush := FlushedBefore(retain, steps, stamp, q);
    SealedBefore(retain, steps, flush, q);
  }

  lemma StampedBefore(retain: nat, steps: seq<Step>, n: nat, q: Seq) returns (stamp: nat)
    requires After(retain, steps).Some? && Taken(steps, Log(Unlink(q)), n)
    ensures stamp < n && Taken(steps, Log(Stamp(q)), stamp)
  {
    PrefixRuns(retain, steps, n);
    EveryRun(retain, steps[..n]);
    stamp := StampedAt(retain, steps[..n], q);
    assert steps[..n][stamp] == steps[stamp];
  }

  lemma FlushedBefore(retain: nat, steps: seq<Step>, n: nat, q: Seq) returns (flush: nat)
    requires After(retain, steps).Some? && Taken(steps, Log(Stamp(q)), n)
    ensures flush < n && Taken(steps, Log(Flush(q)), flush)
  {
    PrefixRuns(retain, steps, n);
    EveryRun(retain, steps[..n]);
    flush := FlushedAt(retain, steps[..n], q);
    assert steps[..n][flush] == steps[flush];
  }

  lemma SealedBefore(retain: nat, steps: seq<Step>, n: nat, q: Seq)
    requires After(retain, steps).Some? && Taken(steps, Log(Flush(q)), n)
    ensures After(retain, steps[..n]).Some?
    ensures var s := After(retain, steps[..n]).value;
            q in s.rows && s.rows[q].sealed && q in s.segs && s.segs[q].idxWritten
  {
    PrefixRuns(retain, steps, n);
    EveryRun(retain, steps[..n]);
  }
}
