/** The rebuild loop's store and the log's state machine describe one procedure: what the
    loop does to its store, stretch by stretch, is a pair of the machine's steps. */
module RebuildSteps {
  import opened Options
  import C = CatalogLog
  import F = JournalFiling

  predicate SameRow(a: F.Row, b: C.Row) { a.sealed == b.sealed && a.shipped == b.shipped }

  predicate SameRows(a: map<F.Seq, F.Row>, b: map<C.Seq, C.Row>) {
    (forall q | q in a :: q in b && SameRow(a[q], b[q])) && forall q | q in b :: q in a
  }

  lemma RowPut(a: map<F.Seq, F.Row>, b: map<C.Seq, C.Row>, q: C.Seq, x: F.Row, y: C.Row)
    requires SameRows(a, b) && SameRow(x, y)
    ensures SameRows(a[q := x], b[q := y])
  {
  }

  /** A rebuild under way: the store and the machine have the same journal, CARs, rows,
      counter and segment being written, which takes appends. */
  predicate Same(m: F.Image, s: C.State) {
    && C.Rebuilding(s) && s.creating.None? && s.phase.r.copied.None?
    && m.journal == s.journal && m.cars == s.cars && m.nextSeq == s.nextSeq && m.cur == s.phase.r.cur
    && SameRows(m.rows, s.rows)
    && (m.cur.Some? ==> C.Writable(s, m.cur.value) && m.cur.value in s.rows && !s.rows[m.cur.value].shipped)
  }

  /** Two steps of the rebuild, taken in turn. */
  predicate Takes(s: C.State, first: C.RebuildStep, second: C.RebuildStep) {
    C.CanRebuild(s, first) && C.CanRebuild(C.DoRebuild(s, first), second)
  }

  function Two(s: C.State, first: C.RebuildStep, second: C.RebuildStep): C.State
    requires Takes(s, first, second)
  {
    C.DoRebuild(C.DoRebuild(s, first), second)
  }

  /** A new segment: its CAR, then its row. */
  lemma CreateIsSteps(m: F.Image, s: C.State, header: nat)
    requires Same(m, s) && m.cur.None? && m.nextSeq !in s.away
    ensures var q := m.nextSeq;
            var n := m.(nextSeq := q + 1, cars := m.cars[q := {}], sizes := m.sizes[q := header],
                        rows := m.rows[q := F.Row(false, false)], cur := Some(q));
            Takes(s, C.RebuildCreate(q), C.RebuildInsert) && Same(n, Two(s, C.RebuildCreate(q), C.RebuildInsert))
  {
    var q := m.nextSeq;
    RowPut(m.rows, s.rows, q, F.Row(false, false), C.Row(false, false, false));
    var t := C.DoRebuild(s, C.RebuildCreate(q));
    assert t == C.Created(s, q) && C.CanRebuild(t, C.RebuildInsert);
    var u := C.DoRebuild(t, C.RebuildInsert);
    assert u.journal == s.journal && u.cars == s.cars[q := {}] && u.nextSeq == q + 1 && u.away == s.away;
    assert u.rows == s.rows[q := C.Row(false, false, false)] && u.segs == s.segs[q := C.FRESH];
  }

  /** A chunk of a lost segment's blocks, appended and its rows moved: the loop's append
      and MoveJournal are the machine's copy and move. */
  lemma CopyIsSteps(m: F.Image, s: C.State, from: C.Seq, moved: set<C.Block>, size: nat)
    requires Same(m, s) && m.cur.Some? && m.cur.value in m.cars
    requires from in s.phase.r.lost.value && from in m.journal && moved <= m.journal[from] && moved != {}
    ensures var q := m.cur.value;
            var n := m.(cars := m.cars[q := m.cars[q] + moved], sizes := m.sizes[q := size],
                        journal := F.MovedJournal(m.journal, from, q, moved, true));
            && Takes(s, C.RebuildCopy(from, moved), C.RebuildMove)
            && Same(n, Two(s, C.RebuildCopy(from, moved), C.RebuildMove))
  {
    var t := C.DoRebuild(s, C.RebuildCopy(from, moved));
    assert C.CanRebuild(t, C.RebuildMove);
    var q := m.cur.value;
    assert C.Moved(t, C.Batch(from, moved), q).journal == F.MovedJournal(m.journal, from, q, moved, true);
  }

  /** Sealing: the index, then the row. */
  lemma SealIsSteps(m: F.Image, s: C.State)
    requires Same(m, s) && m.cur.Some? && m.cur.value in m.cars && m.rows[m.cur.value] == F.Row(false, false)
    ensures var q := m.cur.value;
            var n := m.(rows := m.rows[q := F.Row(true, false)], built := m.built + [q], cur := None);
            Takes(s, C.RebuildIdx, C.RebuildRecord) && Same(n, Two(s, C.RebuildIdx, C.RebuildRecord))
  {
    var q := m.cur.value;
    RowPut(m.rows, s.rows, q, F.Row(true, false), s.rows[q].(sealed := true));
    var t := C.DoRebuild(s, C.RebuildIdx);
    assert t.rows == s.rows && t.phase == s.phase && C.CanRebuild(t, C.RebuildRecord);
    var u := C.DoRebuild(t, C.RebuildRecord);
    assert u.rows == s.rows[q := s.rows[q].(sealed := true)];
  }
}
