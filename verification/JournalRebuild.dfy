/** `rebuildFromJournal`: the blocks of lost segments written into new ones, page by
    page, over a store that may fail, or a process that may die, at any operation. */
module JournalRebuild {
  import opened Options
  import opened JournalFiling

  class Store {
    const sealBytes: nat
    const header: nat
    const frame: Cid -> nat       // the bytes a block takes in a CAR
    const bound: Cid -> nat       // frameBound

    // Meta
    var journal: map<Seq, set<Cid>>
    var rows: map<Seq, Row>
    var nextSeq: Seq
    // disk
    var cars: map<Seq, set<Cid>>
    var sizes: map<Seq, nat>
    // how many more operations go through; None when all do
    var budget: Option<nat>
    // the segment being written, and those finished
    var cur: Option<Seq>
    var built: seq<Seq>

    ghost function Now(): Image
      reads this
    {
      Image(journal, rows, nextSeq, cars, sizes, cur, built)
    }

    /** Frames are no longer than their bound. */
    ghost predicate Bounded() { forall c :: frame(c) <= bound(c) }

    constructor (sealBytes: nat, header: nat, frame: Cid -> nat, bound: Cid -> nat)
      requires forall c :: frame(c) <= bound(c)
      ensures Valid(Now()) && Bounded() && journal == map[] && cars == map[] && cur.None? && built == []
    {
      this.sealBytes, this.header, this.frame, this.bound := sealBytes, header, frame, bound;
      journal, rows, nextSeq, cars, sizes, budget := map[], map[], 0, map[], map[], None;
      cur, built := None, [];
    }

    method Tick() returns (ok: bool)
      modifies this`budget
      ensures ok || old(budget) == Some(0)
      ensures old(budget).None? ==> budget.None?
    {
      ok := budget != Some(0);
      budget := if budget.Some? && ok then Some(budget.value - 1) else budget;
    }

    /** `ReadJournal`. */
    method ReadJournal(q: Seq, after: Cid, limit: nat) returns (page: seq<Cid>)
      ensures IsPage(page, RowsOf(journal, q), after, limit)
    {
      var all := RowsOf(journal, q);
      var rest := set c | c in all && c > after;
      page := [];
      while rest != {} && |page| < limit
        invariant Increasing(page) && |page| <= limit
        invariant forall c :: c in all && c > after <==> c in rest || c in page
        invariant forall c, d | c in page && d in rest :: c < d
        decreases |rest|
      {
        ghost var least := LeastExists(rest);
        var m :| m in rest && forall x | x in rest :: m <= x;
        IncreasingMore(page, m);
        page := page + [m];
        rest := rest - {m};
      }
    }

    /** `MoveJournal`: the rows of `from` between two identifiers are re-filed under
        `to`, unless it has shipped; it fails when `to` has no row. */
    method MoveJournal(from: Seq, to: Seq, first: Cid, last: Cid) returns (ok: bool)
      requires from in journal && from != to
      modifies this`journal
      ensures ok <==> to in rows
      ensures !ok ==> journal == old(journal)
      ensures ok ==>
        journal == MovedJournal(old(journal), from, to, Between(old(journal)[from], first, last), !rows[to].shipped)
    {
      if to !in rows {
        return false;
      }
      var moved, todo := {}, journal[from];
      while todo != {}
        invariant todo <= journal[from] && journal == old(journal)
        invariant moved == Between(journal[from] - todo, first, last)
      {
        var k :| k in todo;
        todo := todo - {k};
        if first <= k <= last {
          moved := moved + {k};
        }
      }
      assert journal[from] - todo == journal[from];
      journal := MovedJournal(journal, from, to, moved, !rows[to].shipped);
      return true;
    }

    /** createOpenSegment: the CAR, then the row; a failure between leaves a CAR that
        has no row. */
    method CreateOpen(ghost o: Origin) returns (ok: bool)
      requires Since(Now(), o) && cur.None?
      modifies this`nextSeq, this`cars, this`sizes, this`rows, this`cur, this`budget
      ensures Since(Now(), o) && (old(budget).None? ==> ok && budget.None?)
      ensures ok ==> cur.Some? && cur.value in cars && cars[cur.value] == {}
    {
      ok := Tick();
      if !ok { return; }
      SinceNumber(Now(), o);
      var q := nextSeq;
      nextSeq := nextSeq + 1;
      ok := Tick();
      if !ok { return; }
      SinceCreate(Now(), o, q, header);
      cars, sizes := cars[q := {}], sizes[q := header];
      ok := Tick();
      if !ok { return; }
      SinceOpen(Now(), o, q);
      rows := rows[q := Row(false, false)];
      cur := Some(q);
    }

    /** Segment.append on the segment being written. */
    method Append(chunk: seq<Cid>, ghost o: Origin) returns (ok: bool)
      requires Since(Now(), o) && o.limit == sealBytes && Bounded() && cur.Some? && cur.value in cars
      requires cur.value in sizes
      requires (cars[cur.value] == {} && |chunk| == 1) || sizes[cur.value] + Sum(bound, chunk) <= sealBytes
      modifies this`cars, this`sizes, this`budget
      ensures Since(Now(), o) && (old(budget).None? ==> ok && budget.None?)
      ensures ok ==> cur.value in cars && cars[cur.value] == old(cars)[cur.value] + AsSet(chunk)
    {
      ok := Tick();
      if !ok { return; }
      var q := cur.value;
      var seen, size := AddFresh(cars[q], sizes[q], chunk, frame, bound);
      SinceAppend(Now(), o, chunk, size);
      cars, sizes := cars[q := seen], sizes[q := size];
    }

    /** Sealing the segment being written: its .idx, then its row. */
    method Seal(ghost o: Origin) returns (ok: bool)
      requires Since(Now(), o) && cur.Some? && cur.value in rows
      modifies this`rows, this`cur, this`built, this`budget
      ensures Since(Now(), o) && (old(budget).None? ==> ok && budget.None?)
      ensures ok ==> cur.None?
    {
      ok := Tick();
      if !ok { return; }
      SinceSeal(Now(), o);
      CurIs(Now(), o);
      rows := rows[cur.value := rows[cur.value].(sealed := true)];
      built := built + [cur.value];
      cur := None;
    }

    /** The rows of the first blocks of a page move with them. */
    method Move(from: Seq, chunk: seq<Cid>, ghost o: Origin) returns (ok: bool)
      requires Since(Now(), o) && cur.Some? && cur.value in cars && from in journal && from < o.nextSeq
      requires from !in o.cars
      requires chunk != [] && AsSet(chunk) <= cars[cur.value]
      requires Between(journal[from], chunk[0], chunk[|chunk| - 1]) == AsSet(chunk)
      modifies this`journal, this`budget
      ensures Since(Now(), o) && (old(budget).None? ==> ok && budget.None?)
      ensures ok ==> RowsOf(journal, from) == old(journal)[from] - AsSet(chunk)
      ensures ok ==> forall q: Seq | q != from && q < o.nextSeq :: RowsOf(journal, q) == RowsOf(old(journal), q)
    {
      ok := Tick();
      if !ok { return; }
      assert chunk[0] in AsSet(chunk);
      CurIs(Now(), o);
      SinceMove(Now(), o, from, AsSet(chunk));
      ok := MoveJournal(from, cur.value, chunk[0], chunk[|chunk| - 1]);
    }

    /** One round of the inner loop: as many blocks as fit go to the segment being
        written, and their rows with them. */
    method CopyChunk(from: Seq, page: seq<Cid>, after: Cid, ghost o: Origin) returns (n: nat, ok: bool)
      requires Since(Now(), o) && o.limit == sealBytes && Bounded() && from < o.nextSeq && from !in o.cars
      requires page != [] && PageLeft(RowsOf(journal, from), page, after)
      requires cur.Some? && cur.value in cars && cur.value in sizes
      requires cars[cur.value] == {} || sizes[cur.value] + bound(page[0]) <= sealBytes
      modifies this`journal, this`cars, this`sizes, this`budget
      ensures Since(Now(), o) && (old(budget).None? ==> ok && budget.None?)
      ensures 0 < n <= |page|
      ensures ok ==> RowsOf(journal, from) == RowsOf(old(journal), from) - AsSet(page[..n])
      ensures ok ==> forall q: Seq | q != from && q < o.nextSeq :: RowsOf(journal, q) == RowsOf(old(journal), q)
    {
      n := TakeFitting(page, sizes[cur.value], sealBytes, bound);
      SumStep(bound, page, 0);
      assert page[..0] == [] && page[0] in page;
      PageRange(RowsOf(journal, from), page, after, n);
      ok := Append(page[..n], o);
      if !ok { return; }
      ok := Move(from, page[..n], o);
    }

    /** A segment to write to: a new one if there is none; one that already holds blocks
        seals rather than take a block that would carry it past the limit. */
    method MakeRoom(first: Cid, ghost o: Origin) returns (room: bool, ok: bool)
      requires Since(Now(), o)
      modifies this`nextSeq, this`cars, this`sizes, this`rows, this`cur, this`built, this`budget
      ensures Since(Now(), o) && (old(budget).None? ==> ok && budget.None?)
      ensures ok && room ==> cur.Some? && cur.value in cars && cur.value in sizes
      ensures ok && room ==> cars[cur.value] == {} || sizes[cur.value] + bound(first) <= sealBytes
      ensures ok && !room ==> cur.None? && old(HoldsBlocks())
    {
      room, ok := true, true;
      if cur.None? {
        ok := CreateOpen(o);
        if !ok { return; }
      }
      CurIs(Now(), o);
      if cars[cur.value] != {} && sizes[cur.value] + bound(first) > sealBytes {
        ok := Seal(o);
        room := false;
      }
    }

    /** The segment being written already holds blocks. */
    ghost predicate HoldsBlocks()
      reads this
    {
      cur.Some? && cur.value in cars && cars[cur.value] != {}
    }

    /** The loop over one page of a lost segment's journal. */
    method CopyPage(from: Seq, page0: seq<Cid>, after: Cid, ghost o: Origin) returns (ok: bool)
      requires Since(Now(), o) && o.limit == sealBytes && Bounded() && from < o.nextSeq && from !in o.cars
      requires PageLeft(RowsOf(journal, from), page0, after)
      modifies this
      ensures Since(Now(), o) && (old(budget).None? ==> ok && budget.None?)
      ensures ok ==> RowsOf(journal, from) == RowsOf(old(journal), from) - AsSet(page0)
      ensures ok ==> forall q: Seq | q != from && q < o.nextSeq :: RowsOf(journal, q) == RowsOf(old(journal), q)
    {
      var page := page0;
      while |page| > 0
        invariant Since(Now(), o) && (old(budget).None? ==> budget.None?)
        invariant PageLeft(RowsOf(journal, from), page, after)
        invariant RowsOf(journal, from) - AsSet(page) == RowsOf(old(journal), from) - AsSet(page0)
        invariant forall q: Seq | q != from && q < o.nextSeq :: RowsOf(journal, q) == RowsOf(old(journal), q)
        decreases |page|, HoldsBlocks()
      {
        var room;
        room, ok := MakeRoom(page[0], o);
        if !ok { return; }
        if !room {
          continue;
        }
        ghost var rows0 := RowsOf(journal, from);
        var n;
        n, ok := CopyChunk(from, page, after, o);
        if !ok { return; }
        PageRange(rows0, page, after, n);
        page := page[n..];
        CurIs(Now(), o);
        if |page| > 0 || sizes[cur.value] >= sealBytes {
          ok := Seal(o);
          if !ok { return; }
        }
      }
      ok := true;
    }

    /** The loop over the pages of one lost segment: no row is skipped and none read
        twice. */
    method RebuildOne(from: Seq, ghost o: Origin) returns (ok: bool, ghost read: seq<Cid>)
      requires Since(Now(), o) && o.limit == sealBytes && Bounded() && from < o.nextSeq && from !in o.cars
      modifies this
      ensures Since(Now(), o) && (old(budget).None? ==> ok && budget.None?)
      ensures ok ==> RowsOf(journal, from) == {}
      ensures ok ==> Increasing(read) && AsSet(read) == RowsOf(old(journal), from)
      ensures ok ==> forall q: Seq | q != from && q < o.nextSeq :: RowsOf(journal, q) == RowsOf(old(journal), q)
    {
      var after: Cid := 0;
      read := [];
      NoUndefined(Now(), o, from);
      while true
        invariant Since(Now(), o) && (old(budget).None? ==> budget.None?)
        invariant Increasing(read) && forall c | c in read :: c <= after
        invariant forall c | c in RowsOf(journal, from) :: c > after
        invariant RowsOf(journal, from) + AsSet(read) == RowsOf(old(journal), from)
        invariant forall q: Seq | q != from && q < o.nextSeq :: RowsOf(journal, q) == RowsOf(old(journal), q)
        decreases RowsOf(journal, from)
      {
        ok := Tick();
        if !ok { return; }
        var page := ReadJournal(from, after, JOURNAL_PAGE);
        if |page| == 0 {
          break;
        }
        ghost var rows0 := RowsOf(journal, from);
        PageIsLeft(rows0, page, after, JOURNAL_PAGE, read);
        after := page[|page| - 1];
        ok := CopyPage(from, page, after, o);
        if !ok { return; }
        read := read + page;
        if |page| != JOURNAL_PAGE {
          break;
        }
      }
      ok := true;
    }

    /** `rebuildFromJournal`. However far it gets, no block stops being filed and
        nothing found on disk changes; when it gets through, no segment is lost any
        more, and every block that was filed under a lost one is in a new sealed CAR
        that holds to the limit. */
    method RebuildFromJournal() returns (ok: bool)
      requires Valid(Now()) && Bounded() && cur.None? && built == []
      modifies this
      ensures Valid(Now()) && Filed(journal) == old(Filed(journal))
      ensures forall q | q in old(cars) :: q in cars && cars[q] == old(cars)[q]
      ensures forall q | q in old(journal) && q in old(cars) :: q in journal && journal[q] == old(journal)[q]
      ensures forall q | q in journal && q !in cars :: q in old(journal) && journal[q] <= old(journal)[q]
      ensures old(budget).None? ==> ok
      ensures ok ==> cur.None? && forall q | q in journal :: q in old(cars) || q in built
      ensures forall q | q in built :: Fits(q, cars, sizes, sealBytes) && q in rows && rows[q].sealed
    {
      ghost var o := Origin(journal, cars, nextSeq, sealBytes);
      SinceStart(Now(), o);
      var lost := set q | q in journal && q !in cars;
      while lost != {}
        invariant Since(Now(), o) && (old(budget).None? ==> budget.None?)
        invariant forall q | q in lost :: q in o.journal && q < o.nextSeq && q !in o.cars
        invariant forall q | q in o.journal && q !in o.cars && q !in lost :: RowsOf(journal, q) == {}
        decreases |lost|
      {
        ghost var least := LeastExists(lost);
        var from :| from in lost && forall x | x in lost :: from <= x;
        ghost var read;
        ok, read := RebuildOne(from, o);
        if !ok {
          SinceMeans(Now(), o);
          return;
        }
        lost := lost - {from};
      }
      ok := true;
      if cur.Some? {
        CurIs(Now(), o);
        ok := Seal(o);
      }
      SinceMeans(Now(), o);
    }

    /** A restart: what the process held in memory is gone. */
    method Restart()
      requires Valid(Now())
      modifies this`cur, this`built, this`budget
      ensures Valid(Now()) && cur.None? && built == [] && budget.None?
    {
      cur, built, budget := None, [], None;
    }

    /** Wherever a rebuild stops, the next recovery finishes it. */
    method RebuildThenRecover() returns (first: bool)
      requires Valid(Now()) && Bounded() && cur.None? && built == []
      modifies this
      ensures Valid(Now()) && Filed(journal) == old(Filed(journal))
      ensures forall q | q in journal :: q in cars && journal[q] <= cars[q]
    {
      first := RebuildFromJournal();
      if !first {
        Restart();
        var second := RebuildFromJournal();
      }
    }
  }
}
