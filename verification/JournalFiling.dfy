/** The catalog journal while lost segments are rebuilt from it: its pages, the split
    of blocks into segments, and what every operation of the rebuild keeps. */
module JournalFiling {
  import opened Options
  import opened Seal

  type Seq = nat

  /** A block's identifier, as its rank in byte order; 0 is the undefined one. */
  type Cid = nat

  datatype Row = Row(sealed: bool, shipped: bool)

  const JOURNAL_PAGE: nat := 256

  // ---------------------------------------------------------------------------
  // Pages.

  predicate Increasing(s: seq<Cid>) { forall i, j | 0 <= i < j < |s| :: s[i] < s[j] }

  function AsSet(s: seq<Cid>): set<Cid> { set c | c in s }

  lemma {:induction false} LeastExists(s: set<Cid>) returns (m: Cid)
    requires s != {}
    ensures m in s && forall x | x in s :: m <= x
    decreases s
  {
    var k :| k in s;
    m := k;
    var below := set x | x in s && x < k;
    assert forall x | x in s :: k <= x || x in below;
    if below != {} {
      assert k !in below;
      m := LeastExists(below);
    }
  }

  lemma IncreasingMore(s: seq<Cid>, m: Cid)
    requires Increasing(s) && forall c | c in s :: c < m
    ensures Increasing(s + [m])
  {
    forall i, j | 0 <= i < j < |s| + 1 ensures (s + [m])[i] < (s + [m])[j] {
      assert s[i] in s;
    }
  }

  /** The rows after `after`, in order, at most `limit` of them. */
  ghost predicate IsPage(page: seq<Cid>, rows: set<Cid>, after: Cid, limit: nat) {
    && Increasing(page) && |page| <= limit
    && (forall c | c in page :: c in rows && c > after)
    && (forall c | c in rows && c > after && c !in page :: |page| == limit && forall d | d in page :: d < c)
  }

  /** The rows of a page between the first and last of some of its first blocks are
      those blocks. */
  lemma ChunkRange(rows: set<Cid>, page: seq<Cid>, n: nat)
    requires Increasing(page) && 0 < n <= |page|
    requires forall c | c in rows && c <= page[|page| - 1] :: c in page
    requires forall c | c in page :: c in rows
    ensures Between(rows, page[0], page[n - 1]) == AsSet(page[..n])
  {
    forall c ensures c in Between(rows, page[0], page[n - 1]) <==> c in AsSet(page[..n]) {
      if c in Between(rows, page[0], page[n - 1]) {
        assert page[n - 1] <= page[|page| - 1];
        var i :| 0 <= i < |page| && page[i] == c;
        assert page[..n][i] == c;
      }
    }
  }

  /** What is left of a page: the rows up to `after`, in order. */
  ghost predicate PageLeft(rows: set<Cid>, page: seq<Cid>, after: Cid) {
    && Increasing(page) && (forall c | c in page :: c in rows && c <= after)
    && (forall c | c in rows && c <= after :: c in page)
  }

  lemma IncreasingCut(page: seq<Cid>, n: nat)
    requires Increasing(page) && n <= |page|
    ensures Increasing(page[..n]) && Increasing(page[n..])
    ensures AsSet(page) == AsSet(page[..n]) + AsSet(page[n..]) && AsSet(page[..n]) !! AsSet(page[n..])
  {
    assert page == page[..n] + page[n..];
    forall c | c in page[n..] ensures c !in page[..n] {
      var j :| 0 <= j < |page[n..]| && page[n..][j] == c;
      assert page[n + j] == c;
    }
  }

  lemma PageRange(rows: set<Cid>, page: seq<Cid>, after: Cid, n: nat)
    requires PageLeft(rows, page, after) && 0 < n <= |page|
    ensures Between(rows, page[0], page[n - 1]) == AsSet(page[..n])
    ensures PageLeft(rows - AsSet(page[..n]), page[n..], after)
    ensures AsSet(page) == AsSet(page[..n]) + AsSet(page[n..])
  {
    assert page[|page| - 1] in page;
    ChunkRange(rows, page, n);
    IncreasingCut(page, n);
    forall c | c in page[n..] ensures c in page && c in rows - AsSet(page[..n]) {
      assert c in AsSet(page[n..]);
    }
    forall c | c in rows - AsSet(page[..n]) && c <= after ensures c in page[n..] {
      assert c in AsSet(page);
    }
  }

  function Between(s: set<Cid>, first: Cid, last: Cid): set<Cid> { set c | c in s && first <= c <= last }

  lemma IncreasingJoin(a: seq<Cid>, b: seq<Cid>)
    requires Increasing(a) && Increasing(b) && forall c, d | c in a && d in b :: c < d
    ensures Increasing(a + b)
  {
    forall i, j | 0 <= i < j < |a| + |b| ensures (a + b)[i] < (a + b)[j] {
      if i < |a| && j >= |a| {
        assert a[i] in a && b[j - |a|] in b;
      }
    }
  }

  /** A page read is what is left to copy of the rows up to its last. */
  lemma PageIsLeft(rows: set<Cid>, page: seq<Cid>, after: Cid, limit: nat, read: seq<Cid>)
    requires IsPage(page, rows, after, limit) && page != []
    requires (forall c | c in rows :: c > after) && Increasing(read) && (forall c | c in read :: c <= after)
    ensures var last := page[|page| - 1];
            && PageLeft(rows, page, last) && Increasing(read + page) && (forall c | c in read + page :: c <= last)
            && (forall c | c in rows - AsSet(page) :: c > last) && rows - AsSet(page) < rows
            && (|page| < limit ==> rows - AsSet(page) == {})
            && AsSet(read + page) == AsSet(read) + AsSet(page) && AsSet(page) <= rows
  {
    var last := page[|page| - 1];
    assert last in page;
    IncreasingJoin(read, page);
    forall c | c in page ensures c <= last {
      var i :| 0 <= i < |page| && page[i] == c;
    }
  }

  // ---------------------------------------------------------------------------
  // Sizes.

  /** The total of a size over a list. */
  function Sum(f: Cid -> nat, s: seq<Cid>): nat {
    if s == [] then 0 else Sum(f, s[..|s| - 1]) + f(s[|s| - 1])
  }

  lemma SumStep(f: Cid -> nat, s: seq<Cid>, n: nat)
    requires n < |s|
    ensures Sum(f, s[..n + 1]) == Sum(f, s[..n]) + f(s[n])
  {
    assert s[..n + 1][..n] == s[..n];
  }

  /** writeFresh and commitFresh: the blocks not seen yet are added. */
  method AddFresh(seen0: set<Cid>, size0: nat, chunk: seq<Cid>, frame: Cid -> nat, ghost bound: Cid -> nat)
    returns (seen: set<Cid>, size: nat)
    requires forall c :: frame(c) <= bound(c)
    ensures seen == seen0 + AsSet(chunk) && size0 <= size <= size0 + Sum(bound, chunk)
  {
    seen, size := seen0, size0;
    for i := 0 to |chunk|
      invariant seen == seen0 + AsSet(chunk[..i]) && size0 <= size <= size0 + Sum(bound, chunk[..i])
    {
      SumStep(bound, chunk, i);
      assert chunk[..i + 1] == chunk[..i] + [chunk[i]];
      if chunk[i] !in seen {
        seen, size := seen + {chunk[i]}, size + frame(chunk[i]);
      }
    }
    assert chunk[..|chunk|] == chunk;
  }

  /** How many of the page's blocks fit under `limit` on top of `size`, at least one. */
  method TakeFitting(page: seq<Cid>, size: nat, limit: nat, bound: Cid -> nat) returns (n: nat)
    requires page != []
    ensures 0 < n <= |page|
    ensures n == 1 || size + Sum(bound, page[..n]) <= limit
    ensures n < |page| ==> size + Sum(bound, page[..n + 1]) > limit
  {
    SumStep(bound, page, 0);
    var total := size + bound(page[0]);
    n := 1;
    while n < |page| && total + bound(page[n]) <= limit
      invariant 0 < n <= |page| && total == size + Sum(bound, page[..n])
      invariant n == 1 || total <= limit
    {
      SumStep(bound, page, n);
      total := total + bound(page[n]);
      n := n + 1;
    }
    if n < |page| {
      SumStep(bound, page, n);
    }
  }

  // ---------------------------------------------------------------------------
  // The journal as a value.

  /** The journal's blocks, under whatever segment. */
  function Filed(j: map<Seq, set<Cid>>): set<Cid> { set q, c | q in j && c in j[q] :: c }

  function RowsOf(j: map<Seq, set<Cid>>, q: Seq): set<Cid> { if q in j then j[q] else {} }

  function MovedJournal(j: map<Seq, set<Cid>>, from: Seq, to: Seq, moved: set<Cid>, takes: bool): map<Seq, set<Cid>>
    requires from in j
  {
    var left := if j[from] - moved == {} then j - {from} else j[from := j[from] - moved];
    if takes && moved != {} then left[to := RowsOf(left, to) + moved] else left
  }

  /** A move to a segment that takes the rows loses none. */
  lemma MoveFiles(j: map<Seq, set<Cid>>, from: Seq, to: Seq, moved: set<Cid>)
    requires from in j && from != to && moved <= j[from] && moved != {}
    ensures var k := MovedJournal(j, from, to, moved, true);
            && Filed(k) == Filed(j) && RowsOf(k, from) == j[from] - moved && RowsOf(k, to) == RowsOf(j, to) + moved
            && (forall q | q != from && q != to :: (q in k <==> q in j) && (q in j ==> k[q] == j[q]))
            && (from in k ==> k[from] != {}) && to in k
  {
    var k := MovedJournal(j, from, to, moved, true);
    MoveRows(j, from, to, moved);
    forall c ensures c in Filed(k) <==> c in Filed(j) {
      if c in Filed(j) {
        var q :| q in j && c in j[q];
        FiledUnder(k, if q == from && c in moved then to else q, c);
      }
      if c in Filed(k) {
        var q :| q in k && c in k[q];
        assert c in RowsOf(k, q);
        FiledUnder(j, if q == to && c in moved then from else q, c);
      }
    }
  }

  lemma FiledUnder(j: map<Seq, set<Cid>>, q: Seq, c: Cid)
    requires c in RowsOf(j, q)
    ensures c in Filed(j)
  {
  }

  lemma MoveRows(j: map<Seq, set<Cid>>, from: Seq, to: Seq, moved: set<Cid>)
    requires from in j && from != to && moved <= j[from] && moved != {}
    ensures var k := MovedJournal(j, from, to, moved, true);
            && RowsOf(k, from) == j[from] - moved && RowsOf(k, to) == RowsOf(j, to) + moved
            && (forall q | q != from && q != to :: (q in k <==> q in j) && (q in j ==> k[q] == j[q]))
            && (from in k ==> k[from] != {}) && to in k
  {
  }

  // ---------------------------------------------------------------------------
  // What a rebuild keeps, on values.

  /** Everything a store holds. */
  datatype Image = Image(
    journal: map<Seq, set<Cid>>, rows: map<Seq, Row>, nextSeq: Seq,
    cars: map<Seq, set<Cid>>, sizes: map<Seq, nat>, cur: Option<Seq>, built: seq<Seq>)

  /** What a rebuild began with: the journal, the CARs, the counter, and its limit. */
  datatype Origin = Origin(journal: map<Seq, set<Cid>>, cars: map<Seq, set<Cid>>, nextSeq: Seq, limit: nat)

  /** A segment on disk has the blocks filed under it; numbers in use are behind the
      counter; no block has the undefined identifier. */
  predicate JournalTrue(j: map<Seq, set<Cid>>, cars: map<Seq, set<Cid>>, nextSeq: Seq) {
    forall q | q in j :: j[q] != {} && 0 !in j[q] && q < nextSeq && (q in cars ==> j[q] <= cars[q])
  }

  predicate DiskTrue(cars: map<Seq, set<Cid>>, sizes: map<Seq, nat>, rows: map<Seq, Row>, nextSeq: Seq) {
    (forall q | q in cars :: q < nextSeq && q in sizes) && (forall q | q in rows :: q < nextSeq)
  }

  predicate Valid(m: Image) {
    JournalTrue(m.journal, m.cars, m.nextSeq) && DiskTrue(m.cars, m.sizes, m.rows, m.nextSeq)
  }

  /** Under the limit, or no more than one block. */
  predicate Fits(q: Seq, cars: map<Seq, set<Cid>>, sizes: map<Seq, nat>, limit: nat) {
    q in cars && q in sizes && (sizes[q] <= limit || |cars[q]| <= 1)
  }

  /** The CARs found are as they were; any other is new. */
  predicate CarsKept(cars: map<Seq, set<Cid>>, o: Origin) {
    && (forall q | q in o.cars :: q in cars && cars[q] == o.cars[q] && q < o.nextSeq)
    && (forall q | q in cars && q !in o.cars :: q >= o.nextSeq)
  }

  /** Every block is still filed; under a segment found on disk nothing changed, under
      a lost one it only shrinks, and what is filed anew is filed under a new CAR. */
  predicate FilingKept(j: map<Seq, set<Cid>>, cars: map<Seq, set<Cid>>, o: Origin) {
    && Filed(j) == Filed(o.journal)
    && (forall q | q in j && q < o.nextSeq :: q in o.journal && j[q] <= o.journal[q])
    && (forall q | q in j && q >= o.nextSeq :: q in cars)
    && (forall q | q in o.journal && q in o.cars :: q in j && j[q] == o.journal[q])
    && (forall q | q in o.journal :: q < o.nextSeq)
  }

  /** Segments the rebuild finished: new, fitting, and sealed in Meta. */
  predicate BuiltTrue(built: seq<Seq>, rows: map<Seq, Row>, cars: map<Seq, set<Cid>>, sizes: map<Seq, nat>, o: Origin) {
    forall q | q in built ::
      q >= o.nextSeq && Fits(q, cars, sizes, o.limit) && q in rows && rows[q] == Row(true, false)
  }

  /** The segment being written: new, fitting, and open in Meta. */
  predicate CurTrue(cur: Option<Seq>, built: seq<Seq>, rows: map<Seq, Row>, cars: map<Seq, set<Cid>>,
                    sizes: map<Seq, nat>, o: Origin) {
    cur.Some? ==>
      var q := cur.value;
      q >= o.nextSeq && q !in built && Fits(q, cars, sizes, o.limit) && q in rows && rows[q] == Row(false, false)
  }

  /** What is filed anew is filed under a finished segment or the one being written. */
  predicate FiledAnew(j: map<Seq, set<Cid>>, cur: Option<Seq>, built: seq<Seq>, o: Origin) {
    forall q | q in j && q >= o.nextSeq :: q in built || cur == Some(q)
  }

  predicate IsSince(m: Image, o: Origin) {
    && Valid(m) && FiledAnew(m.journal, m.cur, m.built, o) && o.nextSeq <= m.nextSeq
    && CarsKept(m.cars, o) && FilingKept(m.journal, m.cars, o)
    && BuiltTrue(m.built, m.rows, m.cars, m.sizes, o) && CurTrue(m.cur, m.built, m.rows, m.cars, m.sizes, o)
  }

  /** IsSince, kept closed. */
  ghost predicate Since(m: Image, o: Origin) {
    forall key {:trigger Opened(key)} :: Opened(key) ==> IsSince(m, o)
  }

  lemma OpenSince(m: Image, o: Origin)
    requires Since(m, o)
    ensures IsSince(m, o)
  {
    assert Opened(0);
  }

  lemma SinceStart(m: Image, o: Origin)
    requires Valid(m) && m.cur.None? && m.built == []
    requires o.journal == m.journal && o.cars == m.cars && o.nextSeq == m.nextSeq
    ensures Since(m, o)
  {
  }

  lemma SinceNumber(m: Image, o: Origin)
    requires Since(m, o)
    ensures Since(m.(nextSeq := m.nextSeq + 1), o) && o.nextSeq <= m.nextSeq
    ensures m.nextSeq !in m.journal && m.nextSeq !in m.cars && m.nextSeq !in m.rows
  {
    OpenSince(m, o);
  }

  lemma SinceCreate(m: Image, o: Origin, q: Seq, header: nat)
    requires Since(m, o) && m.nextSeq == q + 1 && q >= o.nextSeq && q !in m.cars && q !in m.journal
    ensures Since(m.(cars := m.cars[q := {}], sizes := m.sizes[q := header]), o)
  {
    OpenSince(m, o);
    assert forall p | p in m.built :: p != q;
    assert m.cur.Some? ==> m.cur.value != q;
  }

  lemma SinceOpen(m: Image, o: Origin, q: Seq)
    requires Since(m, o) && q >= o.nextSeq && q in m.cars && m.cars[q] == {} && q !in m.rows && m.cur.None?
    ensures Since(m.(rows := m.rows[q := Row(false, false)], cur := Some(q)), o)
  {
    OpenSince(m, o);
    assert q in m.sizes && |m.cars[q]| == 0;
  }

  lemma SinceAppend(m: Image, o: Origin, chunk: seq<Cid>, size: nat)
    requires Since(m, o) && m.cur.Some? && m.cur.value in m.cars
    requires (m.cars[m.cur.value] == {} && |chunk| == 1) || size <= o.limit
    ensures var q := m.cur.value;
            Since(m.(cars := m.cars[q := m.cars[q] + AsSet(chunk)], sizes := m.sizes[q := size]), o)
  {
    OpenSince(m, o);
    OneBlock(m.cars[m.cur.value], chunk);
  }

  lemma SinceSeal(m: Image, o: Origin)
    requires Since(m, o) && m.cur.Some?
    ensures var q := m.cur.value;
            Since(m.(rows := m.rows[q := Row(true, false)], built := m.built + [q], cur := None), o)
  {
    OpenSince(m, o);
  }

  lemma SinceMove(m: Image, o: Origin, from: Seq, moved: set<Cid>)
    requires Since(m, o) && m.cur.Some? && m.cur.value in m.cars && from in m.journal && from < o.nextSeq
    requires from !in o.cars
    requires moved != {} && moved <= m.journal[from] && moved <= m.cars[m.cur.value]
    ensures from != m.cur.value
    ensures var j := MovedJournal(m.journal, from, m.cur.value, moved, true);
            && Since(m.(journal := j), o) && RowsOf(j, from) == m.journal[from] - moved
            && (forall q: Seq | q != from && q < o.nextSeq :: RowsOf(j, q) == RowsOf(m.journal, q))
  {
    OpenSince(m, o);
    MoveFiles(m.journal, from, m.cur.value, moved);
  }

  lemma OneBlock(have: set<Cid>, chunk: seq<Cid>)
    ensures have == {} && |chunk| == 1 ==> |have + AsSet(chunk)| <= 1
  {
    if have == {} && |chunk| == 1 {
      assert have + AsSet(chunk) == {chunk[0]};
    }
  }

  lemma NoUndefined(m: Image, o: Origin, q: Seq)
    requires Since(m, o)
    ensures 0 !in RowsOf(m.journal, q)
  {
    OpenSince(m, o);
  }

  /** What a rebuild has kept, in the open. */
  lemma SinceMeans(m: Image, o: Origin)
    requires Since(m, o)
    ensures Valid(m) && Filed(m.journal) == Filed(o.journal)
    ensures forall q | q in o.cars :: q in m.cars && m.cars[q] == o.cars[q]
    ensures forall q | q in o.journal && q in o.cars :: q in m.journal && m.journal[q] == o.journal[q]
    ensures forall q | q in m.journal && q !in m.cars :: q in o.journal && m.journal[q] <= o.journal[q]
    ensures forall q | q in m.journal :: m.journal[q] != {} && (q in o.journal || q in m.built || m.cur == Some(q))
    ensures forall q | q in m.built :: Fits(q, m.cars, m.sizes, o.limit) && q in m.rows && m.rows[q].sealed
  {
    OpenSince(m, o);
  }

  /** What is known of the segment being written. */
  lemma CurIs(m: Image, o: Origin)
    requires Since(m, o) && m.cur.Some?
    ensures m.cur.value in m.cars && m.cur.value in m.sizes
    ensures m.cur.value in m.rows && m.rows[m.cur.value] == Row(false, false)
  {
    OpenSince(m, o);
  }
}
