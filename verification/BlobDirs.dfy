/** The spool and the blob cache as a state machine: blob files, byte counts, holds,
    the directory locks, and the lock-free scan, in every interleaving. */
module BlobDirs {
  import opened Options

  type Digest = nat
  type Space = nat

  /** A hold names one space's need of one digest. */
  datatype Key = Key(space: Space, digest: Digest)

  // ---------------------------------------------------------------------------
  // Byte totals.

  /** The bytes of all the files. */
  ghost function Total(m: map<Digest, nat>): nat
    decreases m.Keys
  {
    if m == map[] then 0
    else
      var k :| k in m;
      m[k] + Total(m - {k})
  }

  /** Any file can be taken out first. */
  lemma {:induction false} TotalLess(m: map<Digest, nat>, k: Digest)
    requires k in m
    ensures Total(m) == m[k] + Total(m - {k})
    decreases m.Keys
  {
    var j :| j in m && Total(m) == m[j] + Total(m - {j});
    if j != k {
      TotalLess(m - {j}, k);
      TotalLess(m - {k}, j);
      assert m - {j} - {k} == m - {k} - {j};
    }
  }

  lemma TotalMore(m: map<Digest, nat>, k: Digest, v: nat)
    ensures Total(m[k := v]) == Total(m) + v - (if k in m then m[k] else 0)
  {
    TotalLess(m[k := v], k);
    assert m[k := v] - {k} == m - {k};
    if k in m {
      TotalLess(m, k);
    } else {
      assert m - {k} == m;
    }
  }

  function Sum(s: seq<int>): int { if s == [] then 0 else s[0] + Sum(s[1..]) }

  function Drop<T>(s: seq<T>, i: nat): seq<T>
    requires i < |s|
  {
    s[..i] + s[i + 1..]
  }

  lemma {:induction false} SumDrop(s: seq<int>, i: nat)
    requires i < |s|
    ensures Sum(Drop(s, i)) == Sum(s) - s[i]
    decreases |s|
  {
    if i == 0 {
      assert Drop(s, 0) == s[1..];
    } else {
      assert Drop(s, i) == [s[0]] + Drop(s[1..], i - 1);
      SumDrop(s[1..], i - 1);
    }
  }

  lemma {:induction false} SumMore(s: seq<int>, x: int)
    ensures Sum(s + [x]) == Sum(s) + x
    decreases |s|
  {
    if s != [] {
      assert (s + [x])[1..] == s[1..] + [x];
      SumMore(s[1..], x);
    }
  }

  // ---------------------------------------------------------------------------
  // State.

  /** A scan in progress: the change count it began with, the files it has visited and
      their bytes, and the digests whose files changed meanwhile. */
  datatype Scan = Scan(before: nat, visited: set<Digest>, total: nat, touched: set<Digest>)

  /** A directory: its blob files, its counters, the size changes made to it and not
      counted yet, the removals that hold it shared, and its scan. */
  datatype Dir = Dir(
    files: map<Digest, nat>, usage: int, changes: nat, pending: seq<int>,
    statted: seq<(Digest, nat)>, scan: Option<Scan>)

  /** The spool's exclusive lock, and the cache's with it for a Take: what its holder
      is doing. */
  datatype Lock =
    | Free
    | Locked(digest: Digest, take: bool)        // held, the hold check to come
    | Checked(digest: Digest, take: bool)       // nobody holds the blob
    | Changed(take: bool, hold: Option<Key>)    // the files changed, the counts to come

  datatype State = State(
    spool: Dir, cache: Dir, lock: Lock,
    holds: map<Key, nat>,           // as the spool counts them
    handles: map<nat, Key>,         // holds taken and not ended
    next: nat)

  predicate Held(s: State, d: Digest) { exists k | k in s.holds :: k.digest == d }

  /** No change and no removal is in progress. */
  predicate Quiet(dir: Dir) { dir.pending == [] && dir.statted == [] }

  /** A file change, from `was` bytes to `now`: the difference is owed, and a scan may
      miss it or see it. */
  function Touch(dir: Dir, files: map<Digest, nat>, d: Digest, was: int, now: int): Dir {
    var delta: int := now - was;
    dir.(files := files, pending := dir.pending + [delta],
         scan := match dir.scan case None => None case Some(c) => Some(c.(touched := c.touched + {d})))
  }

  /** The change is counted: first its bytes, then itself. */
  function Counted(dir: Dir, i: nat): Dir
    requires i < |dir.pending|
  {
    dir.(usage := dir.usage + dir.pending[i], changes := dir.changes + 1, pending := Drop(dir.pending, i))
  }

  function HoldMore(s: State, k: Key): State {
    s.(holds := s.holds[k := (if k in s.holds then s.holds[k] else 0) + 1], handles := s.handles[s.next := k],
        next := s.next + 1)
  }

  /** What an unhold does, once. */
  function HoldLess(s: State, h: nat): State
    requires h in s.handles && s.handles[h] in s.holds
  {
    var k := s.handles[h];
    s.(handles := s.handles - {h},
       holds := if s.holds[k] <= 1 then s.holds - {k} else s.holds[k := s.holds[k] - 1])
  }

  datatype Step =
    | Commit(d: Digest, size: nat, hold: Option<Space>)   // rename of a finished write, under the lock
    | BeginRemove(d: Digest) | BeginTake(d: Digest)       // the lock is taken
    | CheckHeld                                           // a held blob ends the operation there
    | Unlink | Move                                       // the files change
    | Finish                                              // the counts follow and the lock goes
    | CacheStat(d: Digest) | CacheUnlink(i: nat) | CacheCount(i: nat)
    | Hold(k: Key) | Unhold(h: nat)
    | BeginScan(ofSpool: bool) | Visit(ofSpool: bool, d: Digest) | EndScan(ofSpool: bool)

  /** The directory's lock can be taken exclusively. */
  predicate SpoolFree(s: State) { s.lock.Free? && Quiet(s.spool) }
  predicate CacheFree(s: State) {
    !(s.lock.Locked? && s.lock.take) && !(s.lock.Checked? && s.lock.take) && !(s.lock.Changed? && s.lock.take)
  }

  function Of(s: State, ofSpool: bool): Dir { if ofSpool then s.spool else s.cache }

  function With(s: State, ofSpool: bool, dir: Dir): State { if ofSpool then s.(spool := dir) else s.(cache := dir) }

  /** A walk ends once it has visited every file that did not change while it ran. */
  predicate Walked(dir: Dir, c: Scan) { forall d | d in dir.files && d !in c.touched :: d in c.visited }

  predicate Can(s: State, step: Step) {
    match step
    case Commit(d, size, _) => SpoolFree(s) && (d in s.spool.files ==> s.spool.files[d] == size)
    case BeginRemove(d) => SpoolFree(s)
    case BeginTake(d) => SpoolFree(s) && Quiet(s.cache)
    case CheckHeld => s.lock.Locked?
    case Unlink => s.lock.Checked? && !s.lock.take
    case Move => s.lock.Checked? && s.lock.take
    case Finish => s.lock.Changed? && |s.spool.pending| <= 1 && (s.lock.take ==> |s.cache.pending| <= 1)
    case CacheStat(d) => CacheFree(s) && d in s.cache.files
    case CacheUnlink(i) => i < |s.cache.statted|
    case CacheCount(i) => CacheFree(s) && i < |s.cache.pending|
    case Hold(k) => s.lock.Free?
    case Unhold(h) => true
    case BeginScan(o) => Of(s, o).scan.None?
    case Visit(o, d) =>
      var dir := Of(s, o);
      dir.scan.Some? && d in dir.files && (d in dir.scan.value.visited ==> d in dir.scan.value.touched)
    case EndScan(o) =>
      var dir := Of(s, o);
      && dir.scan.Some? && Walked(dir, dir.scan.value) && Quiet(dir)
      && (if o then s.lock.Free? else CacheFree(s))
  }

  /** The counts of everything the lock's holder changed. */
  function Settled(dir: Dir): Dir { if dir.pending != [] then Counted(dir, 0) else dir }

  /** ScanAndCorrect's answer: zero if a change overlapped, else the count less what
      the scan saw, which the count is then set to. */
  function Drift(dir: Dir): int
    requires dir.scan.Some?
  {
    if dir.changes != dir.scan.value.before then 0 else dir.usage - dir.scan.value.total
  }

  function Do(s: State, step: Step): State
    requires Can(s, step)
  {
    match step
    case Commit(d, size, hold) =>
      s.(spool := Touch(s.spool, s.spool.files[d := size], d, if d in s.spool.files then size else 0, size),
         lock := Changed(false, if hold.Some? then Some(Key(hold.value, d)) else None))
    case BeginRemove(d) => s.(lock := Locked(d, false))
    case BeginTake(d) => s.(lock := Locked(d, true))
    case CheckHeld => s.(lock := if Held(s, s.lock.digest) then Free else Checked(s.lock.digest, s.lock.take))
    case Unlink =>
      var d := s.lock.digest;
      if d !in s.spool.files then s.(lock := Free)
      else s.(spool := Touch(s.spool, s.spool.files - {d}, d, s.spool.files[d], 0), lock := Changed(false, None))
    case Move =>
      var d := s.lock.digest;
      if d !in s.spool.files then s.(lock := Free)
      else
        var size := s.spool.files[d];
        var replaced := if d in s.cache.files then s.cache.files[d] else 0;
        s.(spool := Touch(s.spool, s.spool.files - {d}, d, size, 0),
           cache := Touch(s.cache, s.cache.files[d := size], d, replaced, size), lock := Changed(true, None))
    case Finish =>
      var t := s.(spool := Settled(s.spool), cache := if s.lock.take then Settled(s.cache) else s.cache, lock := Free);
      if s.lock.hold.Some? then HoldMore(t, s.lock.hold.value) else t
    case CacheStat(d) => s.(cache := s.cache.(statted := s.cache.statted + [(d, s.cache.files[d])]))
    case CacheUnlink(i) =>
      var (d, size) := s.cache.statted[i];
      var dir := s.cache.(statted := Drop(s.cache.statted, i));
      if d in dir.files then s.(cache := Touch(dir, dir.files - {d}, d, size, 0)) else s.(cache := dir)
    case CacheCount(i) => s.(cache := Counted(s.cache, i))
    case Hold(k) => HoldMore(s, k)
    case Unhold(h) => if h in s.handles && s.handles[h] in s.holds then HoldLess(s, h) else s
    case BeginScan(o) => With(s, o, Of(s, o).(scan := Some(Scan(Of(s, o).changes, {}, 0, {}))))
    case Visit(o, d) =>
      var dir := Of(s, o);
      var c := dir.scan.value;
      With(s, o, dir.(scan := Some(c.(visited := c.visited + {d}, total := c.total + dir.files[d]))))
    case EndScan(o) =>
      var dir := Of(s, o);
      var usage := if dir.changes != dir.scan.value.before then dir.usage else dir.scan.value.total;
      With(s, o, dir.(scan := None, usage := usage))
  }

  // ---------------------------------------------------------------------------
  // What every step keeps.

  /** The count and what is owed to it make up the files. */
  ghost predicate CountTrue(dir: Dir) { dir.usage + Sum(dir.pending) == Total(dir.files) }

  /** A removal under the shared lock knows its file's size. */
  predicate StattedTrue(dir: Dir) {
    forall e | e in dir.statted && e.0 in dir.files :: dir.files[e.0] == e.1
  }

  /** Files a scan has seen and nothing changed since are in its total, and whatever
      changed is still owed unless the change count moved on. */
  ghost predicate ScanTrue(dir: Dir) {
    dir.scan.Some? ==>
      var c := dir.scan.value;
      && c.before <= dir.changes
      && (c.before == dir.changes && dir.pending == [] ==> c.touched == {})
      && (c.touched == {} ==> c.visited <= dir.files.Keys && c.total == Total(Seen(dir.files, c.visited)))
  }

  function Seen(files: map<Digest, nat>, visited: set<Digest>): map<Digest, nat> {
    map d | d in files && d in visited :: files[d]
  }

  ghost predicate DirTrue(dir: Dir) { CountTrue(dir) && StattedTrue(dir) && ScanTrue(dir) }

  /** What is owed and who is at it, by the lock. */
  predicate LockTrue(s: State) {
    && s.spool.statted == []
    && (!s.lock.Changed? ==> s.spool.pending == []) && (s.lock.Changed? ==> |s.spool.pending| == 1)
    && (s.lock.Locked? && s.lock.take ==> Quiet(s.cache)) && (s.lock.Checked? && s.lock.take ==> Quiet(s.cache))
    && (s.lock.Changed? && s.lock.take ==> s.cache.statted == [] && |s.cache.pending| == 1)
  }

  /** No hold slips in once the holder of the lock has looked. */
  predicate HoldTrue(s: State) { s.lock.Checked? ==> !Held(s, s.lock.digest) }

  /** The live handles on `k`. */
  function Holders(handles: map<nat, Key>, k: Key): set<nat> { set h | h in handles && handles[h] == k }

  ghost function Live(handles: map<nat, Key>, k: Key): nat { |Holders(handles, k)| }

  /** The spool's counts are those of the live handles. */
  ghost predicate HandlesTrue(s: State) {
    && (forall h | h in s.handles :: h < s.next)
    && (forall k :: (k in s.holds <==> Live(s.handles, k) > 0) && (k in s.holds ==> s.holds[k] == Live(s.handles, k)))
  }

  ghost predicate Inv(s: State) {
    DirTrue(s.spool) && DirTrue(s.cache) && LockTrue(s) && HoldTrue(s) && HandlesTrue(s)
  }

  // ---------------------------------------------------------------------------
  // Directories.

  lemma TouchPut(dir: Dir, d: Digest, size: nat)
    requires DirTrue(dir) && dir.statted == []
    ensures DirTrue(Touch(dir, dir.files[d := size], d, if d in dir.files then dir.files[d] else 0, size))
  {
    TotalMore(dir.files, d, size);
    SumMore(dir.pending, size - (if d in dir.files then dir.files[d] else 0));
  }

  lemma TouchLess(dir: Dir, d: Digest)
    requires DirTrue(dir) && d in dir.files
    ensures DirTrue(Touch(dir, dir.files - {d}, d, dir.files[d], 0))
  {
    var size: int := dir.files[d];
    TotalLess(dir.files, d);
    SumMore(dir.pending, 0 - size);
  }

  lemma CountedTrue(dir: Dir, i: nat)
    requires DirTrue(dir) && i < |dir.pending|
    ensures DirTrue(Counted(dir, i))
  {
    SumDrop(dir.pending, i);
  }

  lemma SeenMore(files: map<Digest, nat>, visited: set<Digest>, d: Digest)
    requires d in files && d !in visited
    ensures Total(Seen(files, visited + {d})) == Total(Seen(files, visited)) + files[d]
  {
    assert Seen(files, visited + {d}) == Seen(files, visited)[d := files[d]];
    TotalMore(Seen(files, visited), d, files[d]);
  }

  lemma VisitTrue(dir: Dir, d: Digest)
    requires DirTrue(dir) && dir.scan.Some? && d in dir.files
    requires d in dir.scan.value.visited ==> d in dir.scan.value.touched
    ensures var c := dir.scan.value;
            DirTrue(dir.(scan := Some(c.(visited := c.visited + {d}, total := c.total + dir.files[d]))))
  {
    if dir.scan.value.touched == {} {
      SeenMore(dir.files, dir.scan.value.visited, d);
    }
  }

  lemma BeginTrue(dir: Dir)
    requires DirTrue(dir) && dir.scan.None?
    ensures DirTrue(dir.(scan := Some(Scan(dir.changes, {}, 0, {}))))
  {
    assert Seen(dir.files, {}) == map[];
  }

  /** A scan no change overlapped saw every file, and the count agrees with it. */
  lemma NoDrift(dir: Dir)
    requires DirTrue(dir) && dir.scan.Some? && Walked(dir, dir.scan.value) && dir.pending == []
    ensures Drift(dir) == 0
  {
    var c := dir.scan.value;
    if dir.changes == c.before {
      assert Seen(dir.files, c.visited) == dir.files;
    }
  }

  // ---------------------------------------------------------------------------
  // Holds.

  lemma LiveMore(handles: map<nat, Key>, h: nat, k: Key, j: Key)
    requires h !in handles
    ensures Live(handles[h := k], j) == Live(handles, j) + (if j == k then 1 else 0)
  {
    var a := Holders(handles, j);
    assert Holders(handles[h := k], j) == if j == k then a + {h} else a;
  }

  lemma HoldMoreTrue(s: State, k: Key)
    requires HandlesTrue(s)
    ensures HandlesTrue(HoldMore(s, k))
  {
    var t := HoldMore(s, k);
    forall j ensures (j in t.holds <==> Live(t.handles, j) > 0) && (j in t.holds ==> t.holds[j] == Live(t.handles, j)) {
      LiveMore(s.handles, s.next, k, j);
    }
  }

  lemma HoldLessTrue(s: State, h: nat)
    requires HandlesTrue(s) && h in s.handles && s.handles[h] in s.holds
    ensures HandlesTrue(HoldLess(s, h))
  {
    var t, k := HoldLess(s, h), s.handles[h];
    forall j ensures (j in t.holds <==> Live(t.handles, j) > 0) && (j in t.holds ==> t.holds[j] == Live(t.handles, j)) {
      LiveMore(t.handles, h, k, j);
      assert t.handles[h := k] == s.handles;
    }
  }

  /** The spool says a blob is held exactly when a hold on it was taken and not ended. */
  lemma HeldMeans(s: State, d: Digest)
    requires HandlesTrue(s)
    ensures Held(s, d) <==> exists h | h in s.handles :: s.handles[h].digest == d
  {
    if k :| k in s.holds && k.digest == d {
      assert |Holders(s.handles, k)| == Live(s.handles, k) > 0;
      var h :| h in Holders(s.handles, k);
    }
    if h :| h in s.handles && s.handles[h].digest == d {
      assert h in Holders(s.handles, s.handles[h]);
    }
  }

  // ---------------------------------------------------------------------------
  // Steps and runs.

  lemma LockStepKeeps(s: State, step: Step)
    requires Inv(s) && Can(s, step)
    requires step.Commit? || step.BeginRemove? || step.BeginTake? || step.CheckHeld? || step.Unlink? || step.Move?
    ensures Inv(Do(s, step))
  {
    match step
    case Commit(d, size, _) => TouchPut(s.spool, d, size);
    case Unlink =>
      if s.lock.digest in s.spool.files {
        TouchLess(s.spool, s.lock.digest);
      }
    case Move =>
      if s.lock.digest in s.spool.files {
        TouchLess(s.spool, s.lock.digest);
        TouchPut(s.cache, s.lock.digest, s.spool.files[s.lock.digest]);
      }
    case _ =>
  }

  lemma FinishKeeps(s: State)
    requires Inv(s) && Can(s, Finish)
    ensures Inv(Do(s, Finish))
  {
    CountedTrue(s.spool, 0);
    if s.lock.take {
      CountedTrue(s.cache, 0);
    }
    var t := s.(spool := Settled(s.spool), cache := if s.lock.take then Settled(s.cache) else s.cache, lock := Free);
    if s.lock.hold.Some? {
      HoldMoreTrue(t, s.lock.hold.value);
    }
  }

  lemma CacheStepKeeps(s: State, step: Step)
    requires Inv(s) && Can(s, step) && (step.CacheStat? || step.CacheUnlink? || step.CacheCount?)
    ensures Inv(Do(s, step))
  {
    match step
    case CacheStat(d) =>
    case CacheUnlink(i) =>
      var dir := s.cache.(statted := Drop(s.cache.statted, i));
      if s.cache.statted[i].0 in dir.files {
        TouchLess(dir, s.cache.statted[i].0);
      }
    case CacheCount(i) => CountedTrue(s.cache, i);
  }

  lemma HoldStepKeeps(s: State, step: Step)
    requires Inv(s) && Can(s, step) && (step.Hold? || step.Unhold?)
    ensures Inv(Do(s, step))
  {
    match step
    case Hold(k) => HoldMoreTrue(s, k);
    case Unhold(h) =>
      if h in s.handles && s.handles[h] in s.holds {
        HoldLessTrue(s, h);
      }
  }

  lemma BeginScanKeeps(s: State, o: bool)
    requires Inv(s) && Can(s, BeginScan(o))
    ensures Inv(Do(s, BeginScan(o)))
  {
    BeginTrue(Of(s, o));
  }

  lemma VisitKeeps(s: State, o: bool, d: Digest)
    requires Inv(s) && Can(s, Visit(o, d))
    ensures Inv(Do(s, Visit(o, d)))
  {
    VisitTrue(Of(s, o), d);
  }

  lemma EndScanKeeps(s: State, o: bool)
    requires Inv(s) && Can(s, EndScan(o))
    ensures Inv(Do(s, EndScan(o))) && Drift(Of(s, o)) == 0 && Of(Do(s, EndScan(o)), o).usage == Of(s, o).usage
  {
    NoDrift(Of(s, o));
  }

  lemma Keeps(s: State, step: Step)
    requires Inv(s) && Can(s, step)
    ensures Inv(Do(s, step))
  {
    if step.Finish? {
      FinishKeeps(s);
    } else if step.CacheStat? || step.CacheUnlink? || step.CacheCount? {
      CacheStepKeeps(s, step);
    } else if step.Hold? || step.Unhold? {
      HoldStepKeeps(s, step);
    } else {
      match step
      case BeginScan(o) => BeginScanKeeps(s, o);
      case Visit(o, d) => VisitKeeps(s, o, d);
      case EndScan(o) => EndScanKeeps(s, o);
      case _ => LockStepKeeps(s, step);
    }
  }

  /** Both directories as `count` leaves them when they are opened. */
  ghost predicate Opened(s: State) {
    && s.lock.Free? && s.holds == map[] && s.handles == map[] && s.next == 0
    && (forall o :: Quiet(Of(s, o)) && Of(s, o).scan.None? && Of(s, o).usage == Total(Of(s, o).files))
  }

  lemma OpenedTrue(s: State)
    requires Opened(s)
    ensures Inv(s)
  {
    assert Quiet(Of(s, true)) && Quiet(Of(s, false));
    forall k: Key ensures Live(s.handles, k) == 0 {
      assert Holders(s.handles, k) == {};
    }
  }

  /** A run, step by step. */
  ghost predicate Run(states: seq<State>, steps: seq<Step>) {
    && |states| == |steps| + 1 && Opened(states[0])
    && forall i | 0 <= i < |steps| :: Can(states[i], steps[i]) && states[i + 1] == Do(states[i], steps[i])
  }

  lemma {:induction false} EveryState(states: seq<State>, steps: seq<Step>, n: nat)
    requires Run(states, steps) && n < |states|
    ensures Inv(states[n])
    decreases n
  {
    if n == 0 {
      OpenedTrue(states[0]);
    } else {
      EveryState(states, steps, n - 1);
      Keeps(states[n - 1], steps[n - 1]);
    }
  }

  /** In every interleaving, a directory's count is the bytes of its blob files
      whenever no change is in progress. */
  lemma CountIsTotal(states: seq<State>, steps: seq<Step>, n: nat, ofSpool: bool)
    requires Run(states, steps) && n < |states| && Of(states[n], ofSpool).pending == []
    ensures Of(states[n], ofSpool).usage == Total(Of(states[n], ofSpool).files)
  {
    EveryState(states, steps, n);
  }

  /** In every interleaving, every ScanAndCorrect answers zero and changes nothing. */
  lemma ScansAgree(states: seq<State>, steps: seq<Step>, n: nat, ofSpool: bool)
    requires Run(states, steps) && n < |steps| && steps[n] == EndScan(ofSpool)
    ensures Of(states[n], ofSpool).scan.Some? && Drift(Of(states[n], ofSpool)) == 0
    ensures Of(states[n + 1], ofSpool).usage == Of(states[n], ofSpool).usage
  {
    EveryState(states, steps, n);
    assert Can(states[n], steps[n]);
    EndScanKeeps(states[n], ofSpool);
  }

  /** In every interleaving, no step unlinks or moves the spool file of a blob some
      write holds. */
  lemma HeldStays(states: seq<State>, steps: seq<Step>, n: nat, h: nat)
    requires Run(states, steps) && n < |steps| && h in states[n].handles
    ensures var d := states[n].handles[h].digest;
            d in states[n].spool.files ==> d in states[n + 1].spool.files
  {
    EveryState(states, steps, n);
    assert Can(states[n], steps[n]);
    HeldMeans(states[n], states[n].handles[h].digest);
  }

  // ---------------------------------------------------------------------------
  // Looking a blob up: the cache, the spool, and the cache once more.

  /** The step takes the blob's file off local disk. */
  predicate Removes(s: State, step: Step, d: Digest)
    requires Can(s, step)
  {
    || (step.Unlink? && s.lock.digest == d && d in s.spool.files)
    || (step.CacheUnlink? && s.cache.statted[step.i].0 == d && d in s.cache.files)
  }

  predicate Local(s: State, d: Digest) { d in s.spool.files || d in s.cache.files }

  /** What the three probes of a lookup find, at three moments. */
  predicate Finds(first: State, second: State, third: State, d: Digest) {
    d in first.cache.files || d in second.spool.files || d in third.cache.files
  }

  /** A blob that no step removes stays on local disk, and in the cache once there. */
  lemma StaysLocal(s: State, step: Step, d: Digest)
    requires Can(s, step) && !Removes(s, step, d)
    ensures Local(s, d) ==> Local(Do(s, step), d)
    ensures d in s.cache.files ==> d in Do(s, step).cache.files
  {
  }

  ghost predicate Undisturbed(states: seq<State>, steps: seq<Step>, a: nat, b: nat, d: Digest) {
    forall m | a <= m < b :: Calm(states, steps, m, d)
  }

  /** Step `m` does not remove the blob. */
  predicate Calm(states: seq<State>, steps: seq<Step>, m: int, d: Digest) {
    && 0 <= m < |steps| && m + 1 < |states| && Can(states[m], steps[m]) && states[m + 1] == Do(states[m], steps[m])
    && !Removes(states[m], steps[m], d)
  }

  lemma LocalNext(states: seq<State>, steps: seq<Step>, m: nat, d: Digest)
    requires Calm(states, steps, m, d)
    ensures Local(states[m], d) ==> Local(states[m + 1], d)
    ensures d in states[m].cache.files ==> d in states[m + 1].cache.files
  {
    StaysLocal(states[m], steps[m], d);
  }

  lemma {:induction false} LocalLater(states: seq<State>, steps: seq<Step>, a: nat, b: nat, d: Digest)
    requires a <= b < |states| && Undisturbed(states, steps, a, b, d)
    ensures Local(states[a], d) ==> Local(states[b], d)
    ensures d in states[a].cache.files ==> d in states[b].cache.files
    decreases b - a
  {
    if a < b {
      LocalLater(states, steps, a, b - 1, d);
      LocalNext(states, steps, b - 1, d);
    }
  }

  /** In every interleaving, a lookup finds a blob that is on local disk when it begins and
      that no step removes before its last probe, however it moves meanwhile. */
  lemma LookupFinds(states: seq<State>, steps: seq<Step>, i: nat, j: nat, k: nat, d: Digest)
    requires Run(states, steps) && i <= j <= k < |states| && Local(states[i], d)
    requires Undisturbed(states, steps, i, k, d)
    ensures Finds(states[i], states[j], states[k], d)
  {
    LocalLater(states, steps, i, j, d);
    LocalLater(states, steps, j, k, d);
  }

  /** Step `m` removes the blob and leaves none in the cache, and at `j`, before that or just
      after, the spool had none. */
  predicate GoneAt(states: seq<State>, steps: seq<Step>, a: nat, m: nat, j: nat, d: Digest) {
    && a <= j <= m + 1 < |states| && m < |steps| && Can(states[m], steps[m]) && Removes(states[m], steps[m], d)
    && d !in states[m + 1].cache.files && d !in states[j].spool.files
  }

  predicate Missed(states: seq<State>, a: nat, j: nat, k: nat, d: Digest) {
    a <= j <= k < |states| && !Finds(states[a], states[j], states[k], d)
  }

  lemma {:induction false} LeavesSpool(states: seq<State>, a: nat, j: nat, d: Digest) returns (m: nat)
    requires a <= j < |states| && d in states[a].spool.files && d !in states[j].spool.files
    ensures a <= m < j && d in states[m].spool.files && d !in states[m + 1].spool.files
    decreases j
  {
    if d in states[j - 1].spool.files {
      m := j - 1;
    } else {
      m := LeavesSpool(states, a, j - 1, d);
    }
  }

  lemma {:induction false} LeavesCache(states: seq<State>, a: nat, k: nat, d: Digest) returns (m: nat)
    requires a <= k < |states| && d in states[a].cache.files && d !in states[k].cache.files
    ensures a <= m < k && d in states[m].cache.files && d !in states[m + 1].cache.files
    decreases k
  {
    if d in states[k - 1].cache.files {
      m := k - 1;
    } else {
      m := LeavesCache(states, a, k - 1, d);
    }
  }

  /** A blob leaves the spool for the cache, or for good. */
  lemma SpoolLoses(s: State, step: Step, d: Digest)
    requires Can(s, step) && d in s.spool.files && d !in Do(s, step).spool.files
    ensures d in Do(s, step).cache.files || Removes(s, step, d)
  {
  }

  lemma CacheLoses(s: State, step: Step, d: Digest)
    requires Can(s, step) && d in s.cache.files && d !in Do(s, step).cache.files
    ensures Removes(s, step, d)
  {
  }

  /** From `a` to `b`, a lookup that begins at `a` finds a blob of the spool whenever its other
      looks come, exactly if the blob is not removed for good after it has left the spool. */
  lemma LookupsFindIff(states: seq<State>, steps: seq<Step>, a: nat, b: nat, d: Digest)
    requires Run(states, steps) && a <= b < |states| && d in states[a].spool.files && d !in states[a].cache.files
    ensures (exists j: nat, k: nat :: k <= b && Missed(states, a, j, k, d))
       <==> (exists m: nat, j: nat :: m < b && GoneAt(states, steps, a, m, j, d))
  {
    if m: nat, j: nat :| m < b && GoneAt(states, steps, a, m, j, d) {
      assert m + 1 <= b && Missed(states, a, j, m + 1, d);
    }
    if j: nat, k: nat :| k <= b && Missed(states, a, j, k, d) {
      var m, i := WhenGone(states, steps, a, j, k, d);
      assert m < b && GoneAt(states, steps, a, m, i, d);
    }
  }

  lemma WhenGone(states: seq<State>, steps: seq<Step>, a: nat, j: nat, k: nat, d: Digest) returns (m: nat, i: nat)
    requires Run(states, steps) && Missed(states, a, j, k, d) && d in states[a].spool.files
    ensures m < k && GoneAt(states, steps, a, m, i, d)
  {
    m := LeavesSpool(states, a, j, d);
    i := m + 1;
    SpoolLoses(states[m], steps[m], d);
    if d in states[i].cache.files {
      m := LeavesCache(states, i, k, d);
      CacheLoses(states[m], steps[m], d);
    }
  }

  lemma Longer(states: seq<State>, steps: seq<Step>, step: Step) returns (states': seq<State>, steps': seq<Step>)
    requires Run(states, steps) && Can(states[|steps|], step)
    ensures Run(states', steps') && states <= states' && states'[|steps'|] == Do(states[|steps|], step)
    ensures |steps'| == |steps| + 1
  {
    states', steps' := states + [Do(states[|steps|], step)], steps + [step];
  }

  const Empty := Dir(map[], 0, 0, [], [], None)

  /** A blob of five bytes is written. */
  lemma Written() returns (states: seq<State>, steps: seq<Step>)
    ensures Run(states, steps) && |steps| == 2
    ensures states[2] == State(Dir(map[1 := 5], 5, 1, [], [], None), Empty, Free, map[], map[], 0)
  {
    var start := State(Empty, Empty, Free, map[], map[], 0);
    assert Of(start, true) == Of(start, false) == Empty;
    states, steps := Longer([start], [], Commit(1, 5, None));
    states, steps := Longer(states, steps, Finish);
    assert states[2].spool.pending == [];
  }

  /** The cache takes it. */
  lemma Taken() returns (states: seq<State>, steps: seq<Step>)
    ensures Run(states, steps) && |steps| == 6 && 1 in states[2].spool.files && 1 !in states[2].cache.files
    ensures states[6].spool == Dir(map[], 0, 2, [], [], None) && states[6].cache == Dir(map[1 := 5], 5, 1, [], [], None)
    ensures states[6].lock == Free
  {
    states, steps := Written();
    states, steps := Longer(states, steps, BeginTake(1));
    states, steps := Longer(states, steps, CheckHeld);
    states, steps := Longer(states, steps, Move);
    assert states[5].spool.files == map[];
    states, steps := Longer(states, steps, Finish);
    assert states[6].spool.pending == [] && states[6].cache.pending == [];
  }

  /** Without that, a lookup can miss a blob that is on local disk when it begins: the
      blob moves to the cache between the first two probes, and the cache removes it
      before the third. */
  lemma LookupMisses() returns (states: seq<State>, steps: seq<Step>)
    ensures Run(states, steps) && |steps| == 8
    ensures Local(states[2], 1) && !Finds(states[2], states[6], states[8], 1)
  {
    states, steps := Taken();
    states, steps := Longer(states, steps, CacheStat(1));
    states, steps := Longer(states, steps, CacheUnlink(0));
  }
}
