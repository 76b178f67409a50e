/** Retention: which shipped segments `runRetention` retires, and that the newest ones
    stay, in every run. */
module CatalogRetention {
  import opened Options
  import opened CatalogLog
  import opened CatalogLogSafe

  /** The list of sealed segments is newest first, and older than the open one. */
  predicate OrderTrue(order: seq<Seq>, up: bool, open: Option<Seq>, creating: Option<Seq>, segs: map<Seq, Segment>,
                      nextSeq: Seq) {
    && (!up ==> order == [] && open.None?)
    && (forall i, j | 0 <= i < j < |order| :: order[j] < order[i])
    && (forall x | x in order :: x in segs && x < nextSeq)
    && (open.Some? ==> open.value < nextSeq && forall x | x in order :: x < open.value)
    && (creating.Some? ==> creating.value < nextSeq && open.None? && forall x | x in order :: x < creating.value)
  }

  predicate Ordered(s: State) { OrderTrue(s.order, s.phase.Up?, s.open, s.creating, s.segs, s.nextSeq) }

  lemma {:induction false} WithoutIs(list: seq<Seq>, q: Seq)
    requires forall i, j | 0 <= i < j < |list| :: list[j] < list[i]
    ensures var r := Without(list, q);
            && (forall i, j | 0 <= i < j < |r| :: r[j] < r[i])
            && (forall x :: x in r <==> x in list && x != q)
    decreases |list|
  {
    if list != [] {
      var n := |list| - 1;
      WithoutIs(list[..n], q);
      assert list == list[..n] + [list[n]];
      var r := Without(list[..n], q);
      forall i | 0 <= i < |r| ensures list[n] < r[i] {
        assert r[i] in list[..n];
      }
    }
  }

  lemma LogOrdered(s: State, step: LogStep)
    requires Inv(s) && Ordered(s) && Running(s) && CanLog(s, step)
    ensures Ordered(DoLog(s, step))
  {
    match step
    case RetireRow(q) => RetireOrdered(s, q);
    case Freeze => FreezeOrdered(s);
    case Create(q) => CreateOrdered(s, q);
    case InsertOpen => InsertOrdered(s);
    case _ =>
  }

  lemma RetireOrdered(s: State, q: Seq)
    requires Ordered(s) && Running(s) && CanLog(s, RetireRow(q))
    ensures Ordered(DoLog(s, RetireRow(q)))
  {
    WithoutIs(s.order, q);
  }

  lemma CreateOrdered(s: State, q: Seq)
    requires Inv(s) && Ordered(s) && Running(s) && CanLog(s, Create(q))
    ensures Ordered(DoLog(s, Create(q)))
  {
  }

  lemma InsertOrdered(s: State)
    requires Inv(s) && Ordered(s) && Running(s) && CanLog(s, InsertOpen)
    ensures Ordered(DoLog(s, InsertOpen))
  {
  }

  lemma FreezeOrdered(s: State)
    requires Ordered(s) && Running(s) && CanLog(s, Freeze)
    ensures Ordered(DoLog(s, Freeze))
  {
    var q, t := s.open.value, [s.open.value] + s.order;
    forall i, j | 0 <= i < j < |t| ensures t[j] < t[i] {
      assert t[j] in s.order;
    }
  }

  lemma RebuildOrdered(s: State, step: RebuildStep)
    requires Inv(s) && Ordered(s) && CanRebuild(s, step)
    ensures Ordered(DoRebuild(s, step))
  {
  }

  lemma ScanOrdered(s: State, step: ScanStep)
    requires Inv(s) && Ordered(s) && CanScan(s, step)
    ensures Ordered(DoScan(s, step))
  {
  }

  lemma WorldOrdered(s: State, step: WorldStep)
    requires Ordered(s) && CanWorld(s, step)
    ensures Ordered(DoWorld(s, step))
  {
  }

  lemma {:induction false} EveryRunOrdered(retain: nat, steps: seq<Step>)
    requires After(retain, steps).Some?
    ensures Ordered(After(retain, steps).value) && After(retain, steps).value.retain == retain
    decreases |steps|
  {
    if steps != [] {
      var n := |steps| - 1;
      EveryRun(retain, steps[..n]);
      EveryRunOrdered(retain, steps[..n]);
      var s := After(retain, steps[..n]).value;
      match steps[n]
      case Log(l) => LogOrdered(s, l);
      case World(w) => WorldOrdered(s, w);
      case Scan(c) => ScanOrdered(s, c);
      case Rebuild(r) => RebuildOrdered(s, r);
    }
  }

  /** In every run, retention never unlinks one of the `retain` newest shipped
      segments that are still on disk. */
  lemma NewestStay(retain: nat, steps: seq<Step>, n: nat, q: Seq, i: nat)
    requires After(retain, steps).Some? && Taken(steps, Log(Unlink(q)), n)
    requires After(retain, steps[..n]).Some?
    requires var s := After(retain, steps[..n]).value;
             i < |s.order| && Retirable(s, s.order[i]) && Kept(s, s.order[..i]) < retain
    ensures After(retain, steps[..n]).value.order[i] != q
  {
    PrefixRuns(retain, steps, n);
    EveryRunOrdered(retain, steps[..n]);
  }

  /** Only a segment in memory that is shipped is ever unlinked. */
  lemma UnshippedStay(retain: nat, steps: seq<Step>, n: nat, q: Seq)
    requires After(retain, steps).Some? && Taken(steps, Log(Unlink(q)), n)
    ensures After(retain, steps[..n]).Some? && IsShipped(After(retain, steps[..n]).value, q)
  {
    PrefixRuns(retain, steps, n);
    EveryRun(retain, steps[..n]);
  }

  // ---------------------------------------------------------------------------

  lemma KeptGrows(s: State, i: nat)
    requires i < |s.order|
    ensures Kept(s, s.order[..i + 1]) == Kept(s, s.order[..i]) + (if Retirable(s, s.order[i]) then 1 else 0)
  {
    assert s.order[..i + 1][..i] == s.order[..i];
  }

  lemma {:induction false} KeptElsewhere(s: State, t: State, list: seq<Seq>)
    requires forall q | q in list :: Retirable(s, q) <==> Retirable(t, q)
    ensures Kept(s, list) == Kept(t, list)
    decreases |list|
  {
    if list != [] {
      KeptElsewhere(s, t, list[..|list| - 1]);
    }
  }

  lemma {:induction false} KeptMore(s: State, list: seq<Seq>, i: nat)
    requires i <= |list|
    ensures Kept(s, list[..i]) <= Kept(s, list)
    decreases |list| - i
  {
    if i < |list| {
      KeptMore(s, list, i + 1);
      assert list[..i + 1][..i] == list[..i];
    } else {
      assert list[..i] == list;
    }
  }

  /** Unlinking a segment leaves the retained number of newer shipped ones on disk. */
  lemma UnlinkLeaves(s: State, q: Seq) returns (i: nat)
    requires Ordered(s) && CanLog(s, Unlink(q))
    ensures var t := DoLog(s, Unlink(q));
            && t.order == s.order && i < |t.order| && t.order[i] == q && (forall x | x in t.order[..i] :: x > q)
            && Kept(t, t.order) >= Kept(t, t.order[..i]) >= s.retain
  {
    i :| 0 <= i < |s.order| && s.order[i] == q && Kept(s, s.order[..i]) >= s.retain;
    NewerBefore(s.order, i);
    KeptAfter(s, q, s.order[..i]);
    KeptMore(DoLog(s, Unlink(q)), s.order, i);
  }

  lemma NewerBefore(order: seq<Seq>, i: nat)
    requires i < |order| && forall a, b | 0 <= a < b < |order| :: order[b] < order[a]
    ensures forall x | x in order[..i] :: x > order[i]
  {
  }

  lemma KeptAfter(s: State, q: Seq, list: seq<Seq>)
    requires CanLog(s, Unlink(q)) && forall x | x in list :: x > q
    ensures Kept(DoLog(s, Unlink(q)), list) == Kept(s, list)
  {
    KeptElsewhere(s, DoLog(s, Unlink(q)), list);
  }

  /** In every run, retention leaves the retained number of shipped segments on disk, all
      of them newer than the one it unlinks. */
  lemma WindowStaysFull(retain: nat, steps: seq<Step>, n: nat, q: Seq) returns (i: nat)
    requires After(retain, steps).Some? && Taken(steps, Log(Unlink(q)), n)
    ensures After(retain, steps[..n + 1]).Some?
    ensures var t := After(retain, steps[..n + 1]).value;
            && i < |t.order| && t.order[i] == q && (forall x | x in t.order[..i] :: x > q)
            && Kept(t, t.order) >= Kept(t, t.order[..i]) >= retain
  {
    PrefixRuns(retain, steps, n);
    PrefixRuns(retain, steps, n + 1);
    EveryRunOrdered(retain, steps[..n]);
    assert steps[..n + 1][..n] == steps[..n];
    i := UnlinkLeaves(After(retain, steps[..n]).value, q);
  }

  /** The choice of `runRetention`: exactly the segments past the window. */
  method ToRetire(s: State) returns (list: seq<Seq>)
    ensures forall q :: q in list <==> PastWindow(s, q)
  {
    list := [];
    var shippedSeen := 0;
    for i := 0 to |s.order|
      invariant shippedSeen == Kept(s, s.order[..i])
      invariant forall q :: q in list <==> ChosenBefore(s, q, i)
    {
      KeptGrows(s, i);
      var q := s.order[i];
      if !Retirable(s, q) {
        continue;
      }
      shippedSeen := shippedSeen + 1;
      if shippedSeen <= s.retain {
        continue;
      }
      list := list + [q];
    }
    forall q ensures ChosenBefore(s, q, |s.order|) <==> PastWindow(s, q) {
    }
  }

  predicate ChosenBefore(s: State, q: Seq, n: nat)
    requires n <= |s.order|
  {
    Retirable(s, q) && exists i | 0 <= i < n :: s.order[i] == q && Kept(s, s.order[..i]) >= s.retain
  }
}
