/** Per-key delegation caches against revocation, as a state machine: batches being
    added, revocations scanning the stores, lookups, and expiry, in every interleaving. */
module Revocation {
  type Link = nat
  type Key = nat

  /** What the holder of a store's lock is doing with its batch: the first `at`
      delegations have been checked, or put in. `gone` are the links past their own
      expiry when Add read the clock, which it skips. */
  datatype Adding =
    | Idle
    | Checking(batch: seq<Link>, at: nat)
    | Inserting(batch: seq<Link>, at: nat, gone: set<Link>)

  /** A key's store. `data` is live, `dead` has expired and is not swept yet; a swept link
      is in `sweeping` until its handler has looked at the cache, and in `removing` if it
      found no live entry. Batches are numbered; `refused` and `inserted` say which were
      refused and which put something in. */
  datatype Store = Store(
    data: set<Link>, dead: set<Link>, index: set<Link>, sweeping: set<Link>, removing: set<Link>,
    adding: Adding, batches: nat, refused: set<nat>, inserted: set<nat>)

  const Fresh := Store({}, {}, {}, {}, {}, Idle, 0, {}, {})

  /** InvalidateHolders, under the registry's lock. */
  datatype Call =
    | NoCall
    | Recorded(link: Link)
    | Scanning(link: Link, items: map<Key, nat>)

  /** A lookup: what the index gave, what was then found live, what was yielded. `barred`
      are the links whose revocation had finished when it began and is remembered since. */
  datatype Lookup = Lookup(store: nat, matches: set<Link>, live: set<Link>, out: set<Link>, barred: set<Link>)

  /** `past` are the delegations past their own expiry, which an identifier fixes: time
      only adds to it. An entry is cached for what is left of that life when it is put
      in, counted from a clock read no later, so it never goes before.
      `finished` are the links whose InvalidateHolders returned and that are remembered
      since. A store dropped from `byKey` stays in `stores`: a caller may hold it. */
  datatype State = State(
    stores: seq<Store>, byKey: map<Key, nat>, past: set<Link>, revoked: set<Link>, finished: set<Link>,
    call: Call, lookups: seq<Lookup>)

  datatype Step =
    | AddBegin(d: nat, batch: seq<Link>) | AddCheck(d: nat) | AddPass(d: nat)
    | AddInsert(d: nat) | AddEnd(d: nat)
    | For(key: Key)
    | InvalidateRecord(link: Link) | InvalidateItems | InvalidateScan(key: Key) | InvalidateEnd
    | LookBegin(d: nat, matches: set<Link>) | LookLive(l: nat, link: Link) | LookYield(l: nat, link: Link)
    | Expire(d: nat, link: Link) | Evict(d: nat, link: Link)
    | SweepLook(d: nat, link: Link) | SweepRemove(d: nat, link: Link)
    | ExpireStore(key: Key) | Forget(link: Link) | Pass(link: Link)

  predicate OnStore(step: Step) {
    || step.AddBegin? || step.AddCheck? || step.AddPass? || step.AddInsert? || step.AddEnd?
    || step.Expire? || step.Evict? || step.SweepLook? || step.SweepRemove?
  }

  predicate CanStore(st: Store, past: set<Link>, step: Step)
    requires OnStore(step)
  {
    match step
    case AddBegin(_, _) => st.adding.Idle?
    case AddCheck(_) => st.adding.Checking? && st.adding.at < |st.adding.batch|
    case AddPass(_) => st.adding.Checking? && st.adding.at == |st.adding.batch|
    case AddInsert(_) => st.adding.Inserting? && st.adding.at < |st.adding.batch|
    case AddEnd(_) => st.adding.Inserting? && st.adding.at == |st.adding.batch|
    case Expire(_, link) => link in st.data && link in past
    case Evict(_, link) => link in st.dead && link !in st.sweeping && link !in st.removing
    case SweepLook(_, link) => link in st.sweeping
    case SweepRemove(_, link) => link in st.removing && st.adding.Idle?
  }

  /** What a step does to the store it is on. */
  function OfStore(st: Store, revoked: set<Link>, past: set<Link>, step: Step): Store
    requires OnStore(step) && CanStore(st, past, step)
  {
    match step
    case AddBegin(_, batch) => st.(adding := Checking(batch, 0), batches := st.batches + 1)
    case AddCheck(_) =>
      if st.adding.batch[st.adding.at] in revoked then st.(adding := Idle, refused := st.refused + {st.batches})
      else st.(adding := Checking(st.adding.batch, st.adding.at + 1))
    case AddPass(_) => st.(adding := Inserting(st.adding.batch, 0, past))
    case AddInsert(_) =>
      var t := st.(adding := Inserting(st.adding.batch, st.adding.at + 1, st.adding.gone));
      var link := st.adding.batch[st.adding.at];
      if link in st.adding.gone then t
      else t.(data := st.data + {link}, dead := st.dead - {link}, index := st.index + {link},
          inserted := st.inserted + {st.batches})
    case AddEnd(_) => st.(adding := Idle)
    case Expire(_, link) => st.(data := st.data - {link}, dead := st.dead + {link})
    case Evict(_, link) => st.(dead := st.dead - {link}, sweeping := st.sweeping + {link})
    case SweepLook(_, link) =>
      st.(sweeping := st.sweeping - {link}, removing := if link in st.data then st.removing else st.removing + {link})
    case SweepRemove(_, link) => st.(removing := st.removing - {link}, index := st.index - {link})
  }

  predicate Can(s: State, step: Step) {
    if OnStore(step) then step.d < |s.stores| && CanStore(s.stores[step.d], s.past, step)
    else
      match step
      case For(_) => s.call.NoCall?
      case InvalidateRecord(_) => s.call.NoCall?
      case InvalidateItems => s.call.Recorded?
      case InvalidateScan(key) =>
        && s.call.Scanning? && key in s.call.items
        && s.call.items[key] < |s.stores| && s.stores[s.call.items[key]].adding.Idle?
      case InvalidateEnd => s.call.Scanning? && s.call.items == map[]
      case LookBegin(d, matches) => d < |s.stores| && s.stores[d].adding.Idle? && matches <= s.stores[d].index
      case LookLive(l, link) => l < |s.lookups| && s.lookups[l].store < |s.stores| && link in s.lookups[l].matches
      case LookYield(l, link) => l < |s.lookups| && link in s.lookups[l].live
      case _ => true
  }

  function Unbar(ls: seq<Lookup>, link: Link): (r: seq<Lookup>)
    ensures |r| == |ls| && forall i | 0 <= i < |ls| :: r[i] == ls[i].(barred := ls[i].barred - {link})
  {
    seq(|ls|, i requires 0 <= i < |ls| => ls[i].(barred := ls[i].barred - {link}))
  }

  function Do(s: State, step: Step): State
    requires Can(s, step)
  {
    if OnStore(step) then s.(stores := s.stores[step.d := OfStore(s.stores[step.d], s.revoked, s.past, step)])
    else
      match step
      case For(key) =>
        if key in s.byKey then s
        else s.(stores := s.stores + [Fresh], byKey := s.byKey[key := |s.stores|])
      case InvalidateRecord(link) => s.(revoked := s.revoked + {link}, call := Recorded(link))
      case InvalidateItems => s.(call := Scanning(s.call.link, s.byKey))
      case InvalidateScan(key) =>
        var holds := s.call.link in s.stores[s.call.items[key]].data;
        s.(byKey := if holds then s.byKey - {key} else s.byKey, call := Scanning(s.call.link, s.call.items - {key}))
      case InvalidateEnd => s.(call := NoCall, finished := s.finished + ({s.call.link} * s.revoked))
      case LookBegin(d, matches) => s.(lookups := s.lookups + [Lookup(d, matches, {}, {}, s.finished)])
      case LookLive(l, link) =>
        var k := s.lookups[l];
        var live := if link in s.stores[k.store].data then k.live + {link} else k.live;
        s.(lookups := s.lookups[l := k.(matches := k.matches - {link}, live := live)])
      case LookYield(l, link) =>
        var k := s.lookups[l];
        var out := if link in s.revoked then k.out else k.out + {link};
        s.(lookups := s.lookups[l := k.(live := k.live - {link}, out := out)])
      case ExpireStore(key) => s.(byKey := s.byKey - {key})
      case Forget(link) =>
        s.(revoked := s.revoked - {link}, finished := s.finished - {link}, lookups := Unbar(s.lookups, link))
      case Pass(link) => s.(past := s.past + {link})
  }

  // ---------------------------------------------------------------------------
  // What every step keeps.

  /** The batch being added has got past the check with `link` in it. */
  predicate Passed(adding: Adding, link: Link) {
    || (adding.Checking? && adding.at <= |adding.batch| && link in adding.batch[..adding.at])
    || (adding.Inserting? && link in adding.batch)
  }

  /** The store does not hold the link, nor is it about to. */
  predicate Clean(st: Store, link: Link) { link !in st.data && !Passed(st.adding, link) }

  ghost predicate StoreTrue(st: Store, past: set<Link>) {
    && (st.adding.Checking? ==> st.adding.at <= |st.adding.batch| && st.batches !in st.inserted)
    && (!st.adding.Idle? ==> st.batches !in st.refused)
    && (forall n | n in st.refused || n in st.inserted :: n <= st.batches)
    && st.refused !! st.inserted
    && st.index <= st.data + st.dead + st.sweeping + st.removing
    && (st.adding.Inserting? ==> st.adding.gone <= past)
    && st.dead + st.sweeping + st.removing <= past && st.data - past <= st.index
  }

  /** A store some key is given holds no link whose revocation finished; one a scan has
      not reached may hold the link it is after. */
  predicate KeyTrue(s: State, key: Key)
    requires key in s.byKey
  {
    && s.byKey[key] < |s.stores|
    && (forall link | link in s.finished :: Clean(s.stores[s.byKey[key]], link))
    && (s.call.Scanning? && s.call.link in s.revoked && !(key in s.call.items && s.call.items[key] == s.byKey[key]) ==>
          Clean(s.stores[s.byKey[key]], s.call.link))
  }

  ghost predicate Inv(s: State) {
    && s.finished <= s.revoked
    && (forall st | st in s.stores :: StoreTrue(st, s.past))
    && (forall key | key in s.byKey :: KeyTrue(s, key))
    && (forall k | k in s.lookups :: k.barred <= s.revoked && k.barred !! k.out)
  }

  /** A link that is remembered as revoked stays out of a store it is not in. */
  lemma CleanStays(st: Store, revoked: set<Link>, past: set<Link>, step: Step, link: Link)
    requires OnStore(step) && CanStore(st, past, step) && StoreTrue(st, past)
    requires link in revoked && Clean(st, link)
    ensures Clean(OfStore(st, revoked, past, step), link)
  {
    match step
    case AddCheck(_) =>
      var a := st.adding;
      assert a.batch[..a.at + 1] == a.batch[..a.at] + [a.batch[a.at]];
    case AddPass(_) => assert st.adding.batch[..|st.adding.batch|] == st.adding.batch;
    case _ =>
  }

  lemma StoreStays(st: Store, revoked: set<Link>, past: set<Link>, step: Step)
    requires OnStore(step) && CanStore(st, past, step) && StoreTrue(st, past)
    ensures StoreTrue(OfStore(st, revoked, past, step), past)
  {
  }

  lemma StoreStepKeeps(s: State, step: Step)
    requires Inv(s) && Can(s, step) && OnStore(step)
    ensures Inv(Do(s, step))
  {
    var t := Do(s, step);
    var st := s.stores[step.d];
    StoreStays(st, s.revoked, s.past, step);
    forall key | key in t.byKey ensures KeyTrue(t, key) {
      assert KeyTrue(s, key);
      if s.byKey[key] == step.d {
        forall link | link in s.revoked && Clean(st, link) ensures Clean(t.stores[step.d], link) {
          CleanStays(st, s.revoked, s.past, step, link);
        }
      }
    }
  }

  lemma RegistryStepKeeps(s: State, step: Step)
    requires Inv(s) && Can(s, step) && !OnStore(step) && !step.LookBegin? && !step.LookLive? && !step.LookYield?
    ensures Inv(Do(s, step))
  {
    var t := Do(s, step);
    forall key | key in t.byKey ensures KeyTrue(t, key) {
      assert key in s.byKey ==> KeyTrue(s, key);
    }
  }

  lemma LookStepKeeps(s: State, step: Step)
    requires Inv(s) && Can(s, step) && (step.LookBegin? || step.LookLive? || step.LookYield?)
    ensures Inv(Do(s, step))
  {
    var t := Do(s, step);
    forall key | key in t.byKey ensures KeyTrue(t, key) {
      assert KeyTrue(s, key);
    }
  }

  lemma Keeps(s: State, step: Step)
    requires Inv(s) && Can(s, step)
    ensures Inv(Do(s, step))
  {
    if OnStore(step) {
      StoreStepKeeps(s, step);
    } else if step.LookBegin? || step.LookLive? || step.LookYield? {
      LookStepKeeps(s, step);
    } else {
      RegistryStepKeeps(s, step);
    }
  }

  const Start := State([], map[], {}, {}, {}, NoCall, [])

  ghost predicate Run(states: seq<State>, steps: seq<Step>) {
    && |states| == |steps| + 1 && states[0] == Start
    && forall i | 0 <= i < |steps| :: Can(states[i], steps[i]) && states[i + 1] == Do(states[i], steps[i])
  }

  lemma {:induction false} EveryState(states: seq<State>, steps: seq<Step>, n: nat)
    requires Run(states, steps) && n < |states|
    ensures Inv(states[n])
    decreases n
  {
    if n > 0 {
      EveryState(states, steps, n - 1);
      Keeps(states[n - 1], steps[n - 1]);
    }
  }

  /** In every interleaving, once InvalidateHolders has returned for a link, and while it
      is remembered, the store any key is given does not hold it. */
  lemma RevokedIsGone(states: seq<State>, steps: seq<Step>, n: nat, key: Key, link: Link)
    requires Run(states, steps) && n < |states| && key in states[n].byKey && link in states[n].finished
    ensures states[n].byKey[key] < |states[n].stores| && link !in states[n].stores[states[n].byKey[key]].data
  {
    EveryState(states, steps, n);
    assert KeyTrue(states[n], key);
  }

  /** In every interleaving, a lookup yields no link whose revocation had finished when
      the lookup began and is remembered since, from any store, dropped ones too. */
  lemma RevokedIsNotYielded(states: seq<State>, steps: seq<Step>, n: nat, l: nat)
    requires Run(states, steps) && n < |states| && l < |states[n].lookups|
    ensures states[n].lookups[l].barred !! states[n].lookups[l].out
  {
    EveryState(states, steps, n);
  }

  /** In every interleaving, a refused batch has put nothing in, and every indexed link is
      live or still to be swept. */
  lemma RefusedPutsNothing(states: seq<State>, steps: seq<Step>, n: nat, d: nat)
    requires Run(states, steps) && n < |states| && d < |states[n].stores|
    ensures var st := states[n].stores[d];
            st.refused !! st.inserted && st.index <= st.data + st.dead + st.sweeping + st.removing
  {
    EveryState(states, steps, n);
    assert states[n].stores[d] in states[n].stores;
  }

  // ---------------------------------------------------------------------------
  // The index against the cache.

  /** In every interleaving, a cached delegation that has not expired can be looked up:
      whatever the sweep of old entries takes from the index is past its own expiry. */
  lemma UnexpiredIsIndexed(states: seq<State>, steps: seq<Step>, n: nat, d: nat, link: Link)
    requires Run(states, steps) && n < |states| && d < |states[n].stores|
    requires link in states[n].stores[d].data && link !in states[n].past
    ensures link in states[n].stores[d].index
  {
    EveryState(states, steps, n);
    assert states[n].stores[d] in states[n].stores;
  }

  /** In every interleaving, whatever leaves the index is taken by the handler of a swept
      entry, and is past its own expiry: nothing is dropped early. */
  lemma OnlyPastIsDropped(states: seq<State>, steps: seq<Step>, n: nat, d: nat, link: Link)
    requires Run(states, steps) && n < |steps| && d < |states[n].stores|
    requires link in states[n].stores[d].index && link !in states[n + 1].stores[d].index
    ensures steps[n] == SweepRemove(d, link) && link in states[n].past
  {
    EveryState(states, steps, n);
    assert Can(states[n], steps[n]) && states[n].stores[d] in states[n].stores;
  }

  lemma Longer(states: seq<State>, steps: seq<Step>, step: Step) returns (states': seq<State>, steps': seq<Step>)
    requires Run(states, steps) && Can(states[|steps|], step)
    ensures Run(states', steps') && states'[|steps'|] == Do(states[|steps|], step)
  {
    states', steps' := states + [Do(states[|steps|], step)], steps + [step];
  }

  function One(st: Store, past: set<Link>): State { State([st], map[7 := 0], past, {}, {}, NoCall, []) }

  /** Store 0 of a run with the one store takes a batch of one link, up to putting it in. */
  lemma Begun(states: seq<State>, steps: seq<Step>, st: Store) returns (states': seq<State>, steps': seq<Step>)
    requires Run(states, steps) && states[|steps|] == One(st, {}) && st.adding.Idle?
    ensures Run(states', steps')
    ensures states'[|steps'|] == One(st.(adding := Inserting([1], 0, {}), batches := st.batches + 1), {})
  {
    states', steps' := Longer(states, steps, AddBegin(0, [1]));
    states', steps' := Longer(states', steps', AddCheck(0));
    states', steps' := Longer(states', steps', AddPass(0));
  }

  lemma Put(states: seq<State>, steps: seq<Step>, st: Store, past: set<Link>)
    returns (states': seq<State>, steps': seq<Step>)
    requires Run(states, steps) && states[|steps|] == One(st, past) && st.adding == Inserting([1], 0, {})
    ensures Run(states', steps')
    ensures states'[|steps'|] == One(st.(data := st.data + {1}, dead := st.dead - {1}, index := st.index + {1},
                                         inserted := st.inserted + {st.batches}, adding := Idle), past)
  {
    states', steps' := Longer(states, steps, AddInsert(0));
    states', steps' := Longer(states', steps', AddEnd(0));
  }

  /** A second Add of a cached link has read the clock. */
  lemma Twice() returns (states: seq<State>, steps: seq<Step>)
    ensures Run(states, steps)
    ensures states[|steps|] == One(Store({1}, {}, {1}, {}, {}, Inserting([1], 0, {}), 2, {}, {1}), {})
  {
    states, steps := Longer([Start], [], For(7));
    states, steps := Begun(states, steps, Fresh);
    states, steps := Put(states, steps, Fresh.(adding := Inserting([1], 0, {}), batches := 1), {});
    var st := states[|steps|].stores[0];
    assert st.data == {1} && st.dead == {} && st.index == {1} && st.inserted == {1};
    states, steps := Begun(states, steps, Store({1}, {}, {1}, {}, {}, Idle, 1, {}, {1}));
  }

  /** The entry expires meanwhile, and a handler has looked and found no live entry. */
  lemma SweptOnce() returns (states: seq<State>, steps: seq<Step>)
    ensures Run(states, steps)
    ensures states[|steps|] == One(Store({}, {}, {1}, {}, {1}, Inserting([1], 0, {}), 2, {}, {1}), {1})
  {
    states, steps := Twice();
    states, steps := Longer(states, steps, Pass(1));
    states, steps := Longer(states, steps, Expire(0, 1));
    states, steps := Longer(states, steps, Evict(0, 1));
    states, steps := Longer(states, steps, SweepLook(0, 1));
    var st, past := states[|steps|].stores[0], states[|steps|].past;
    assert past == {1} && st.data == {} && st.dead == {} && st.sweeping == {} && st.removing == {1};
  }

  /** Being unexpired is needed there: in this run the second Add puts the link back after
      the handler looked, and the handler then takes it from the index. The link is
      past its own expiry by then. */
  lemma ExpiredCanBeLost() returns (states: seq<State>, steps: seq<Step>)
    ensures Run(states, steps) && |states[|steps|].stores| == 1 && 1 in states[|steps|].past
    ensures 1 in states[|steps|].stores[0].data && 1 !in states[|steps|].stores[0].index
  {
    states, steps := SweptOnce();
    states, steps := Put(states, steps, Store({}, {}, {1}, {}, {1}, Inserting([1], 0, {}), 2, {}, {1}), {1});
    states, steps := Longer(states, steps, SweepRemove(0, 1));
  }
}
