/** Blob claims against releases: the in-memory registry's commit, its release record,
    and multipart part replacement. */
module Claims {
  import opened ClaimsSpec

  datatype Commit = Commit(claims: seq<Claim>, pins: seq<Claim>, drops: seq<Claim>)

  datatype Outcome = Done | NotFound | Conflict | ReleaseInProgress | ClaimGone

  datatype Start = Started | Cancelled | InUse | StillClaimed

  datatype Cancel = NoRelease | InProgress | CancelledByWrite

  datatype SessionState = Open | Completing | Aborting | Completed

  datatype Session = Session(space: Space, state: SessionState) {
    /** The session's parts still count. */
    predicate Live() { state == Open || state == Completing }
  }

  /** A call of the store. */
  datatype Call =
    | CreateBucketCall(name: nat) | DeleteBucketCall(name: nat) | EmptyRootCall(name: nat, expected: nat)
    | CommitCall(name: nat, expected: nat, next: nat, commit: Commit, due: Time)
    | EnqueueCall(at: Loc, due: Time) | StartCall(at: Loc) | CancelCall(at: Loc) | DeleteCall(at: Loc)
    | LocationCall(at: Loc, there: bool)
    | CreateSessionCall(upload: nat, space: Space) | LatchCall(upload: nat, from: SessionState, to: SessionState)
    | DeleteSessionCall(upload: nat)
    | PutPartCall(upload: nat, number: nat, digests: seq<Digest>, now: Time)

  /** The claims of a space on a digest. */
  function ClaimsOn(refs: Refs, keys: set<ClaimKey>, l: Loc): set<ClaimKey> {
    set k | k in keys && k in refs && k.digest == l.digest && refs[k] == l.space
  }

  class MemStore {
    const owner: nat -> Space        // the space each bucket was made in
    var roots: map<nat, nat>
    var refs: Refs
    var releases: Releases
    var located: set<Loc>
    var sessions: map<nat, Session>
    var parts: map<nat, map<nat, seq<Digest>>>

    /** No started release coexists with a claim. */
    ghost predicate Valid()
      reads this
    {
      Safe(refs, releases) && Owned(refs, owner)
    }

    constructor (owner: nat -> Space)
      ensures Valid() && roots == map[] && refs == map[] && releases == map[] && this.owner == owner
    {
      this.owner := owner;
      roots, refs, releases, located, sessions, parts := map[], map[], map[], {}, map[], map[];
    }

    // The tables that claims and releases are checked against.

    /** `Create`: a bucket begins with no root. */
    method CreateBucket(name: nat) returns (ok: bool)
      requires Valid()
      modifies this`roots
      ensures Valid() && (ok <==> name !in old(roots))
      ensures roots == if ok then old(roots)[name := 0] else old(roots)
    {
      ok := name !in roots;
      if ok {
        roots := roots[name := 0];
      }
    }

    /** `Delete`. The bucket's claims stay. */
    method DeleteBucket(name: nat) returns (ok: bool)
      requires Valid()
      modifies this`roots
      ensures Valid() && (ok <==> name in old(roots)) && roots == old(roots) - {name}
    {
      ok := name in roots;
      roots := roots - {name};
    }

    /** `EmptyRoot`. */
    method EmptyRoot(name: nat, expected: nat) returns (r: Outcome)
      requires Valid()
      modifies this`roots
      ensures Valid() && (r == Done <==> name in old(roots) && old(roots)[name] == expected)
      ensures r == NotFound <==> name !in old(roots)
      ensures roots == if r == Done then old(roots)[name := 0] else old(roots)
    {
      if name !in roots {
        return NotFound;
      }
      if roots[name] != expected {
        return Conflict;
      }
      roots := roots[name := 0];
      r := Done;
    }

    /** `PutLocation` and `DeleteLocation`. */
    method SetLocation(l: Loc, there: bool)
      requires Valid()
      modifies this`located
      ensures Valid() && located == if there then old(located) + {l} else old(located) - {l}
    {
      located := if there then located + {l} else located - {l};
    }

    /** `CreateSession`. */
    method CreateSession(upload: nat, space: Space) returns (ok: bool)
      requires Valid()
      modifies this`sessions
      ensures Valid() && (ok <==> upload !in old(sessions))
      ensures sessions == if ok then old(sessions)[upload := Session(space, Open)] else old(sessions)
    {
      ok := upload !in sessions;
      if ok {
        sessions := sessions[upload := Session(space, Open)];
      }
    }

    /** `LatchSession`; `CompleteSession` is the latch from completing to completed. Of
        two calls that latch from the same state to others, the second fails. */
    method LatchSession(upload: nat, from: SessionState, to: SessionState) returns (ok: bool)
      requires Valid()
      modifies this`sessions
      ensures Valid() && (ok <==> upload in old(sessions) && old(sessions)[upload].state == from)
      ensures sessions == if ok then old(sessions)[upload := old(sessions)[upload].(state := to)] else old(sessions)
    {
      ok := upload in sessions && sessions[upload].state == from;
      if ok {
        sessions := sessions[upload := sessions[upload].(state := to)];
      }
    }

    /** `DeleteSession`: its parts go with it. */
    method DeleteSession(upload: nat)
      requires Valid()
      modifies this`sessions, this`parts
      ensures Valid() && sessions == old(sessions) - {upload} && parts == old(parts) - {upload}
    {
      sessions, parts := sessions - {upload}, parts - {upload};
    }

    // Claims.

    /** `countClaimsLocked`. */
    method CountClaims(l: Loc) returns (n: nat)
      ensures n == |ClaimsOn(refs, refs.Keys, l)|
      ensures n > 0 <==> Claimed(refs, l)
    {
      n := 0;
      var todo := refs.Keys;
      while todo != {}
        invariant todo <= refs.Keys && n == |ClaimsOn(refs, refs.Keys - todo, l)|
      {
        var k :| k in todo;
        var before := ClaimsOn(refs, refs.Keys - todo, l);
        todo := todo - {k};
        var counts := k.digest == l.digest && refs[k] == l.space;
        assert ClaimsOn(refs, refs.Keys - todo, l) == if counts then before + {k} else before;
        if counts {
          n := n + 1;
        }
      }
      assert refs.Keys - todo == refs.Keys;
      assert Claimed(refs, l) <==> ClaimsOn(refs, refs.Keys, l) != {} by {
        if k :| k in refs && k.digest == l.digest && refs[k] == l.space {
          assert k in ClaimsOn(refs, refs.Keys, l);
        }
        if k :| k in ClaimsOn(refs, refs.Keys, l) {
          assert k in refs;
        }
      }
    }

    /** The checks a commit makes before it writes anything. */
    method Check(c: Commit) returns (r: Outcome)
      ensures r == Done || r == ReleaseInProgress || r == ClaimGone
      ensures r == ReleaseInProgress <==> exists x | x in c.claims :: ClaimRefused(x, releases, located)
      ensures r == Done ==> forall x | x in c.pins :: !PinRefused(x, refs)
      ensures r == ClaimGone ==> exists x | x in c.pins :: PinRefused(x, refs)
    {
      for i := 0 to |c.claims|
        invariant forall j | 0 <= j < i :: !ClaimRefused(c.claims[j], releases, located)
      {
        if ClaimRefused(c.claims[i], releases, located) {
          return ReleaseInProgress;
        }
      }
      for i := 0 to |c.pins|
        invariant forall j | 0 <= j < i :: !PinRefused(c.pins[j], refs)
      {
        if c.pins[i].key !in refs {
          var n := CountClaims(c.pins[i].At());
          if n == 0 {
            assert PinRefused(c.pins[i], refs);
            return ClaimGone;
          }
        }
      }
      r := Done;
    }

    method Add(cs: seq<Claim>)
      modifies this`refs
      ensures refs == AddAll(old(refs), cs)
    {
      for i := 0 to |cs|
        invariant refs == AddAll(old(refs), cs[..i])
      {
        assert cs[..i + 1][..i] == cs[..i];
        refs := refs[cs[i].key := cs[i].space];
      }
      assert cs[..|cs|] == cs;
    }

    method Drop(ds: seq<Claim>, due: Time)
      modifies this`refs, this`releases
      ensures refs == RefsAfter(old(refs), ds) && releases == ReleasesAfter(old(refs), old(releases), ds, due)
    {
      for i := 0 to |ds|
        invariant refs == RefsAfter(old(refs), ds[..i])
        invariant releases == ReleasesAfter(old(refs), old(releases), ds[..i], due)
      {
        assert ds[..i + 1][..i] == ds[..i];
        refs := refs - {ds[i].key};
        var n := CountClaims(ds[i].At());
        if n == 0 {
          releases := Enqueue(releases, ds[i].At(), due);
        }
      }
      assert ds[..|ds|] == ds;
    }

    /** `CommitRoot`: a refused commit changes nothing; one that goes through swaps the
        root, adds its claims and pins, and leaves every digest it dropped claimed or
        with a release due no earlier than the grace and no earlier than before. */
    method CommitRoot(name: nat, expected: nat, next: nat, c: Commit, due: Time) returns (r: Outcome)
      requires Valid() && AllOwned(c.claims, owner) && AllOwned(c.pins, owner) && AllOwned(c.drops, owner)
      modifies this`roots, this`refs, this`releases
      ensures Valid()
      ensures r == Done <==>
        && name in old(roots) && old(roots)[name] == expected
        && (forall x | x in c.claims :: !ClaimRefused(x, old(releases), located))
        && (forall x | x in c.pins :: !PinRefused(x, old(refs)))
      ensures r == NotFound <==> name !in old(roots)
      ensures r == Conflict <==> name in old(roots) && old(roots)[name] != expected
      ensures r == ReleaseInProgress <==>
        && name in old(roots) && old(roots)[name] == expected
        && exists x | x in c.claims :: ClaimRefused(x, old(releases), located)
      ensures r != Done ==> roots == old(roots) && refs == old(refs) && releases == old(releases)
      ensures r == Done ==> roots == old(roots)[name := next]
      ensures r == Done ==> refs == RefsAfter(AddAll(AddAll(old(refs), c.claims), c.pins), c.drops)
      ensures r == Done ==>
        releases == ReleasesAfter(AddAll(AddAll(old(refs), c.claims), c.pins), old(releases), c.drops, due)
      ensures Later(old(releases), releases)
      ensures r == Done ==> forall d | d in c.drops ::
        Claimed(refs, d.At()) || (d.At() in releases && releases[d.At()].notBefore >= due)
    {
      if name !in roots {
        return NotFound;
      }
      if roots[name] != expected {
        return Conflict;
      }
      r := Check(c);
      if r != Done {
        return;
      }
      ChecksMean(refs, releases, located, c.claims, c.pins, owner);
      ghost var refs1 := AddAll(refs, c.claims);
      AddedSafe(refs, releases, c.claims);
      AddedOwned(refs, c.claims, owner);
      AddedSafe(refs1, releases, c.pins);
      AddedOwned(refs1, c.pins, owner);
      DropsCovered(AddAll(refs1, c.pins), releases, c.drops, due, owner);
      roots := roots[name := next];
      Add(c.claims);
      Add(c.pins);
      Drop(c.drops, due);
    }

    /** `EnqueueRelease`. */
    method EnqueueRelease(l: Loc, due: Time)
      requires Valid()
      modifies this`releases
      ensures Valid() && Later(old(releases), releases) && l in releases && releases[l].notBefore >= due
      ensures releases == Enqueue(old(releases), l, due)
    {
      EnqueueLater(releases, l, due);
      releases := Enqueue(releases, l, due);
    }

    /** Upload `u` is live, of the space, and has a part that names the digest. */
    ghost predicate NamedIn(u: nat, l: Loc)
      reads this`sessions, this`parts
    {
      && u in parts && u in sessions && sessions[u].Live() && sessions[u].space == l.space
      && exists n | n in parts[u] :: l.digest in parts[u][n]
    }

    ghost predicate Referenced(l: Loc)
      reads this`sessions, this`parts
    {
      exists u :: NamedIn(u, l)
    }

    /** `countLivePartRefsLocked`. */
    method CountLivePartRefs(l: Loc) returns (n: nat)
      ensures n > 0 <==> Referenced(l)
    {
      n := 0;
      var todo := parts.Keys;
      while todo != {}
        invariant todo <= parts.Keys
        invariant n > 0 <==> exists u | u !in todo :: NamedIn(u, l)
      {
        var u :| u in todo;
        if u in sessions && sessions[u].Live() && sessions[u].space == l.space {
          var naming := set k | k in parts[u] && l.digest in parts[u][k];
          assert naming != {} <==> NamedIn(u, l) by {
            if k :| k in naming {
              assert NamedIn(u, l);
            }
            if k :| k in parts[u] && l.digest in parts[u][k] {
              assert k in naming;
            }
          }
          assert |naming| > 0 <==> naming != {};
          n := n + |naming|;
        } else {
          assert !NamedIn(u, l);
        }
        todo := todo - {u};
      }
    }

    /** `StartRelease`: it starts only a recorded release of a digest that no claim and
        no live part names; a claimed one's record is stale and goes. */
    method StartRelease(l: Loc) returns (r: Start)
      requires Valid()
      modifies this`releases
      ensures Valid()
      ensures r == Started <==>
        l in old(releases) && (old(releases)[l].started || (!Referenced(l) && !Claimed(refs, l)))
      ensures r == Started ==> releases == old(releases)[l := old(releases)[l].(started := true)] && !Claimed(refs, l)
      ensures r == StillClaimed ==> releases == old(releases) - {l} && Claimed(refs, l)
      ensures r == InUse || r == Cancelled ==> releases == old(releases)
      ensures r == Cancelled <==> l !in old(releases)
    {
      if l !in releases {
        return Cancelled;
      }
      if releases[l].started {
        return Started;
      }
      var p := CountLivePartRefs(l);
      if p > 0 {
        return InUse;
      }
      var n := CountClaims(l);
      if n > 0 {
        releases := releases - {l};
        return StillClaimed;
      }
      releases := releases[l := releases[l].(started := true)];
      r := Started;
    }

    /** `CancelRelease`: a started release is never cancelled. */
    method CancelRelease(l: Loc) returns (r: Cancel)
      requires Valid()
      modifies this`releases
      ensures Valid()
      ensures r == CancelledByWrite <==> l in old(releases) && !old(releases)[l].started
      ensures r == CancelledByWrite ==> releases == old(releases) - {l}
      ensures r != CancelledByWrite ==> releases == old(releases)
      ensures r == InProgress <==> l in old(releases) && old(releases)[l].started
    {
      if l !in releases {
        return NoRelease;
      }
      if releases[l].started {
        return InProgress;
      }
      releases := releases - {l};
      r := CancelledByWrite;
    }

    /** `DeleteIntentAndRelease`, for the release record. */
    method DeleteRelease(l: Loc)
      requires Valid()
      modifies this`releases
      ensures Valid() && releases == old(releases) - {l}
    {
      releases := releases - {l};
    }

    /** `PutPart`: the replaced part's digests that the new one does not name get a
        release, due now. */
    method PutPart(upload: nat, number: nat, digests: seq<Digest>, now: Time) returns (ok: bool, released: seq<Digest>)
      requires Valid()
      modifies this`parts, this`releases
      ensures Valid() && Later(old(releases), releases)
      ensures ok <==> upload in sessions && sessions[upload].state == Open
      ensures !ok ==> parts == old(parts) && releases == old(releases)
      ensures ok ==> parts == PartPut(old(parts), upload, number, digests)
      ensures ok ==> forall d :: d in released <==>
        upload in old(parts) && number in old(parts)[upload] && d in old(parts)[upload][number] && d !in digests
      ensures ok ==> forall d | d in released ::
        Loc(sessions[upload].space, d) in releases && releases[Loc(sessions[upload].space, d)].notBefore >= now
      ensures ok ==> releases == EnqueueAll(old(releases), sessions[upload].space, released, now)
      ensures ok ==> forall i, j | 0 <= i < j < |released| :: released[i] != released[j]
    {
      released := [];
      if upload !in sessions || sessions[upload].state != Open {
        return false, [];
      }
      var mine: map<nat, seq<Digest>> := if upload in parts then parts[upload] else map[];
      if number in mine {
        released := ReleaseReplaced(sessions[upload].space, mine[number], digests, now);
      }
      parts := parts[upload := mine[number := digests]];
      ok := true;
    }

    method ReleaseReplaced(space: Space, was: seq<Digest>, digests: seq<Digest>, now: Time)
      returns (released: seq<Digest>)
      requires Valid()
      modifies this`releases
      ensures Valid() && Later(old(releases), releases)
      ensures forall d :: d in released <==> d in was && d !in digests
      ensures forall d | d in released :: Loc(space, d) in releases && releases[Loc(space, d)].notBefore >= now
      ensures releases == EnqueueAll(old(releases), space, released, now)
      ensures forall i, j | 0 <= i < j < |released| :: released[i] != released[j]
    {
      released := [];
      for i := 0 to |was|
        invariant Valid() && Later(old(releases), releases)
        invariant releases == EnqueueAll(old(releases), space, released, now)
        invariant forall d :: d in released <==> d in was[..i] && d !in digests
        invariant forall d | d in released :: Loc(space, d) in releases && releases[Loc(space, d)].notBefore >= now
        invariant forall a, b | 0 <= a < b < |released| :: released[a] != released[b]
      {
        assert was[..i + 1] == was[..i] + [was[i]];
        if was[i] !in digests && was[i] !in released {
          EnqueueLater(releases, Loc(space, was[i]), now);
          LaterTrans(old(releases), releases, Enqueue(releases, Loc(space, was[i]), now));
          releases := Enqueue(releases, Loc(space, was[i]), now);
          assert (released + [was[i]])[..|released|] == released;
          released := released + [was[i]];
        }
      }
      assert was[..|was|] == was;
    }

    /** Any call. */
    method Perform(call: Call)
      requires Valid() && CallOwned(call, owner)
      modifies this
      ensures Valid()
    {
      match call {
        case CreateBucketCall(name) => var ok := CreateBucket(name);
        case DeleteBucketCall(name) => var ok := DeleteBucket(name);
        case EmptyRootCall(name, expected) => var r := EmptyRoot(name, expected);
        case CommitCall(name, expected, next, c, due) => var r := CommitRoot(name, expected, next, c, due);
        case EnqueueCall(l, due) => EnqueueRelease(l, due);
        case StartCall(l) => var r := StartRelease(l);
        case CancelCall(l) => var r := CancelRelease(l);
        case DeleteCall(l) => DeleteRelease(l);
        case LocationCall(l, there) => SetLocation(l, there);
        case CreateSessionCall(upload, space) => var ok := CreateSession(upload, space);
        case LatchCall(upload, from, to) => var ok := LatchSession(upload, from, to);
        case DeleteSessionCall(upload) => DeleteSession(upload);
        case PutPartCall(upload, number, digests, now) => var ok, released := PutPart(upload, number, digests, now);
      }
    }
  }

  /** A commit's claims name the space their bucket belongs to. */
  predicate CallOwned(call: Call, owner: nat -> Space) {
    call.CommitCall? ==>
      AllOwned(call.commit.claims, owner) && AllOwned(call.commit.pins, owner) && AllOwned(call.commit.drops, owner)
  }

  /** Over every run of calls from an empty store, no started release coexists with a
      claim on its blob. */
  method Replay(owner: nat -> Space, calls: seq<Call>) returns (m: MemStore)
    requires forall c | c in calls :: CallOwned(c, owner)
    ensures fresh(m) && m.Valid() && m.owner == owner
    ensures forall l | l in m.releases && m.releases[l].started :: !Claimed(m.refs, l)
  {
    m := new MemStore(owner);
    for i := 0 to |calls|
      invariant fresh(m) && m.Valid() && m.owner == owner
    {
      m.Perform(calls[i]);
    }
  }

  /** A part's row replaced or put in. */
  function PartPut(parts: map<nat, map<nat, seq<Digest>>>, upload: nat, number: nat, digests: seq<Digest>)
    : map<nat, map<nat, seq<Digest>>>
  {
    var mine: map<nat, seq<Digest>> := if upload in parts then parts[upload] else map[];
    parts[upload := mine[number := digests]]
  }

  function EnqueueAll(rel: Releases, space: Space, ds: seq<Digest>, due: Time): Releases {
    if ds == [] then rel else Enqueue(EnqueueAll(rel, space, ds[..|ds| - 1], due), Loc(space, ds[|ds| - 1]), due)
  }

  /** What passing the checks says of the digests a commit claims. */
  lemma ChecksMean(refs: Refs, rel: Releases, located: set<Loc>, claims: seq<Claim>, pins: seq<Claim>,
                   owner: nat -> Space)
    requires Safe(refs, rel) && Owned(refs, owner) && AllOwned(pins, owner)
    requires forall x | x in claims :: !ClaimRefused(x, rel, located)
    requires forall x | x in pins :: !PinRefused(x, refs)
    ensures forall c | c in claims :: !(c.At() in rel && rel[c.At()].started)
    ensures forall c | c in pins :: !(c.At() in rel && rel[c.At()].started)
  {
    forall c | c in pins ensures !(c.At() in rel && rel[c.At()].started) {
      assert c.key in refs ==> Claimed(refs, c.At());
      PinJoins(refs, rel, c);
    }
  }
}
