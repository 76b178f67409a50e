/** Blob claims and their releases, on values: what a commit does to them and what it
    keeps. */
module ClaimsSpec {

  type Space = nat
  type Digest = nat
  type Time = int

  /** A digest in a space. */
  datatype Loc = Loc(space: Space, digest: Digest)

  /** A claim's row: one version of one object naming one digest. */
  datatype ClaimKey = ClaimKey(digest: Digest, bucket: nat, object_: nat, version: nat)

  datatype Claim = Claim(key: ClaimKey, space: Space) {
    function At(): Loc { Loc(space, key.digest) }
  }

  datatype Release = Release(notBefore: Time, started: bool)

  /** The space each recorded claim belongs to. */
  type Refs = map<ClaimKey, Space>

  type Releases = map<Loc, Release>

  /** Some claim of the space names the digest. */
  predicate Claimed(refs: Refs, l: Loc) { exists k | k in refs :: k.digest == l.digest && refs[k] == l.space }

  /** No started release coexists with a claim. */
  predicate Safe(refs: Refs, rel: Releases) { forall l | l in rel && rel[l].started :: !Claimed(refs, l) }

  /** Every record is still there, as started as it was, and due no earlier; a new one
      is not started. */
  predicate Later(before: Releases, after: Releases) {
    && (forall l | l in before ::
          l in after && after[l].started == before[l].started && after[l].notBefore >= before[l].notBefore)
    && (forall l | l in after && l !in before :: !after[l].started)
  }

  // ---------------------------------------------------------------------------
  // The steps of a commit.

  predicate ClaimRefused(c: Claim, rel: Releases, located: set<Loc>) {
    (c.At() in rel && rel[c.At()].started) || c.At() !in located
  }

  predicate PinRefused(c: Claim, refs: Refs) { c.key !in refs && !Claimed(refs, c.At()) }

  function AddAll(refs: Refs, cs: seq<Claim>): Refs {
    if cs == [] then refs else AddAll(refs, cs[..|cs| - 1])[cs[|cs| - 1].key := cs[|cs| - 1].space]
  }

  /** `enqueueReleaseLocked`: the later due time wins, and a started record stays so. */
  function Enqueue(rel: Releases, l: Loc, due: Time): Releases {
    var at := if l in rel && rel[l].notBefore > due then rel[l].notBefore else due;
    rel[l := Release(at, l in rel && rel[l].started)]
  }

  function DropRef(refs: Refs, d: Claim): Refs { refs - {d.key} }

  function DropRelease(refs: Refs, rel: Releases, d: Claim, due: Time): Releases {
    if Claimed(DropRef(refs, d), d.At()) then rel else Enqueue(rel, d.At(), due)
  }

  function RefsAfter(refs: Refs, ds: seq<Claim>): Refs {
    if ds == [] then refs else DropRef(RefsAfter(refs, ds[..|ds| - 1]), ds[|ds| - 1])
  }

  function ReleasesAfter(refs: Refs, rel: Releases, ds: seq<Claim>, due: Time): Releases {
    if ds == [] then rel
    else
      var n := |ds| - 1;
      DropRelease(RefsAfter(refs, ds[..n]), ReleasesAfter(refs, rel, ds[..n], due), ds[n], due)
  }

  // ---------------------------------------------------------------------------
  // What they keep.

  lemma EnqueueLater(rel: Releases, l: Loc, due: Time)
    ensures Later(rel, Enqueue(rel, l, due)) && l in Enqueue(rel, l, due) && Enqueue(rel, l, due)[l].notBefore >= due
  {
  }

  lemma LaterTrans(a: Releases, b: Releases, c: Releases)
    requires Later(a, b) && Later(b, c)
    ensures Later(a, c)
  {
  }

  /** Claims that none of the checks refused name no digest a started release holds. */
  lemma {:induction false} AddedSafe(refs: Refs, rel: Releases, cs: seq<Claim>)
    requires Safe(refs, rel) && forall c | c in cs :: !(c.At() in rel && rel[c.At()].started)
    ensures Safe(AddAll(refs, cs), rel)
    decreases |cs|
  {
    if cs != [] {
      var n := |cs| - 1;
      AddedSafe(refs, rel, cs[..n]);
      assert cs[n] in cs;
    }
  }

  /** A pin that joins a claim names no digest a started release holds. */
  lemma PinJoins(refs: Refs, rel: Releases, c: Claim)
    requires Safe(refs, rel) && Claimed(refs, c.At())
    ensures !(c.At() in rel && rel[c.At()].started)
  {
  }

  lemma DropOne(refs: Refs, rel: Releases, d: Claim, due: Time)
    requires Safe(refs, rel)
    ensures var refs', rel' := DropRef(refs, d), DropRelease(refs, rel, d, due);
            && Safe(refs', rel') && Later(rel, rel')
            && (Claimed(refs', d.At()) || (d.At() in rel' && rel'[d.At()].notBefore >= due))
  {
    EnqueueLater(rel, d.At(), due);
  }

  /** A digest that loses its last claim to a drop is that drop's, and has a release. */
  lemma StillCovered(refs: Refs, rel: Releases, d: Claim, due: Time, l: Loc)
    requires Claimed(refs, l) || (l in rel && rel[l].notBefore >= due)
    requires d.key in refs ==> refs[d.key] == d.space
    ensures var refs', rel' := DropRef(refs, d), DropRelease(refs, rel, d, due);
            Claimed(refs', l) || (l in rel' && rel'[l].notBefore >= due)
  {
    EnqueueLater(rel, d.At(), due);
    if k :| k in refs && k.digest == l.digest && refs[k] == l.space {
      if k != d.key {
        assert k in DropRef(refs, d);
      }
    }
  }

  /** Rows and drops name the space their bucket belongs to. */
  predicate Owned(refs: Refs, owner: nat -> Space) { forall k | k in refs :: refs[k] == owner(k.bucket) }

  predicate AllOwned(cs: seq<Claim>, owner: nat -> Space) { forall c | c in cs :: c.space == owner(c.key.bucket) }

  lemma {:induction false} AddedOwned(refs: Refs, cs: seq<Claim>, owner: nat -> Space)
    requires Owned(refs, owner) && AllOwned(cs, owner)
    ensures Owned(AddAll(refs, cs), owner)
    decreases |cs|
  {
    if cs != [] {
      var n := |cs| - 1;
      AddedOwned(refs, cs[..n], owner);
      assert cs[n] in cs;
    }
  }

  /** After a commit's drops, every dropped digest is still claimed, or its release is
      recorded and not due before the grace ends; no record was lost, moved earlier
      or started, and no started release has a claim. */
  lemma {:induction false} DropsCovered(refs: Refs, rel: Releases, ds: seq<Claim>, due: Time, owner: nat -> Space)
    requires Safe(refs, rel) && Owned(refs, owner) && AllOwned(ds, owner)
    ensures var refs', rel' := RefsAfter(refs, ds), ReleasesAfter(refs, rel, ds, due);
            && Safe(refs', rel') && Later(rel, rel') && Owned(refs', owner)
            && forall d | d in ds :: Claimed(refs', d.At()) || (d.At() in rel' && rel'[d.At()].notBefore >= due)
    decreases |ds|
  {
    if ds != [] {
      var n := |ds| - 1;
      DropsCovered(refs, rel, ds[..n], due, owner);
      var r, q := RefsAfter(refs, ds[..n]), ReleasesAfter(refs, rel, ds[..n], due);
      DropOne(r, q, ds[n], due);
      LaterTrans(rel, q, DropRelease(r, q, ds[n], due));
      assert ds[n] in ds;
      forall d | d in ds ensures var t := DropRelease(r, q, ds[n], due);
        Claimed(DropRef(r, ds[n]), d.At()) || (d.At() in t && t[d.At()].notBefore >= due)
      {
        assert d == ds[n] || d in ds[..n];
        if d in ds[..n] {
          StillCovered(r, q, ds[n], due, d.At());
        }
      }
    }
  }
}
