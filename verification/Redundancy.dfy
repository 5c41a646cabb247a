/** A dropped duplicate loses nothing: the retained patch makes the same change. */
module Redundancy {
  import opened Text
  import opened Applier
  import opened PatchIdentity
  import opened Dedupe
  import Disposition

  /** LF lines, both file headers before the first hunk, and no hunk header
      whose trailing blanks start with a tab. */
  ghost predicate WellMade(patch: string) {
    && LfTerminated(patch) && CrFree(patch)
    && (forall l | l in Lines(patch) :: !TabbedHeader(l))
    && exists n: nat :: HeadersFirst(Lines(patch), n)
  }

  /** Wherever both patches apply, the results pair up line by line, equal but
      for trailing blanks on inserted lines. */
  ghost predicate SameChange(p: string, q: string) {
    forall baseline, pathP, pathQ |
      LfTerminated(baseline) && Outcome(baseline, p, pathP).Some? && Outcome(baseline, q, pathQ).Some? ::
      AlikeLines(Lines(Outcome(baseline, p, pathP).value), Lines(Outcome(baseline, q, pathQ).value))
  }

  lemma SameIdentitySameChange(p: string, q: string)
    requires WellMade(p) && WellMade(q) && Normalize(p) == Normalize(q)
    ensures SameChange(p, q)
  {
    hide Outcome, Lines, Normalize, AlikeLines, HeadersFirst, TabbedHeader, LfTerminated, CrFree;
    var m: nat :| HeadersFirst(Lines(p), m);
    var n: nat :| HeadersFirst(Lines(q), n);
    forall baseline, pathP, pathQ |
      LfTerminated(baseline) && Outcome(baseline, p, pathP).Some? && Outcome(baseline, q, pathQ).Some?
      ensures AlikeLines(Lines(Outcome(baseline, p, pathP).value), Lines(Outcome(baseline, q, pathQ).value))
    {
      DedupeSoundLines(baseline, p, pathP, Outcome(baseline, p, pathP).value,
                       q, pathQ, Outcome(baseline, q, pathQ).value, m, n);
    }
  }

  /** The normalized hash of every proposal is the digest of its patch's identity. */
  predicate Hashed(rs: seq<Disposition.Ref>, patches: map<nat, string>, digest: string -> nat) {
    forall r | r in rs :: r.id in patches && r.normalized == digest(Normalize(patches[r.id]))
  }

  /** With a collision-free digest, every proposal marked as a duplicate points
      at a retained proposal whose patch makes the same change. */
  lemma DuplicatesAreRedundant(rs: seq<Disposition.Ref>, patches: map<nat, string>, digest: string -> nat,
                               r: Disposition.Ref)
    requires Disposition.DistinctIds(rs) && Hashed(rs, patches, digest)
    requires forall a, b :: digest(a) == digest(b) ==> a == b
    requires forall id | id in patches :: WellMade(patches[id])
    requires r in Disposition.Finalize(rs) && r.verdict == Disposition.Duplicate
    ensures r.id in patches && r.duplicateOf.Some? && r.duplicateOf.value in patches
    ensures exists x :: Disposition.KeptFor(x, Disposition.Finalize(rs), r.normalized) && x.id == r.duplicateOf.value
    ensures SameChange(patches[r.id], patches[r.duplicateOf.value])
  {
    hide *;
    Disposition.DuplicateSource(rs, r);
    var p, l :| Disposition.SettledBy(rs, r, p, l);
    Settling(rs, r, p, l);
    HashedAt(rs, patches, digest, p);
    HashedAt(rs, patches, digest, l);
    assert Disposition.Keep(l).id == l.id by { Kept(l); }
    SameIdentitySameChange(patches[r.id], patches[l.id]);
  }

  lemma Settling(rs: seq<Disposition.Ref>, r: Disposition.Ref, p: Disposition.Ref, l: Disposition.Ref)
    requires Disposition.SettledBy(rs, r, p, l)
    ensures p in rs && p.id == r.id && p.normalized == r.normalized
    ensures l in rs && l.normalized == r.normalized && r.duplicateOf == Some(l.id)
    ensures Disposition.KeptFor(Disposition.Keep(l), Disposition.Finalize(rs), r.normalized)
  {
    hide Disposition.Finalize, Disposition.KeptFor, Disposition.Keep;
  }

  lemma HashedAt(rs: seq<Disposition.Ref>, patches: map<nat, string>, digest: string -> nat, r: Disposition.Ref)
    requires Hashed(rs, patches, digest) && r in rs
    ensures r.id in patches && r.normalized == digest(Normalize(patches[r.id]))
  {
    hide Normalize;
  }

  lemma Kept(l: Disposition.Ref)
    ensures Disposition.Keep(l).id == l.id
  {
  }
}
