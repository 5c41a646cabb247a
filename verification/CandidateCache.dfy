/** Building a reviewed candidate with a build cache: a hit stands for a rebuild. */
module CandidateCache {
  import opened Text
  import opened Octets

  /** The one replaced file of a reviewed package. */
  datatype OverlayFile = OverlayFile(path: nat, contentHash: nat)

  datatype Manifest = Manifest(
    candidate: nat, hotspot: nat, baselineHash: nat, candidateHash: nat, replacementPoint: nat, kind: nat,
    mountTarget: nat, file: OverlayFile, evidenceUri: nat, evidenceHash: nat, reviewer: nat)

  /** The durable job. */
  datatype Job = Job(
    candidate: nat, hotspot: nat, baselineHash: nat, candidateHash: nat, replacementPoint: nat, kind: nat,
    evidenceUri: nat, evidenceHash: nat, intakeHash: nat)

  datatype Recipe = Recipe(manifestHash: nat, intakeHash: nat, path: nat)

  /** The metadata that validation compares. */
  datatype Bound = Bound(
    sourceHash: nat, hotspot: nat, intakeHash: nat, evidenceUri: nat, evidenceHash: nat, replacementPoint: nat,
    mountTarget: nat, kind: nat, manifestHash: nat, file: OverlayFile, readOnly: bool, immutable: bool, cacheKey: nat)

  /** `chain` is the adapter provenance and `created` the moment of
      construction; validation compares neither, the cache compares both. */
  datatype Artifact = Artifact(
    id: nat, candidate: nat, overlay: bool, contentHash: nat, snapshot: nat, recipe: Recipe, bound: Bound,
    chain: nat, synthetic: bool, created: nat)

  /** Digests, name-based identities, and the written form of an artifact. */
  datatype Codec = Codec(
    sha: Bytes -> nat, manifestHash: Manifest -> nat, key: (nat, nat, Recipe) -> nat,
    snapshotFor: (nat, nat) -> nat, artifactFor: (nat, nat) -> nat,
    encode: Artifact -> Bytes, decode: Bytes -> Option<Artifact>)

  ghost predicate Sound(c: Codec) {
    && (forall a, b :: c.sha(a) == c.sha(b) ==> a == b)
    && (forall a, b :: c.manifestHash(a) == c.manifestHash(b) ==> a == b)
    && (forall s, t, a, b, x, y :: c.key(s, a, x) == c.key(t, b, y) ==> s == t && a == b && x == y)
    && forall a :: c.decode(c.encode(a)) == Some(a)
  }

  function RecipeFor(c: Codec, m: Manifest, intakeHash: nat): Recipe {
    Recipe(c.manifestHash(m), intakeHash, m.file.path)
  }

  function KeyFor(c: Codec, builder: nat, m: Manifest, intakeHash: nat): nat {
    c.key(m.candidateHash, builder, RecipeFor(c, m, intakeHash))
  }

  function BoundFor(c: Codec, builder: nat, m: Manifest, intakeHash: nat): Bound {
    Bound(m.candidateHash, m.hotspot, intakeHash, m.evidenceUri, m.evidenceHash, m.replacementPoint, m.mountTarget,
          m.kind, c.manifestHash(m), m.file, true, true, KeyFor(c, builder, m, intakeHash))
  }

  /** What a build without any cache publishes. */
  function Fresh(c: Codec, builder: nat, m: Manifest, intakeHash: nat, chain: nat, now: nat): Artifact {
    Artifact(c.artifactFor(m.candidate, m.file.contentHash), m.candidate, true, m.file.contentHash,
             c.snapshotFor(m.candidate, m.candidateHash), RecipeFor(c, m, intakeHash),
             BoundFor(c, builder, m, intakeHash), chain, false, now)
  }

  /** Equal identity, candidate, snapshot, recipe, bound metadata and content. */
  predicate SameBuild(a: Artifact, b: Artifact) {
    && a.id == b.id && a.candidate == b.candidate && a.overlay == b.overlay && a.contentHash == b.contentHash
    && a.snapshot == b.snapshot && a.recipe == b.recipe && a.bound == b.bound && a.synthetic == b.synthetic
  }

  /** Every field the job and the reviewed manifest share. */
  predicate Matches(m: Manifest, j: Job) {
    && m.candidate == j.candidate && m.hotspot == j.hotspot && m.baselineHash == j.baselineHash
    && m.candidateHash == j.candidateHash && m.replacementPoint == j.replacementPoint && m.kind == j.kind
    && m.evidenceUri == j.evidenceUri && m.evidenceHash == j.evidenceHash
  }

  /** A matching job is what the manifest says, with an intake of its own. */
  lemma MatchesIs(m: Manifest, j: Job)
    ensures Matches(m, j) <==>
              j == Job(m.candidate, m.hotspot, m.baselineHash, m.candidateHash, m.replacementPoint, m.kind,
                       m.evidenceUri, m.evidenceHash, j.intakeHash)
  {
  }

  /** What a build for a matching job publishes, in the job's terms. */
  lemma FreshIs(c: Codec, builder: nat, m: Manifest, j: Job, chain: nat, now: nat)
    requires Matches(m, j)
    ensures var a := Fresh(c, builder, m, j.intakeHash, chain, now);
            var recipe := Recipe(c.manifestHash(m), j.intakeHash, m.file.path);
            && a.id == c.artifactFor(j.candidate, m.file.contentHash) && a.candidate == j.candidate
            && a.contentHash == m.file.contentHash && a.snapshot == c.snapshotFor(j.candidate, j.candidateHash)
            && a.recipe == recipe && KeyFor(c, builder, m, j.intakeHash) == c.key(j.candidateHash, builder, recipe)
            && a.overlay && !a.synthetic && a.chain == chain && a.created == now
  {
  }

  predicate Loads(packages: map<nat, Manifest>, j: Job) {
    j.candidateHash in packages && Matches(packages[j.candidateHash], j)
  }

  datatype BuildError =
    | NotLoaded | WorktreeFailed | ContentMismatch | EntryUnreadable | ArtifactMissing | CacheCollision
    | IdentityMismatch

  /** The comparison made on every artifact, cached or not. The job's fields are
      compared with the artifact's metadata one by one. */
  predicate Validates(
    c: Codec, builder: nat, m: Manifest, j: Job, a: Artifact, artifacts: map<nat, Bytes>)
  {
    && a.candidate == j.candidate && a.snapshot == c.snapshotFor(j.candidate, j.candidateHash)
    && a.overlay && !a.synthetic
    && a.bound == Bound(j.candidateHash, j.hotspot, j.intakeHash, j.evidenceUri, j.evidenceHash, j.replacementPoint,
                        m.mountTarget, j.kind, c.manifestHash(m), m.file, true, true,
                        KeyFor(c, builder, m, j.intakeHash))
    && a.contentHash in artifacts && c.sha(artifacts[a.contentHash]) == a.contentHash
  }

  /** The bytes are the written form of a build whose key is `k`. */
  ghost predicate Entry(c: Codec, builder: nat, k: nat, bytes: Bytes, artifacts: map<nat, Bytes>) {
    exists m, h, chain, now ::
      && k == KeyFor(c, builder, m, h) && bytes == c.encode(Fresh(c, builder, m, h, chain, now))
      && m.file.contentHash in artifacts
  }

  lemma EntryMade(c: Codec, builder: nat, m: Manifest, h: nat, chain: nat, now: nat, artifacts: map<nat, Bytes>)
    requires m.file.contentHash in artifacts
    ensures Entry(c, builder, KeyFor(c, builder, m, h), c.encode(Fresh(c, builder, m, h, chain, now)), artifacts)
  {
  }

  lemma EntryStays(c: Codec, builder: nat, k: nat, bytes: Bytes, before: map<nat, Bytes>, after: map<nat, Bytes>)
    requires Entry(c, builder, k, bytes, before) && forall d | d in before :: d in after
    ensures Entry(c, builder, k, bytes, after)
  {
  }

  class Builder {
    const codec: Codec
    const builder: nat
    const packages: map<nat, Manifest>
    var artifacts: map<nat, Bytes>
    var cache: map<nat, Bytes>

    constructor (codec: Codec, builder: nat, packages: map<nat, Manifest>)
      ensures Valid() && cache == map[] && artifacts == map[]
      ensures this.codec == codec && this.builder == builder && this.packages == packages
    {
      this.codec, this.builder, this.packages := codec, builder, packages;
      artifacts, cache := map[], map[];
    }

    /** Entry `k` is what some manifest and intake with that key build. */
    ghost predicate EntryOk(k: nat)
      reads this
      requires k in cache
    {
      Entry(codec, builder, k, cache[k], artifacts)
    }

    ghost predicate Valid()
      reads this
    {
      && (forall d | d in artifacts :: codec.sha(artifacts[d]) == d)
      && forall k | k in cache :: EntryOk(k)
    }

    method Lookup(key: nat) returns (r: Result<Option<Artifact>, BuildError>)
      requires Valid() && Sound(codec)
      ensures r.Ok? && (key in cache <==> r.value.Some?)
      ensures key in cache ==> cache[key] == codec.encode(r.value.value)
    {
      if key !in cache { return Ok(None); }
      assert EntryOk(key);
      var parsed := codec.decode(cache[key]);
      if parsed.None? { return Err(EntryUnreadable); }
      if parsed.value.contentHash !in artifacts { return Err(ArtifactMissing); }
      return Ok(parsed);
    }

    method Record(key: nat, artifact: Artifact) returns (ok: bool)
      modifies this`cache
      ensures ok <==> (key in old(cache) ==> old(cache)[key] == codec.encode(artifact))
      ensures cache == if ok then old(cache)[key := codec.encode(artifact)] else old(cache)
    {
      var encoded := codec.encode(artifact);
      if key in cache {
        ok := cache[key] == encoded;
        assert ok ==> cache[key := encoded] == cache;
      } else {
        cache := cache[key := encoded];
        ok := true;
      }
    }

    /** One builder left alone. `ready`: the worktree was made, changed and
        finalized to the stated source hash; `content` is what the replaced file
        then holds; `now` is when the artifact is constructed. */
    method BuildCandidate(j: Job, ready: bool, content: Bytes, chain: nat, now: nat) returns (r: Result<Artifact, BuildError>)
      requires Valid() && Sound(codec)
      modifies this
      ensures Valid()
      ensures forall k | k in old(cache) :: k in cache && cache[k] == old(cache)[k]
      ensures forall d | d in old(artifacts) :: d in artifacts && artifacts[d] == old(artifacts)[d]
      ensures Loads(packages, j) ==>
                var m := packages[j.candidateHash];
                var key := KeyFor(codec, builder, m, j.intakeHash);
                && (r.Ok? <==> ready && (key in old(cache) || codec.sha(content) == m.file.contentHash))
                && (r.Ok? ==> SameBuild(r.value, Fresh(codec, builder, m, j.intakeHash, chain, now)))
                && (r.Ok? && key !in old(cache) ==> r.value == Fresh(codec, builder, m, j.intakeHash, chain, now))
                && (r.Ok? ==> key in cache && cache[key] == codec.encode(r.value)
                              && Validates(codec, builder, m, j, r.value, artifacts))
      ensures r.Err? ==> r.error == NotLoaded || r.error == WorktreeFailed || r.error == ContentMismatch
      ensures r == Err(NotLoaded) <==> !Loads(packages, j)
    {
      if !Loads(packages, j) { return Err(NotLoaded); }
      if !ready { return Err(WorktreeFailed); }
      var m := packages[j.candidateHash];
      var key := KeyFor(codec, builder, m, j.intakeHash);
      var found := Lookup(key);
      if found.Err? { return Err(ArtifactMissing); }
      var artifact: Artifact;
      if found.value.None? {
        if codec.sha(content) != m.file.contentHash { return Err(ContentMismatch); }
        var recorded;
        artifact, recorded := BuildAndRecord(m, j.intakeHash, content, chain, now, key);
        if !recorded { return Err(CacheCollision); }
      } else {
        artifact := found.value.value;
        assert EntryOk(key);
        EntryReads(codec, builder, m, j.intakeHash, cache[key], artifacts);
        assert codec.decode(cache[key]) == Some(artifact);
      }
      if !Validates(codec, builder, m, j, artifact, artifacts) { return Err(IdentityMismatch); }
      return Ok(artifact);
    }

    /** A miss: build, publish, and index the result. */
    method BuildAndRecord(m: Manifest, intakeHash: nat, content: Bytes, chain: nat, now: nat, key: nat)
      returns (a: Artifact, recorded: bool)
      requires Valid() && Sound(codec) && codec.sha(content) == m.file.contentHash
      requires key == KeyFor(codec, builder, m, intakeHash) && key !in cache
      modifies this
      ensures Valid() && recorded && a == Fresh(codec, builder, m, intakeHash, chain, now)
      ensures cache == old(cache)[key := codec.encode(a)] && m.file.contentHash in artifacts
      ensures forall d | d in old(artifacts) :: d in artifacts && artifacts[d] == old(artifacts)[d]
    {
      hide Entry, Fresh, Sound;
      a := Publish(m, intakeHash, content, chain, now);
      EntryMade(codec, builder, m, intakeHash, chain, now, artifacts);
      recorded := Record(key, a);
      forall k | k in cache ensures EntryOk(k) {
        if k in old(cache) {
          assert old(EntryOk(k));
          EntryStays(codec, builder, k, cache[k], old(artifacts), artifacts);
        }
      }
    }

    /** The built file, stored under its digest. */
    method Publish(m: Manifest, intakeHash: nat, content: Bytes, chain: nat, now: nat) returns (a: Artifact)
      requires Valid() && Sound(codec) && codec.sha(content) == m.file.contentHash
      modifies this`artifacts
      ensures a == Fresh(codec, builder, m, intakeHash, chain, now)
      ensures artifacts == old(artifacts)[m.file.contentHash := content]
      ensures forall d | d in old(artifacts) :: artifacts[d] == old(artifacts)[d]
      ensures forall d | d in artifacts :: codec.sha(artifacts[d]) == d
    {
      var digest := codec.sha(content);
      if digest !in artifacts { artifacts := artifacts[digest := content]; }
      assert codec.sha(artifacts[digest]) == codec.sha(content);
      assert artifacts == old(artifacts)[m.file.contentHash := content];
      a := Fresh(codec, builder, m, intakeHash, chain, now);
    }
  }

  /** A cache key fixes the reviewed manifest and the intake. */
  lemma SameKey(c: Codec, builder: nat, m: Manifest, h: nat, key: nat)
    requires Sound(c) && key == KeyFor(c, builder, m, h)
    ensures forall n, i | KeyFor(c, builder, n, i) == key :: n == m && i == h
  {
    forall n, i | KeyFor(c, builder, n, i) == key ensures n == m && i == h {
      assert RecipeFor(c, n, i) == RecipeFor(c, m, h);
    }
  }

  /** What is read back under the key of a request is a build of that request. */
  lemma EntryReads(c: Codec, builder: nat, m: Manifest, h: nat, bytes: Bytes, artifacts: map<nat, Bytes>)
    requires Sound(c) && Entry(c, builder, KeyFor(c, builder, m, h), bytes, artifacts)
    ensures m.file.contentHash in artifacts
    ensures c.decode(bytes).Some? && bytes == c.encode(c.decode(bytes).value)
    ensures var a := c.decode(bytes).value; a == Fresh(c, builder, m, h, a.chain, a.created)
  {
    SameKey(c, builder, m, h, KeyFor(c, builder, m, h));
  }

  /** Two jobs that would share a cache entry ask for the same candidate, with
      the same evidence, intake and replaced content. */
  lemma SharedEntrySameRequest(c: Codec, builder: nat, packages: map<nat, Manifest>, i: Job, j: Job)
    requires Sound(c) && Loads(packages, i) && Loads(packages, j)
    requires KeyFor(c, builder, packages[i.candidateHash], i.intakeHash)
          == KeyFor(c, builder, packages[j.candidateHash], j.intakeHash)
    ensures i == j
  {
    SameKey(c, builder, packages[i.candidateHash], i.intakeHash,
            KeyFor(c, builder, packages[i.candidateHash], i.intakeHash));
  }
}
