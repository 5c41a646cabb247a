/** Several builders share one cache and one artifact store: look up, construct
    and publish, record, validate, with other builders' steps in between. */
module BuildRace {
  import opened Text
  import opened Octets
  import opened CandidateCache

  /** What every builder of one deployment has in common. */
  datatype Site = Site(codec: Codec, builder: nat, packages: map<nat, Manifest>)

  /** `ready` and `content` as in a build without interference. */
  datatype Task = Task(job: Job, ready: bool, content: Bytes, chain: nat)

  datatype Phase =
    | Waiting | Missed | Built(artifact: Artifact) | Held(artifact: Artifact) | Done(artifact: Artifact)
    | Failed(error: BuildError)

  datatype Build = Build(task: Task, phase: Phase)

  datatype State = State(artifacts: map<nat, Bytes>, cache: map<nat, Bytes>, builds: seq<Build>)

  /** A builder that crashes takes no further step. */
  datatype Step =
    | Begin(task: Task)
    | Look(build: nat)
    | Construct(build: nat, now: nat)
    | Record(build: nat)
    | Validate(build: nat)

  predicate Loaded(x: Site, t: Task) { Loads(x.packages, t.job) }

  function Package(x: Site, t: Task): Manifest
    requires Loaded(x, t)
  {
    x.packages[t.job.candidateHash]
  }

  function Key(x: Site, t: Task): nat
    requires Loaded(x, t)
  {
    KeyFor(x.codec, x.builder, Package(x, t), t.job.intakeHash)
  }

  function Made(x: Site, t: Task, chain: nat, now: nat): Artifact
    requires Loaded(x, t)
  {
    Fresh(x.codec, x.builder, Package(x, t), t.job.intakeHash, chain, now)
  }

  predicate At(s: State, i: nat) { i < |s.builds| }

  function SetPhase(s: State, i: nat, p: Phase): State
    requires At(s, i)
  {
    s.(builds := s.builds[i := s.builds[i].(phase := p)])
  }

  function Looked(x: Site, s: State, t: Task): Phase {
    if !Loaded(x, t) then Failed(NotLoaded)
    else if !t.ready then Failed(WorktreeFailed)
    else if Key(x, t) !in s.cache then Missed
    else
      var parsed := x.codec.decode(s.cache[Key(x, t)]);
      if parsed.None? then Failed(EntryUnreadable)
      else if parsed.value.contentHash !in s.artifacts then Failed(ArtifactMissing)
      else Held(parsed.value)
  }

  function LookStep(x: Site, s: State, i: nat): State {
    if At(s, i) && s.builds[i].phase == Waiting then SetPhase(s, i, Looked(x, s, s.builds[i].task)) else s
  }

  /** The overlay is built, checked, given its manifest and published. */
  function ConstructStep(x: Site, s: State, i: nat, now: nat): State {
    if !At(s, i) || s.builds[i].phase != Missed || !Loaded(x, s.builds[i].task) then s
    else
      var t := s.builds[i].task;
      var digest := x.codec.sha(t.content);
      if digest != Package(x, t).file.contentHash then SetPhase(s, i, Failed(ContentMismatch))
      else
        var artifacts := if digest in s.artifacts then s.artifacts else s.artifacts[digest := t.content];
        SetPhase(s.(artifacts := artifacts), i, Built(Made(x, t, t.chain, now)))
  }

  /** The link, or the comparison with what is there: one of them takes effect. */
  function RecordStep(x: Site, s: State, i: nat): State {
    if !At(s, i) || !s.builds[i].phase.Built? || !Loaded(x, s.builds[i].task) then s
    else
      var k, a := Key(x, s.builds[i].task), s.builds[i].phase.artifact;
      if k !in s.cache then SetPhase(s.(cache := s.cache[k := x.codec.encode(a)]), i, Held(a))
      else SetPhase(s, i, if s.cache[k] == x.codec.encode(a) then Held(a) else Failed(CacheCollision))
  }

  function ValidateStep(x: Site, s: State, i: nat): State {
    if !At(s, i) || !s.builds[i].phase.Held? || !Loaded(x, s.builds[i].task) then s
    else
      var t, a := s.builds[i].task, s.builds[i].phase.artifact;
      SetPhase(s, i, if Validates(x.codec, x.builder, Package(x, t), t.job, a, s.artifacts) then Done(a)
                     else Failed(IdentityMismatch))
  }

  function Apply(x: Site, s: State, step: Step): State {
    match step
    case Begin(t) => s.(builds := s.builds + [Build(t, Waiting)])
    case Look(i) => LookStep(x, s, i)
    case Construct(i, now) => ConstructStep(x, s, i, now)
    case Record(i) => RecordStep(x, s, i)
    case Validate(i) => ValidateStep(x, s, i)
  }

  function After(x: Site, steps: seq<Step>): State {
    if steps == [] then State(map[], map[], []) else Apply(x, After(x, steps[..|steps| - 1]), steps[|steps| - 1])
  }

  // ---------- The invariant

  /** A build of this very task, whoever constructed it and when. */
  predicate BuildOf(x: Site, t: Task, a: Artifact)
    requires Loaded(x, t)
  {
    a == Made(x, t, a.chain, a.created)
  }

  ghost predicate BuildOk(x: Site, artifacts: map<nat, Bytes>, cache: map<nat, Bytes>, b: Build) {
    var t := b.task;
    match b.phase
    case Waiting => true
    case Missed => Loaded(x, t) && t.ready
    case Built(a) =>
      && Loaded(x, t) && t.ready && BuildOf(x, t, a) && a.chain == t.chain && a.contentHash in artifacts
    case Held(a) => Loaded(x, t) && t.ready && BuildOf(x, t, a) && Indexed(x, artifacts, cache, t, a)
    case Done(a) => Loaded(x, t) && t.ready && BuildOf(x, t, a) && Indexed(x, artifacts, cache, t, a)
    case Failed(e) =>
      match e
      case NotLoaded => !Loaded(x, t)
      case WorktreeFailed => Loaded(x, t) && !t.ready
      case ContentMismatch => Loaded(x, t) && t.ready && x.codec.sha(t.content) != Package(x, t).file.contentHash
      case CacheCollision => Loaded(x, t) && t.ready && Key(x, t) in cache
      case _ => false
  }

  predicate Indexed(x: Site, artifacts: map<nat, Bytes>, cache: map<nat, Bytes>, t: Task, a: Artifact)
    requires Loaded(x, t)
  {
    && Key(x, t) in cache && cache[Key(x, t)] == x.codec.encode(a)
    && a.contentHash in artifacts
  }

  ghost predicate Inv(x: Site, s: State) {
    && (forall d | d in s.artifacts :: x.codec.sha(s.artifacts[d]) == d)
    && (forall k | k in s.cache :: Entry(x.codec, x.builder, k, s.cache[k], s.artifacts))
    && forall i | 0 <= i < |s.builds| :: BuildOk(x, s.artifacts, s.cache, s.builds[i])
  }

  predicate Extends(m: map<nat, Bytes>, n: map<nat, Bytes>) { forall k | k in m :: k in n && n[k] == m[k] }

  lemma BuildStays(x: Site, s: State, artifacts: map<nat, Bytes>, cache: map<nat, Bytes>, b: Build)
    requires BuildOk(x, s.artifacts, s.cache, b) && Extends(s.artifacts, artifacts) && Extends(s.cache, cache)
    ensures BuildOk(x, artifacts, cache, b)
  {
    hide BuildOf, Loads;
  }

  /** Everything but build `i` is as before, in stores that only grew. */
  lemma OneMoved(x: Site, s: State, t: State, i: nat)
    requires Inv(x, s) && At(s, i) && |t.builds| == |s.builds|
    requires forall j | 0 <= j < |s.builds| && j != i :: t.builds[j] == s.builds[j]
    requires Extends(s.artifacts, t.artifacts) && Extends(s.cache, t.cache)
    requires forall d | d in t.artifacts :: x.codec.sha(t.artifacts[d]) == d
    requires forall k | k in t.cache && k !in s.cache :: Entry(x.codec, x.builder, k, t.cache[k], t.artifacts)
    requires BuildOk(x, t.artifacts, t.cache, t.builds[i])
    ensures Inv(x, t)
  {
    hide BuildOk, Entry;
    forall k | k in t.cache ensures Entry(x.codec, x.builder, k, t.cache[k], t.artifacts) {
      if k in s.cache { EntryStays(x.codec, x.builder, k, t.cache[k], s.artifacts, t.artifacts); }
    }
    forall j | 0 <= j < |t.builds| ensures BuildOk(x, t.artifacts, t.cache, t.builds[j]) {
      if j != i { BuildStays(x, s, t.artifacts, t.cache, t.builds[j]); }
    }
  }

  lemma LookKeeps(x: Site, s: State, i: nat)
    requires Sound(x.codec) && Inv(x, s)
    ensures Inv(x, LookStep(x, s, i))
  {
    hide Sound, Entry, Loads, KeyFor, Fresh;
    if At(s, i) && s.builds[i].phase == Waiting {
      var t := s.builds[i].task;
      if Loaded(x, t) && t.ready && Key(x, t) in s.cache {
        EntryReads(x.codec, x.builder, Package(x, t), t.job.intakeHash, s.cache[Key(x, t)], s.artifacts);
        FreshContent(x, t, x.codec.decode(s.cache[Key(x, t)]).value);
      }
      OneMoved(x, s, LookStep(x, s, i), i);
    }
  }

  lemma FreshContent(x: Site, t: Task, a: Artifact)
    requires Loaded(x, t) && BuildOf(x, t, a)
    ensures a.contentHash == Package(x, t).file.contentHash
  {
  }

  lemma MadeParts(x: Site, t: Task, chain: nat, now: nat)
    requires Loaded(x, t)
    ensures var a := Made(x, t, chain, now); BuildOf(x, t, a) && a.chain == chain && a.created == now
  {
  }

  lemma ConstructKeeps(x: Site, s: State, i: nat, now: nat)
    requires Sound(x.codec) && Inv(x, s)
    ensures Inv(x, ConstructStep(x, s, i, now))
  {
    hide Sound, Entry, Loads, KeyFor, Fresh, Made, BuildOf;
    if At(s, i) && s.builds[i].phase == Missed && Loaded(x, s.builds[i].task) {
      var t := s.builds[i].task;
      assert BuildOk(x, s.artifacts, s.cache, s.builds[i]);
      MadeParts(x, t, t.chain, now);
      FreshContent(x, t, Made(x, t, t.chain, now));
      OneMoved(x, s, ConstructStep(x, s, i, now), i);
    }
  }

  lemma RecordKeeps(x: Site, s: State, i: nat)
    requires Sound(x.codec) && Inv(x, s)
    ensures Inv(x, RecordStep(x, s, i))
  {
    hide Sound, Entry, Loads, KeyFor, Fresh;
    if At(s, i) && s.builds[i].phase.Built? && Loaded(x, s.builds[i].task) {
      var t, a := s.builds[i].task, s.builds[i].phase.artifact;
      assert BuildOk(x, s.artifacts, s.cache, s.builds[i]);
      FreshContent(x, t, a);
      EntryMade(x.codec, x.builder, Package(x, t), t.job.intakeHash, a.chain, a.created, s.artifacts);
      OneMoved(x, s, RecordStep(x, s, i), i);
    }
  }

  lemma ValidatesBuild(x: Site, s: State, t: Task, a: Artifact)
    requires Inv(x, s) && Loaded(x, t) && BuildOf(x, t, a) && a.contentHash in s.artifacts
    ensures Validates(x.codec, x.builder, Package(x, t), t.job, a, s.artifacts)
  {
    hide Entry, BuildOk, KeyFor;
  }

  lemma ValidateKeeps(x: Site, s: State, i: nat)
    requires Inv(x, s)
    ensures Inv(x, ValidateStep(x, s, i))
  {
    hide Entry, Loads, KeyFor, Fresh, Validates;
    if At(s, i) && s.builds[i].phase.Held? && Loaded(x, s.builds[i].task) {
      assert BuildOk(x, s.artifacts, s.cache, s.builds[i]);
      ValidatesBuild(x, s, s.builds[i].task, s.builds[i].phase.artifact);
      OneMoved(x, s, ValidateStep(x, s, i), i);
    }
  }

  lemma BeginKeeps(x: Site, s: State, t: Task)
    requires Inv(x, s)
    ensures Inv(x, Apply(x, s, Begin(t)))
  {
    hide Entry, Loads;
  }

  lemma ApplyKeeps(x: Site, s: State, step: Step)
    requires Sound(x.codec) && Inv(x, s)
    ensures Inv(x, Apply(x, s, step))
  {
    hide Inv, LookStep, ConstructStep, RecordStep, ValidateStep, Sound;
    match step
    case Begin(t) => BeginKeeps(x, s, t);
    case Look(i) => LookKeeps(x, s, i);
    case Construct(i, now) => ConstructKeeps(x, s, i, now);
    case Record(i) => RecordKeeps(x, s, i);
    case Validate(i) => ValidateKeeps(x, s, i);
  }

  lemma {:induction false} Reachable(x: Site, steps: seq<Step>)
    requires Sound(x.codec)
    ensures Inv(x, After(x, steps))
  {
    hide Apply, Sound, BuildOk, Entry;
    if steps != [] {
      Reachable(x, steps[..|steps| - 1]);
      ApplyKeeps(x, After(x, steps[..|steps| - 1]), steps[|steps| - 1]);
    }
  }

  // ---------- Agreement

  lemma Extended(x: Site, steps: seq<Step>, step: Step)
    ensures After(x, steps + [step]) == Apply(x, After(x, steps), step)
  {
    hide Apply;
    assert (steps + [step])[..|steps|] == steps;
  }

  /** Whoever constructed it: in every run a finished build holds what a build of
      its own task would give at any moment, and the cache holds it too. */
  lemma FinishedAgrees(x: Site, steps: seq<Step>, i: nat, chain: nat, now: nat)
    requires Sound(x.codec) && At(After(x, steps), i) && After(x, steps).builds[i].phase.Done?
    ensures var s := After(x, steps);
            var t, a := s.builds[i].task, s.builds[i].phase.artifact;
            && Loaded(x, t) && t.ready && SameBuild(a, Made(x, t, chain, now))
            && Indexed(x, s.artifacts, s.cache, t, a)
            && Validates(x.codec, x.builder, Package(x, t), t.job, a, s.artifacts)
  {
    hide After, Sound, Loads, KeyFor, Entry, Validates;
    Reachable(x, steps);
    var s := After(x, steps);
    assert BuildOk(x, s.artifacts, s.cache, s.builds[i]);
    ValidatesBuild(x, s, s.builds[i].task, s.builds[i].phase.artifact);
  }

  /** Why a build fails, in every run; an unreadable entry, a missing artifact
      and an identity mismatch never occur. */
  lemma FailuresExplained(x: Site, steps: seq<Step>, i: nat)
    requires Sound(x.codec) && At(After(x, steps), i) && After(x, steps).builds[i].phase.Failed?
    ensures var t, e := After(x, steps).builds[i].task, After(x, steps).builds[i].phase.error;
            || (e == NotLoaded && !Loaded(x, t))
            || (e == WorktreeFailed && Loaded(x, t) && !t.ready)
            || (e == ContentMismatch && Loaded(x, t) && t.ready
                && x.codec.sha(t.content) != Package(x, t).file.contentHash)
            || (e == CacheCollision && Loaded(x, t) && t.ready && Raced(x, steps, i))
  {
    hide After, Sound, Loads, KeyFor, Entry, Raced;
    Reachable(x, steps);
    var s := After(x, steps);
    assert BuildOk(x, s.artifacts, s.cache, s.builds[i]);
    RacesSeen(x, steps);
    assert RacesOk(x, steps, i);
  }

  /** A record collides exactly when the cached artifact was constructed at
      another moment or under another adapter provenance. */
  lemma CollidesIff(x: Site, steps: seq<Step>, i: nat)
    requires Sound(x.codec) && At(After(x, steps), i) && After(x, steps).builds[i].phase.Built?
    ensures var s := After(x, steps);
            var t, a := s.builds[i].task, s.builds[i].phase.artifact;
            && Loaded(x, t)
            && (After(x, steps + [Record(i)]).builds[i].phase == Failed(CacheCollision) <==>
                  && Key(x, t) in s.cache && x.codec.decode(s.cache[Key(x, t)]).Some?
                  && var other := x.codec.decode(s.cache[Key(x, t)]).value;
                     other.created != a.created || other.chain != a.chain)
  {
    hide After, Sound, Loads, KeyFor, Entry, Fresh;
    Reachable(x, steps);
    Extended(x, steps, Record(i));
    var s := After(x, steps);
    assert BuildOk(x, s.artifacts, s.cache, s.builds[i]);
    var t, a := s.builds[i].task, s.builds[i].phase.artifact;
    if Key(x, t) in s.cache {
      var bytes := s.cache[Key(x, t)];
      EntryReads(x.codec, x.builder, Package(x, t), t.job.intakeHash, bytes, s.artifacts);
      Written(x.codec, a);
      var other := x.codec.decode(bytes).value;
      assert a == Made(x, t, a.chain, a.created) && other == Made(x, t, other.chain, other.created);
      assert bytes == x.codec.encode(a) <==> other == a;
      assert other == a <==> other.created == a.created && other.chain == a.chain;
    }
  }

  lemma Written(c: Codec, a: Artifact)
    requires Sound(c)
    ensures c.decode(c.encode(a)) == Some(a)
  {
  }

  // ---------- A collision needs a race

  predicate SameKeyOther(x: Site, s: State, i: nat, j: nat) {
    && i != j && At(s, i) && At(s, j) && Loaded(x, s.builds[i].task) && Loaded(x, s.builds[j].task)
    && Key(x, s.builds[i].task) == Key(x, s.builds[j].task)
  }

  /** Between build `i`'s own look and now, another build of its key recorded. */
  ghost predicate Raced(x: Site, steps: seq<Step>, i: nat) {
    exists m, n | 0 <= m < n < |steps| ::
      steps[m] == Look(i) && steps[n].Record? && SameKeyOther(x, After(x, steps), i, steps[n].build)
  }

  ghost predicate HasLooked(steps: seq<Step>, i: nat) { exists m | 0 <= m < |steps| :: steps[m] == Look(i) }

  /** A build between its look and its record whose key is cached meanwhile. */
  predicate Overtaken(x: Site, s: State, i: nat) {
    && At(s, i) && Loaded(x, s.builds[i].task)
    && (|| ((s.builds[i].phase == Missed || s.builds[i].phase.Built?) && Key(x, s.builds[i].task) in s.cache)
        || s.builds[i].phase == Failed(CacheCollision))
  }

  ghost predicate RacesOk(x: Site, steps: seq<Step>, i: nat) {
    var s := After(x, steps);
    && (At(s, i) && s.builds[i].phase != Waiting ==> HasLooked(steps, i))
    && (Overtaken(x, s, i) ==> Raced(x, steps, i))
  }

  lemma TasksStay(x: Site, s: State, step: Step)
    ensures |s.builds| <= |Apply(x, s, step).builds|
    ensures forall i: nat | At(s, i) :: Apply(x, s, step).builds[i].task == s.builds[i].task
  {
    hide Loads, KeyFor, Fresh, Looked, Validates;
  }

  lemma RacedStays(x: Site, steps: seq<Step>, step: Step, i: nat)
    requires Raced(x, steps, i)
    ensures Raced(x, steps + [step], i)
  {
    hide After, Apply, Loads, KeyFor;
    var m, n :| 0 <= m < n < |steps| && steps[m] == Look(i) && steps[n].Record?
                && SameKeyOther(x, After(x, steps), i, steps[n].build);
    Extended(x, steps, step);
    TasksStay(x, After(x, steps), step);
    var more := steps + [step];
    assert more[m] == Look(i) && more[n] == steps[n];
  }

  lemma LookedStays(steps: seq<Step>, step: Step, i: nat)
    requires HasLooked(steps, i) || step == Look(i)
    ensures HasLooked(steps + [step], i)
  {
    var more := steps + [step];
    if step == Look(i) {
      assert more[|steps|] == Look(i);
    } else {
      var m :| 0 <= m < |steps| && steps[m] == Look(i);
      assert more[m] == Look(i);
    }
  }

  /** Only a record of another build of the key makes a build overtaken. */
  lemma OvertakenBy(x: Site, s: State, step: Step, i: nat)
    requires Overtaken(x, Apply(x, s, step), i) && !Overtaken(x, s, i)
    ensures At(s, i) && s.builds[i].phase != Waiting
    ensures step.Record? && SameKeyOther(x, s, i, step.build)
  {
    hide Loads, KeyFor, Fresh, Validates;
  }

  lemma PhaseMoves(x: Site, s: State, step: Step, i: nat)
    requires At(Apply(x, s, step), i) && Apply(x, s, step).builds[i].phase != Waiting
    ensures step == Look(i) || (At(s, i) && s.builds[i].phase != Waiting)
  {
    hide Loads, KeyFor, Fresh, Looked, Validates;
  }

  lemma StepRaces(x: Site, steps: seq<Step>, step: Step, i: nat)
    requires RacesOk(x, steps, i)
    ensures RacesOk(x, steps + [step], i)
  {
    hide After, Apply, Overtaken, Raced, HasLooked;
    Extended(x, steps, step);
    var s := After(x, steps);
    var t := Apply(x, s, step);
    if At(t, i) && t.builds[i].phase != Waiting {
      PhaseMoves(x, s, step, i);
      LookedStays(steps, step, i);
    }
    if Overtaken(x, t, i) {
      if Overtaken(x, s, i) {
        RacedStays(x, steps, step, i);
      } else {
        OvertakenBy(x, s, step, i);
        NewlyRaced(x, steps, step, i);
      }
    }
  }

  lemma NewlyRaced(x: Site, steps: seq<Step>, step: Step, i: nat)
    requires HasLooked(steps, i) && step.Record? && SameKeyOther(x, After(x, steps), i, step.build)
    ensures Raced(x, steps + [step], i)
  {
    hide After, Apply, Loads, KeyFor;
    Extended(x, steps, step);
    TasksStay(x, After(x, steps), step);
    var more := steps + [step];
    var m :| 0 <= m < |steps| && steps[m] == Look(i);
    assert more[m] == Look(i) && more[|steps|] == step;
  }

  lemma {:induction false} RacesSeen(x: Site, steps: seq<Step>)
    ensures forall i :: RacesOk(x, steps, i)
  {
    hide Apply, Raced, HasLooked, RacesOk;
    if steps == [] {
      forall i ensures RacesOk(x, steps, i) { NoRaces(x, i); }
    } else {
      var n := |steps| - 1;
      RacesSeen(x, steps[..n]);
      assert steps == steps[..n] + [steps[n]];
      forall i ensures RacesOk(x, steps, i) { StepRaces(x, steps[..n], steps[n], i); }
    }
  }

  lemma NoRaces(x: Site, i: nat)
    ensures RacesOk(x, [], i)
  {
  }

  // ---------- Two misses, a retry, and a builder left alone

  /** A task that a fresh build can finish. */
  predicate Buildable(x: Site, t: Task) {
    Loaded(x, t) && t.ready && x.codec.sha(t.content) == Package(x, t).file.contentHash
  }

  lemma Grown(x: Site, steps: seq<Step>, step: Step, s: State, t: State)
    requires After(x, steps) == s && Apply(x, s, step) == t
    ensures After(x, steps + [step]) == t
  {
    hide After, Apply;
    Extended(x, steps, step);
  }

  /** A new builder's steps up to its look. */
  lemma NewLook(x: Site, steps: seq<Step>, t: Task)
    ensures var s := After(x, steps);
            After(x, steps + [Begin(t)] + [Look(|s.builds|)])
              == s.(builds := s.builds + [Build(t, Looked(x, s, t))])
  {
    hide After, Looked;
    var s, i := After(x, steps), |After(x, steps).builds|;
    Extended(x, steps, Begin(t));
    Extended(x, steps + [Begin(t)], Look(i));
    LookedBuilds(x, s, t, s.builds + [Build(t, Waiting)]);
    assert (s.builds + [Build(t, Waiting)])[i := Build(t, Looked(x, s, t))] == s.builds + [Build(t, Looked(x, s, t))];
  }

  lemma LookedBuilds(x: Site, s: State, t: Task, builds: seq<Build>)
    ensures Looked(x, s.(builds := builds), t) == Looked(x, s, t)
  {
  }

  lemma HeldFinishes(x: Site, steps: seq<Step>, i: nat)
    requires Sound(x.codec) && At(After(x, steps), i) && After(x, steps).builds[i].phase.Held?
    ensures var s, r := After(x, steps), After(x, steps + [Validate(i)]);
            r == SetPhase(s, i, Done(s.builds[i].phase.artifact))
  {
    hide After, Sound, Loads, KeyFor, Fresh, Validates, Entry;
    Reachable(x, steps);
    Extended(x, steps, Validate(i));
    var s := After(x, steps);
    assert BuildOk(x, s.artifacts, s.cache, s.builds[i]);
    ValidatesBuild(x, s, s.builds[i].task, s.builds[i].phase.artifact);
  }

  /** A builder that finds its key cached finishes with the cached artifact. */
  lemma HitFinishes(x: Site, steps: seq<Step>, t: Task)
    requires Sound(x.codec) && Loaded(x, t) && t.ready && Key(x, t) in After(x, steps).cache
    ensures var s := After(x, steps);
            var i := |s.builds|;
            var r := After(x, steps + [Begin(t)] + [Look(i)] + [Validate(i)]);
            && x.codec.decode(s.cache[Key(x, t)]).Some? && |r.builds| == i + 1
            && r.builds[i].phase == Done(x.codec.decode(s.cache[Key(x, t)]).value)
  {
    hide After, Sound, Loads, KeyFor, Fresh, Entry;
    Reachable(x, steps);
    var s := After(x, steps);
    EntryReads(x.codec, x.builder, Package(x, t), t.job.intakeHash, s.cache[Key(x, t)], s.artifacts);
    FreshContent(x, t, x.codec.decode(s.cache[Key(x, t)]).value);
    NewLook(x, steps, t);
    HeldFinishes(x, steps + [Begin(t)] + [Look(|s.builds|)], |s.builds|);
  }

  /** One that misses and is left alone from then on finishes with its own. */
  lemma MissFinishes(x: Site, steps: seq<Step>, t: Task, now: nat)
    requires Sound(x.codec) && Buildable(x, t) && Key(x, t) !in After(x, steps).cache
    ensures var i := |After(x, steps).builds|;
            var r := After(x, steps + [Begin(t)] + [Look(i)] + [Construct(i, now)] + [Record(i)] + [Validate(i)]);
            && |r.builds| == i + 1 && r.builds[i].phase == Done(Made(x, t, t.chain, now))
  {
    hide After, Sound, Loads, KeyFor, Fresh, Made, Entry;
    var s, i := After(x, steps), |After(x, steps).builds|;
    NewLook(x, steps, t);
    var run := steps + [Begin(t)] + [Look(i)];
    Extended(x, run, Construct(i, now));
    Extended(x, run + [Construct(i, now)], Record(i));
    HeldFinishes(x, run + [Construct(i, now)] + [Record(i)], i);
  }

  function Pair(x: Site, t: Task, artifacts: map<nat, Bytes>, cache: map<nat, Bytes>, p: Phase, q: Phase): State {
    State(artifacts, cache, [Build(t, p), Build(t, q)])
  }

  lemma MadeDiffer(x: Site, t: Task, first: nat, second: nat)
    requires Sound(x.codec) && Loaded(x, t) && first != second
    ensures x.codec.encode(Made(x, t, t.chain, first)) != x.codec.encode(Made(x, t, t.chain, second))
  {
    hide Loads, KeyFor;
    Written(x.codec, Made(x, t, t.chain, first));
    Written(x.codec, Made(x, t, t.chain, second));
    MadeParts(x, t, t.chain, first);
    MadeParts(x, t, t.chain, second);
  }

  function Misses(t: Task): seq<Step> { [Begin(t), Begin(t), Look(0), Look(1)] }

  lemma BothMiss(x: Site, t: Task)
    requires Buildable(x, t)
    ensures After(x, Misses(t)) == Pair(x, t, map[], map[], Missed, Missed)
  {
    hide After, Loads, KeyFor;
    assert After(x, []) == State(map[], map[], []) by { Empty(x); }
    Extended(x, [], Begin(t));
    Extended(x, [] + [Begin(t)], Begin(t));
    Extended(x, [] + [Begin(t)] + [Begin(t)], Look(0));
    Extended(x, [] + [Begin(t)] + [Begin(t)] + [Look(0)], Look(1));
    assert [] + [Begin(t)] + [Begin(t)] + [Look(0)] + [Look(1)] == Misses(t);
  }

  lemma Empty(x: Site)
    ensures After(x, []) == State(map[], map[], [])
  {
  }

  /** Two builders of one task both miss; constructed at different moments, the
      second record collides and the first entry stays. A third builder then
      finds the first one's artifact and finishes with it. */
  lemma TwoMisses(x: Site, t: Task, first: nat, second: nat)
    requires Sound(x.codec) && Buildable(x, t) && first != second
    ensures var both := Misses(t) + [Construct(0, first)] + [Construct(1, second)] + [Record(0)] + [Record(1)];
            var s, r := After(x, both), After(x, both + [Begin(t)] + [Look(2)] + [Validate(2)]);
            && |s.builds| == 2 && s.builds[0].phase == Held(Made(x, t, t.chain, first))
            && s.builds[1].phase == Failed(CacheCollision)
            && |r.builds| == 3 && r.builds[2].phase == Done(Made(x, t, t.chain, first))
  {
    hide After, Loads, KeyFor, Fresh, Sound, Made, Validates, BuildOf;
    var a, b := Made(x, t, t.chain, first), Made(x, t, t.chain, second);
    var digest, k := x.codec.sha(t.content), Key(x, t);
    var store, index := map[digest := t.content], map[k := x.codec.encode(a)];
    BothMiss(x, t);
    MadeParts(x, t, t.chain, first);
    FreshContent(x, t, a);
    MadeDiffer(x, t, first, second);
    Written(x.codec, a);
    var run := Misses(t);
    Grown(x, run, Construct(0, first), Pair(x, t, map[], map[], Missed, Missed), Pair(x, t, store, map[], Built(a), Missed));
    run := run + [Construct(0, first)];
    Grown(x, run, Construct(1, second), Pair(x, t, store, map[], Built(a), Missed), Pair(x, t, store, map[], Built(a), Built(b)));
    run := run + [Construct(1, second)];
    Grown(x, run, Record(0), Pair(x, t, store, map[], Built(a), Built(b)), Pair(x, t, store, index, Held(a), Built(b)));
    run := run + [Record(0)];
    var s := Pair(x, t, store, index, Held(a), Failed(CacheCollision));
    Grown(x, run, Record(1), Pair(x, t, store, index, Held(a), Built(b)), s);
    run := run + [Record(1)];
    HitFinishes(x, run, t);
  }
}
