/** The status decision of one bounded execution, and its evidence. */
module Runner {
  import opened Octets
  import opened Text
  import opened Unicode
  import opened Redaction
  import opened Capture

  datatype PollEnd = ProcessExited | OverflowSeen | DeadlinePassed

  datatype Cleanup = Terminated | Killed | Unverified

  datatype Status =
    | Succeeded | ExitFailed | TimedOut | OutputLimitExceeded | TokenLimitExceeded | InvalidOutput | CleanupFailed

  datatype Termination = Timeout | OutputLimit | TokenLimit

  /** A request may name any attempt from 1 to 64; a record takes at most 8. */
  datatype RunLimits = RunLimits(attempt: nat, output: Limits, tokens: nat)

  /** Whatever the process, the clock and the scheduler do. `events` are the
      readers' locked sections in the order they ran; the later fields say how
      many had run when each variable was read. */
  datatype World = World(
    events: seq<Event>, polled: PollEnd, polledAt: nat,
    tree: Cleanup, exit: Option<int>, readersAlive: bool,
    outAt: nat, errAt: nat, reasonAt: nat, outReadAt: nat, errReadAt: nat,
    tokens: Option<nat>)

  /** The reads happen in program order; joined readers run no more sections;
      the loop sees the overflow event only once it is set. */
  predicate Possible(l: RunLimits, w: World) {
    && w.polledAt <= w.outAt <= w.errAt <= w.reasonAt <= w.outReadAt <= w.errReadAt <= |w.events|
    && (!w.readersAlive ==> w.outAt == |w.events|)
    && (w.polled == OverflowSeen ==> After(l.output, w.events[..w.polledAt]).shared.overflow)
  }

  datatype Ids = Ids(attempt: nat, run: nat, request: nat, requestHash: nat)

  datatype Record = Record(
    ids: Ids, attempt: nat, status: Status, exit: Option<int>, stdoutRead: nat, stderrRead: nat, total: nat,
    tokens: Option<nat>, stdoutHash: nat, stderrHash: nat, stdoutSummary: Message, stderrSummary: Message,
    reason: Option<Termination>, tree: Cleanup, verified: bool, cleanupSummary: Message)

  /** The record's coherence validator and the bounds of its fields. */
  predicate RecordOk(r: Record) {
    && r.total == r.stdoutRead + r.stderrRead
    && (r.verified ==> r.tree != Unverified)
    && (!r.verified ==> r.status == CleanupFailed)
    && (r.status == Succeeded ==> r.exit == Some(0) && r.verified && r.tokens.Some?)
    && 1 <= r.attempt <= 8
    && |r.stdoutSummary| <= 4096 && |r.stderrSummary| <= 4096 && 1 <= |r.cleanupSummary| <= 1000
  }

  /** An accepted record is refused as soon as one of its checks is broken. */
  lemma RecordGuards(r: Record)
    requires RecordOk(r)
    ensures !RecordOk(r.(total := r.total + 1)) && !RecordOk(r.(attempt := 0)) && !RecordOk(r.(attempt := 9))
    ensures !RecordOk(r.(verified := true, tree := Unverified))
    ensures !RecordOk(r.(verified := false, status := ExitFailed))
    ensures !RecordOk(r.(status := Succeeded, exit := Some(1))) && !RecordOk(r.(status := Succeeded, exit := None))
    ensures !RecordOk(r.(status := Succeeded, tokens := None)) && !RecordOk(r.(cleanupSummary := []))
    ensures !RecordOk(r.(stdoutSummary := seq(4097, _ => 0))) && !RecordOk(r.(stderrSummary := seq(4097, _ => 0)))
    ensures !RecordOk(r.(cleanupSummary := seq(1001, _ => 0)))
  {
  }

  /** The digest, the language's letters, and the values that the environment
      and the credentials hold. */
  datatype Env = Env(sha: Bytes -> nat, letter: Code -> bool, values: seq<Message>)

  datatype AgentRunResult = AgentRunResult(proposal: Option<Bytes>, evidence: Record)

  const REMOVED: Message := Codes("adapter-owned process tree and attempt directory removed")
  const UNVERIFIED: Message := Codes("adapter-owned process tree cleanup could not be verified")

  function Decide(l: RunLimits, w: World, tree: Cleanup): (Status, Option<Termination>)
    requires Possible(l, w)
  {
    var seen := if w.polled == DeadlinePassed then Some(Timeout)
                else if w.polled == OverflowSeen then Some(OutputLimit) else None;
    if tree == Unverified then (CleanupFailed, seen)
    else if seen == Some(Timeout) then (TimedOut, seen)
    else if seen == Some(OutputLimit) || After(l.output, w.events[..w.reasonAt]).shared.reason.Some? then
      (OutputLimitExceeded, Some(OutputLimit))
    else if w.exit != Some(0) then (ExitFailed, seen)
    else if w.tokens.None? then (InvalidOutput, seen)
    else if w.tokens.value > l.tokens then (TokenLimitExceeded, Some(TokenLimit))
    else (Succeeded, seen)
  }

  /** A wait that timed out, or a reader still alive, spoils the cleanup. */
  function TreeOutcome(w: World): Cleanup { if w.exit.None? || w.readersAlive then Unverified else w.tree }

  function Quoted(env: Env, raw: Bytes): Message { Summary(env.letter, raw, env.values) }

  /** What the run is recorded as, before the record's own checks. */
  function Evidence(l: RunLimits, w: World, ids: Ids, env: Env): Record
    requires Possible(l, w)
  {
    var tree := TreeOutcome(w);
    var (status, reason) := Decide(l, w, tree);
    var stdout := After(l.output, w.events[..w.outAt]).out.content;
    var stderr := After(l.output, w.events[..w.errAt]).err.content;
    var outRead := After(l.output, w.events[..w.outReadAt]).out.read;
    var errRead := After(l.output, w.events[..w.errReadAt]).err.read;
    Record(ids, l.attempt, status, w.exit, outRead, errRead, outRead + errRead, w.tokens,
           env.sha(stdout), env.sha(stderr), Quoted(env, stdout), Quoted(env, stderr),
           reason, tree, tree != Unverified, if tree != Unverified then REMOVED else UNVERIFIED)
  }

  /** `_execute`; `None` is the contract's rejection of its own record. */
  function Execute(l: RunLimits, w: World, ids: Ids, env: Env): Option<AgentRunResult>
    requires Possible(l, w)
  {
    var evidence := Evidence(l, w, ids, env);
    if !RecordOk(evidence) then None
    else
      var stdout := After(l.output, w.events[..w.outAt]).out.content;
      Some(AgentRunResult(if evidence.status == Succeeded then Some(stdout) else None, evidence))
  }

  /** A failed removal of the attempt directory, with the message of its error,
      turns the result into a cleanup failure, rebuilt through the contract. */
  function Finish(r: AgentRunResult, removal: Option<Message>, env: Env): Option<AgentRunResult> {
    match removal
    case None => Some(r)
    case Some(message) =>
      var summary := Summary(env.letter, Encode(message), []);
      var evidence := r.evidence.(status := CleanupFailed, verified := false, cleanupSummary := summary);
      if RecordOk(evidence) then Some(AgentRunResult(None, evidence)) else None
  }

  /** `run`, from the start of the process. */
  function Run(l: RunLimits, w: World, ids: Ids, env: Env, removal: Option<Message>): Option<AgentRunResult>
    requires Possible(l, w)
  {
    var r := Execute(l, w, ids, env);
    if r.None? then None else Finish(r.value, removal, env)
  }

  function Out(w: World): Bytes { Delivered(w.events, Stdout) }

  function Err(w: World): Bytes { Delivered(w.events, Stderr) }

  /** With the readers joined, every read saw the final captures. */
  lemma Settled(l: RunLimits, w: World)
    requires Possible(l, w) && !w.readersAlive
    ensures var c := After(l.output, w.events);
            && After(l.output, w.events[..w.outAt]) == c && After(l.output, w.events[..w.errAt]) == c
            && After(l.output, w.events[..w.reasonAt]) == c && After(l.output, w.events[..w.outReadAt]) == c
            && After(l.output, w.events[..w.errReadAt]) == c
    ensures w.polled == OverflowSeen ==> After(l.output, w.events).shared.reason.Some?
    ensures Faithful(l.output, After(l.output, w.events), Out(w), Err(w))
  {
    hide After, Delivered, Faithful;
    assert w.events[..|w.events|] == w.events;
    CaptureExact(l.output, w.events);
    CaptureExact(l.output, w.events[..w.polledAt]);
    Grows(l.output, w.events, w.polledAt);
    FaithfulFlag(l.output, After(l.output, w.events[..w.polledAt]), Delivered(w.events[..w.polledAt], Stdout),
                 Delivered(w.events[..w.polledAt], Stderr));
  }

  lemma FaithfulFlag(l: Limits, c: Captures, out: Bytes, err: Bytes)
    requires Faithful(l, c, out, err)
    ensures c.shared.overflow <==> c.shared.reason.Some?
  {
  }

  predicate QuoteFits(env: Env, raw: Bytes) { |Quoted(env, raw)| <= 4096 }

  /** What the record asks of the attempt number, and of what the process had
      written when each stream was read, cut at its limit. */
  predicate Recordable(l: RunLimits, w: World, env: Env)
    requires Possible(l, w)
  {
    && 1 <= l.attempt <= 8
    && QuoteFits(env, Prefix(Delivered(w.events[..w.outAt], Stdout), l.output.stdout))
    && QuoteFits(env, Prefix(Delivered(w.events[..w.errAt], Stderr), l.output.stderr))
  }

  /** What was captured when each stream was read. */
  lemma ReadOutput(l: RunLimits, w: World)
    requires Possible(l, w)
    ensures After(l.output, w.events[..w.outAt]).out.content == Prefix(Delivered(w.events[..w.outAt], Stdout), l.output.stdout)
    ensures After(l.output, w.events[..w.errAt]).err.content == Prefix(Delivered(w.events[..w.errAt], Stderr), l.output.stderr)
  {
    hide After, Delivered;
    CaptureExact(l.output, w.events[..w.outAt]);
    CaptureExact(l.output, w.events[..w.errAt]);
  }

  lemma CleanupTexts()
    ensures |REMOVED| == 56 && |UNVERIFIED| == 56
  {
    hide Codes;
  }

  /** Everything else that the record asks for holds of the evidence. */
  lemma EvidenceOk(l: RunLimits, w: World, ids: Ids, env: Env)
    requires Possible(l, w)
    ensures RecordOk(Evidence(l, w, ids, env)) <==>
              && 1 <= l.attempt <= 8
              && QuoteFits(env, After(l.output, w.events[..w.outAt]).out.content)
              && QuoteFits(env, After(l.output, w.events[..w.errAt]).err.content)
  {
    hide After, Delivered, Possible, Summary, Codes;
    CleanupTexts();
  }

  /** A finished execution yields a result exactly when its attempt number and
      both quotations fit the record; otherwise a paid run is lost. */
  lemma ExecuteYields(l: RunLimits, w: World, ids: Ids, env: Env)
    requires Possible(l, w)
    ensures Execute(l, w, ids, env).Some? <==> Recordable(l, w, env)
    ensures var r := Execute(l, w, ids, env);
            r.Some? ==> RecordOk(r.value.evidence) && (r.value.proposal.Some? <==> r.value.evidence.status == Succeeded)
  {
    ReadOutput(l, w);
    hide After, Delivered, Possible, QuoteFits, Prefix, RecordOk, Evidence;
    EvidenceOk(l, w, ids, env);
  }

  /** From what is known before the run: the lengths of the values decide that
      the quotations fit, whatever the process writes. */
  lemma KnownToYield(l: RunLimits, w: World, ids: Ids, env: Env)
    requires Possible(l, w) && 1 <= l.attempt <= 8
    requires [] !in LongestFirst(env.values) && Grown(2340, LongestFirst(env.values)) <= 4096
    ensures Execute(l, w, ids, env).Some?
  {
    hide After, Execute, Summary, Grown, LongestFirst;
    SummaryBound(env.letter, Prefix(Delivered(w.events[..w.outAt], Stdout), l.output.stdout), env.values);
    SummaryBound(env.letter, Prefix(Delivered(w.events[..w.errAt], Stderr), l.output.stderr), env.values);
    ExecuteYields(l, w, ids, env);
  }

  /** It is enough that no value is under eight characters and at most one is
      shorter than its fourteen-character mark. */
  lemma LongValuesYield(l: RunLimits, w: World, ids: Ids, env: Env)
    requires Possible(l, w) && 1 <= l.attempt <= 8
    requires Short(env.values) <= 1 && forall v :: v in env.values ==> v == [] || |v| >= 8
    ensures Execute(l, w, ids, env).Some?
  {
    hide After, Execute, Summary, Short;
    LongValuesFit(env.letter, Prefix(Delivered(w.events[..w.outAt], Stdout), l.output.stdout), env.values);
    LongValuesFit(env.letter, Prefix(Delivered(w.events[..w.errAt], Stderr), l.output.stderr), env.values);
    ExecuteYields(l, w, ids, env);
  }

  /** The limits allow attempt numbers that no record takes. */
  lemma NinthAttemptLost(l: RunLimits, w: World, ids: Ids, env: Env)
    requires Possible(l, w) && l.attempt == 9
    ensures Execute(l, w, ids, env) == None
  {
    hide After, Possible, Execute, Summary;
    ExecuteYields(l, w, ids, env);
  }

  lemma OneChunk(chunk: Bytes)
    ensures Delivered([Event(Stdout, chunk)], Stdout) == chunk
  {
    assert [Event(Stdout, chunk)][..0] == [];
  }

  lemma UnassignedRepeat(c: Code, k: nat)
    requires !Assigns(c)
    ensures forall d :: d in Repeat(c, k) ==> d == c && !Assigns(d)
  {
  }

  function OnesWorld(chunk: Bytes): World {
    World([Event(Stdout, chunk)], ProcessExited, 0, Terminated, Some(0), false, 1, 1, 1, 1, 1, Some(5))
  }

  const ONES_LIMITS := RunLimits(1, Limits(2000, 2000, 2000), 5)

  /** A first attempt that writes 1024 ones, exits with 0 and stays within every
      limit is lost when an environment value is `1`. */
  lemma OnesLost(ids: Ids, sha: Bytes -> nat, letter: Code -> bool)
    ensures var chunk := Encode(Repeat(49, 1024));
            && |chunk| == 1024 && Possible(ONES_LIMITS, OnesWorld(chunk))
            && Execute(ONES_LIMITS, OnesWorld(chunk), ids, Env(sha, letter, [Codes("1")])) == None
  {
    hide After, Execute, Summary, Codes, Encode, Repeat;
    var ones := Repeat(49, 1024);
    var chunk := Encode(ones);
    UnassignedRepeat(49, 1024);
    AsciiLength(ones);
    OneChunk(chunk);
    var w := OnesWorld(chunk);
    assert w.events[..1] == w.events;
    OnesOverflow(letter);
    ExecuteYields(ONES_LIMITS, w, ids, Env(sha, letter, [Codes("1")]));
  }

  /** Exactly when a run succeeds, over every interleaving and every moment at
      which the loop looked. */
  lemma SucceededIff(l: RunLimits, w: World, ids: Ids, env: Env)
    requires Possible(l, w)
    ensures var r := Execute(l, w, ids, env);
            r.Some? && r.value.evidence.status == Succeeded <==>
              && w.tree != Unverified && w.exit == Some(0) && !w.readersAlive && w.polled != DeadlinePassed
              && !Exceeds(l.output, |Out(w)|, |Err(w)|)
              && w.tokens.Some? && w.tokens.value <= l.tokens
              && 1 <= l.attempt <= 8 && QuoteFits(env, Out(w)) && QuoteFits(env, Err(w))
  {
    hide After, Delivered, Possible, QuoteFits, RecordOk, Summary, Codes;
    EvidenceOk(l, w, ids, env);
    if !w.readersAlive { Settled(l, w); }
  }

  /** Success means complete output within all limits, under its true digest. */
  lemma SucceededComplete(l: RunLimits, w: World, ids: Ids, env: Env)
    requires Possible(l, w) && Execute(l, w, ids, env).Some?
    requires Execute(l, w, ids, env).value.evidence.status == Succeeded
    ensures var r := Execute(l, w, ids, env).value;
            && r.proposal == Some(Out(w)) && r.evidence.stdoutHash == env.sha(Out(w))
            && r.evidence.stderrHash == env.sha(Err(w))
            && r.evidence.stdoutRead == |Out(w)| <= l.output.stdout
            && r.evidence.stderrRead == |Err(w)| <= l.output.stderr
            && r.evidence.total == |Out(w)| + |Err(w)| <= l.output.total
  {
    hide After, Delivered, Possible, Summary, Codes;
    SucceededIff(l, w, ids, env);
    Settled(l, w);
  }

  /** The status of every recorded run whose cleanup is verified, from what the
      process really wrote and not from what the loop happened to see. */
  lemma StatusDecided(l: RunLimits, w: World, ids: Ids, env: Env)
    requires Possible(l, w) && TreeOutcome(w) != Unverified && Execute(l, w, ids, env).Some?
    ensures var r := Execute(l, w, ids, env).value.evidence;
            && r.status == (if w.polled == DeadlinePassed then TimedOut
                            else if Exceeds(l.output, |Out(w)|, |Err(w)|) then OutputLimitExceeded
                            else if w.exit != Some(0) then ExitFailed
                            else if w.tokens.None? then InvalidOutput
                            else if w.tokens.value > l.tokens then TokenLimitExceeded
                            else Succeeded)
            && r.reason == (match r.status
                            case TimedOut => Some(Timeout)
                            case OutputLimitExceeded => Some(OutputLimit)
                            case TokenLimitExceeded => Some(TokenLimit)
                            case _ => None)
  {
    hide After, Delivered, Possible, Summary, Codes;
    Settled(l, w);
  }

  /** What a yielded result holds, from what the process wrote before each read;
      with an unverified cleanup the status says so, and the reason what the
      loop saw. */
  lemma EvidenceIs(l: RunLimits, w: World, ids: Ids, env: Env)
    requires Possible(l, w) && Execute(l, w, ids, env).Some?
    ensures var r := Execute(l, w, ids, env).value;
            var e := r.evidence;
            var stdout := Prefix(Delivered(w.events[..w.outAt], Stdout), l.output.stdout);
            var stderr := Prefix(Delivered(w.events[..w.errAt], Stderr), l.output.stderr);
            && r.proposal == (if e.status == Succeeded then Some(stdout) else None)
            && e.ids == ids && e.attempt == l.attempt && e.exit == w.exit && e.tokens == w.tokens
            && e.stdoutHash == env.sha(stdout) && e.stdoutSummary == Summary(env.letter, stdout, env.values)
            && e.stderrHash == env.sha(stderr) && e.stderrSummary == Summary(env.letter, stderr, env.values)
            && e.stdoutRead == |Delivered(w.events[..w.outReadAt], Stdout)|
            && e.stderrRead == |Delivered(w.events[..w.errReadAt], Stderr)|
            && e.total == e.stdoutRead + e.stderrRead
            && e.tree == (if w.exit == None || w.readersAlive then Unverified else w.tree)
            && (if e.tree != Unverified then
                  && e.verified && e.status != CleanupFailed
                  && e.cleanupSummary == Codes("adapter-owned process tree and attempt directory removed")
                else
                  && !e.verified && e.status == CleanupFailed
                  && e.cleanupSummary == Codes("adapter-owned process tree cleanup could not be verified")
                  && e.reason == (match w.polled
                                  case ProcessExited => None
                                  case OverflowSeen => Some(OutputLimit)
                                  case DeadlinePassed => Some(Timeout)))
  {
    hide After, Delivered, Summary, Codes, Prefix;
    ReadOutput(l, w);
    CaptureExact(l.output, w.events[..w.outReadAt]);
    CaptureExact(l.output, w.events[..w.errReadAt]);
  }

  /** A process that writes nothing is possible, and so is one that is seen to
      overflow. */
  lemma PossibleSamples(l: RunLimits, chunk: Bytes, tree: Cleanup, exit: Option<int>, tokens: Option<nat>)
    requires |chunk| > l.output.stdout
    ensures Possible(l, World([], ProcessExited, 0, tree, exit, false, 0, 0, 0, 0, 0, tokens))
    ensures Possible(l, World([Event(Stdout, chunk)], OverflowSeen, 1, tree, exit, false, 1, 1, 1, 1, 1, tokens))
  {
    var events := [Event(Stdout, chunk)];
    assert events[..1] == events && events[..0] == [];
    OneChunk(chunk);
    CaptureExact(l.output, events);
  }

  // ---------- the removal of the attempt directory fails

  /** Exactly when a failed removal is reported as evidence: its message is not
      empty, and what shows of its first 1024 bytes redacts to at most 1000
      characters. Any other message is raised as a contract error. */
  lemma RemovalReported(r: AgentRunResult, message: Message, env: Env)
    requires RecordOk(r.evidence)
    ensures Finish(r, Some(message), env).Some? <==>
              message != [] && |Redact(env.letter, Visible(message, 1024), false)| <= 1000
    ensures Finish(r, Some(message), env).Some? ==>
              && Finish(r, Some(message), env).value.proposal == None
              && RecordOk(Finish(r, Some(message), env).value.evidence)
              && Finish(r, Some(message), env).value.evidence.status == CleanupFailed
  {
    hide Summary, Redact, Visible, Encode;
    MessageSummary(env.letter, message);
    VisibleFrom(message, 1024);
    RedactLength(env.letter, Visible(message, 1024), false);
  }

  /** `run` returns a result exactly when both records can be built. */
  lemma RunYields(l: RunLimits, w: World, ids: Ids, env: Env, removal: Option<Message>)
    requires Possible(l, w)
    ensures Run(l, w, ids, env, removal).Some? <==>
              && Recordable(l, w, env)
              && (removal.Some? ==>
                    removal.value != [] && |Redact(env.letter, Visible(removal.value, 1024), false)| <= 1000)
  {
    hide Possible, Execute, Recordable, Redact, Visible, RecordOk;
    ExecuteYields(l, w, ids, env);
    if Execute(l, w, ids, env).Some? && removal.Some? {
      RemovalReported(Execute(l, w, ids, env).value, removal.value, env);
    }
  }

  /** A message without a keyword: at most 1000 characters, or so wide that its
      first 1000 fill the 1024 bytes. */
  lemma KeywordFreeRemoval(r: AgentRunResult, message: Message, env: Env)
    requires RecordOk(r.evidence) && KeywordFree(message)
    ensures Finish(r, Some(message), env).Some? <==>
              message != [] && (|message| <= 1000 || |Encode(message[..1000])| >= 1024)
  {
    hide Redact, Visible, Encode, Quiet, Finish, KeywordFree;
    RemovalReported(r, message, env);
    KeywordFreeQuiet(message, 1024);
    QuietUnchanged(env.letter, Visible(message, 1024), false);
    VisibleAtMost(message, 1024, 1000);
  }

  /** Plain ASCII that names no keyword or assigns nothing: 1 to 1000 characters. */
  lemma PlainRemoval(r: AgentRunResult, message: Message, env: Env)
    requires RecordOk(r.evidence) && forall c :: c in message ==> c < 0x80
    requires KeywordFree(message) || forall c :: c in message ==> !Assigns(c)
    ensures Finish(r, Some(message), env).Some? <==> 1 <= |message| <= 1000
  {
    hide Redact, Visible, Encode, Quiet, Finish, KeywordFree;
    RemovalReported(r, message, env);
    if KeywordFree(message) {
      KeywordFreeQuiet(message, 1024);
    } else {
      UnassignedMessage(message, 1024);
    }
    QuietUnchanged(env.letter, Visible(message, 1024), false);
    VisibleAtMost(message, 1024, 1000);
    if |message| > 1000 {
      assert forall c :: c in message[..1000] ==> c in message;
      AsciiLength(message[..1000]);
    }
  }

  /** Any message of 1 to 437 characters is reported, whatever it says. */
  lemma ShortRemoval(r: AgentRunResult, message: Message, env: Env)
    requires RecordOk(r.evidence) && 1 <= |message| <= 437
    ensures Finish(r, Some(message), env).Some?
  {
    hide Redact, Visible, Encode, Finish;
    RemovalReported(r, message, env);
    VisibleFrom(message, 1024);
    RedactLength(env.letter, Visible(message, 1024), false);
  }

  /** The empty message and 1001 letters `x` are raised; 1001 letters of two
      bytes show as 512 and are reported. */
  lemma RemovalExamples(r: AgentRunResult, env: Env)
    requires RecordOk(r.evidence)
    ensures Finish(r, Some([]), env) == None
    ensures Finish(r, Some(Repeat(120, 1001)), env) == None
    ensures Finish(r, Some(Repeat(0xE9, 1001)), env).Some?
  {
    hide Redact, Visible, Encode, Quiet, Finish, Repeat;
    RemovalReported(r, [], env);
    UnassignedRepeat(120, 1001);
    PlainRemoval(r, Repeat(120, 1001), env);
    var wide := Repeat(0xE9, 1001);
    UnassignedRepeat(0xE9, 1001);
    RemovalReported(r, wide, env);
    UnassignedMessage(wide, 1024);
    QuietUnchanged(env.letter, Visible(wide, 1024), false);
    VisibleAtMost(wide, 1024, 1000);
    assert forall c :: c in wide[..1000] ==> c in wide;
    TwoByteLength(wide[..1000]);
  }
}
