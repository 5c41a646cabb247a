/** One claimed attempt pays for at most one execution, whatever crashes. */
module AtMostOnce {
  import opened Text
  import opened Octets

  /** The frozen claim, with the hashes of its request and plan, and one runner
      receipt. */
  datatype Claim = Claim(attempt: nat, run: nat, token: nat, request: nat, plan: nat, body: Bytes)

  datatype Receipt = Receipt(attempt: nat, body: Bytes)

  /** The pure parts: the authority checks, the receipt's content address, and
      the batch rebuilt from a claim, a receipt and the input; `None` raises. */
  datatype Rules = Rules(
    authorized: (Claim, Bytes) -> bool, address: Receipt -> nat,
    rebuild: (Claim, Receipt, Bytes) -> Option<Option<Bytes>>)

  ghost predicate Sound(r: Rules) { forall a, b :: r.address(a) == r.address(b) ==> a == b }

  /** The attempt's own files. `started` also says which process made the marker. */
  datatype Files = Files(claim: Option<Claim>, started: Option<nat>, input: Option<Bytes>, index: Option<nat>)

  const NO_FILES := Files(None, None, None, None)

  datatype Returned = Returned(attempt: nat, ref: nat, batch: Option<Bytes>)

  /** The repository's row of an attempt. A lapsed one failed without a receipt. */
  datatype Phase = Queued | Running | Lapsed | Settled(result: Returned)

  datatype Row = Row(run: nat, token: nat, request: nat, plan: nat, phase: Phase)

  datatype Role = Executor(claim: Claim, input: Bytes) | Recoverer(run: nat, attempt: nat)
  {
    function Attempt(): nat { if Executor? then claim.attempt else attempt }
  }

  /** Where a process stands: the executor's steps, then those of recovery. */
  datatype Place =
    | WriteClaim | Mark | WriteInput | Invoke | PublishReceipt(receipt: Receipt) | WriteIndex(made: nat)
    | ReadClaim | AskRow(claim: Claim) | ReadInput(claim: Claim) | ReadIndex(claim: Claim, item: Bytes)
    | Load(claim: Claim, item: Bytes, ref: nat) | Settle(claim: Claim, result: Returned)
    | Finished | Stopped

  datatype Process = Process(role: Role, place: Place)

  datatype Invocation = Invocation(process: nat, attempt: nat)

  datatype State = State(
    files: map<nat, Files>, receipts: map<nat, Receipt>, rows: map<nat, Row>, processes: seq<Process>,
    invocations: seq<Invocation>, results: seq<Returned>)

  const EMPTY := State(map[], map[], map[], [], [], [])

  /** What the outside gives one step: the receipt, if it runs the runner; and,
      if it settles, whether the repository's own reading of the evidence passes
      and whether the lease has time left. */
  datatype Outside = Outside(receipt: Receipt, valid: bool, live: bool)

  /** The repository queues an attempt, hands it out once, and may fail it when
      its lease has passed. */
  datatype Step =
    | Queue(attempt: nat, run: nat, request: nat, plan: nat)
    | HandOut(attempt: nat, token: nat)
    | Lapse(attempt: nat)
    | Start(role: Role)
    | Move(process: nat, outside: Outside)
    | Crash(process: nat)

  function FilesOf(s: State, a: nat): Files { if a in s.files then s.files[a] else NO_FILES }

  function Goto(s: State, i: nat, place: Place): State
    requires i < |s.processes|
  {
    s.(processes := s.processes[i := s.processes[i].(place := place)])
  }

  /** Write-once publication: same bytes pass, different bytes stop the caller. */
  function Once<T(==)>(old': Option<T>, value: T): Option<T> {
    if old' == None || old' == Some(value) then Some(value) else None
  }

  function MoveExecutor(rules: Rules, s: State, i: nat, receipt: Receipt): State
    requires i < |s.processes| && s.processes[i].role.Executor?
  {
    var p := s.processes[i];
    var a := p.role.claim.attempt;
    var f := FilesOf(s, a);
    match p.place
    case WriteClaim =>
      if Once(f.claim, p.role.claim).None? then Goto(s, i, Stopped)
      else Goto(s.(files := s.files[a := f.(claim := Some(p.role.claim))]), i, Mark)
    case Mark =>
      if !rules.authorized(p.role.claim, p.role.input) || f.started.Some? then Goto(s, i, Stopped)
      else Goto(s.(files := s.files[a := f.(started := Some(i))]), i, WriteInput)
    case WriteInput =>
      if Once(f.input, p.role.input).None? then Goto(s, i, Stopped)
      else Goto(s.(files := s.files[a := f.(input := Some(p.role.input))]), i, Invoke)
    case Invoke =>
      Goto(s.(invocations := s.invocations + [Invocation(i, a)]), i,
           if receipt.attempt == a then PublishReceipt(receipt) else Stopped)
    case PublishReceipt(r) =>
      Goto(s.(receipts := s.receipts[rules.address(r) := r]), i, WriteIndex(rules.address(r)))
    case WriteIndex(ref) =>
      if Once(f.index, ref).None? then Goto(s, i, Stopped)
      else Goto(s.(files := s.files[a := f.(index := Some(ref))]), i, ReadInput(p.role.claim))
    case _ => s
  }

  /** The repository still knows the attempt under this very claim. */
  predicate Knows(s: State, run: nat, claim: Claim) {
    && claim.attempt in s.rows
    && var row := s.rows[claim.attempt];
       row.run == run && row.token == claim.token && row.request == claim.request && row.plan == claim.plan
       && row.phase != Queued
  }

  /** `recover` and `recover_claim`, which an executor also runs at its end. They
      only read. */
  function MoveReader(rules: Rules, s: State, i: nat): (t: State)
    requires i < |s.processes|
    ensures |t.processes| == |s.processes|
  {
    var p := s.processes[i];
    var a := p.role.Attempt();
    var f := FilesOf(s, a);
    match p.place
    case ReadClaim =>
      if p.role.Recoverer? && f.claim.Some? && f.claim.value.attempt == a && f.claim.value.run == p.role.run then
        Goto(s, i, AskRow(f.claim.value))
      else Goto(s, i, Stopped)
    case AskRow(claim) =>
      if p.role.Recoverer? && Knows(s, p.role.run, claim) then Goto(s, i, ReadInput(claim)) else Goto(s, i, Stopped)
    case ReadInput(claim) =>
      if f.input.None? || (p.role.Executor? && f.input.value != p.role.input) then Goto(s, i, Stopped)
      else Goto(s, i, ReadIndex(claim, f.input.value))
    case ReadIndex(claim, item) =>
      if f.index.None? then Goto(s, i, Stopped) else Goto(s, i, Load(claim, item, f.index.value))
    case Load(claim, item, ref) =>
      if ref !in s.receipts then Goto(s, i, Stopped)
      else
        var built := rules.rebuild(claim, s.receipts[ref], item);
        if built.None? then Goto(s, i, Stopped)
        else
          var result := Returned(a, ref, built.value);
          Goto(s.(results := s.results + [result]), i, Settle(claim, result))
    case _ => s
  }

  /** `settle_generation_attempt`: a running attempt is settled under its token
      while its lease lasts; a settled one takes the same result again. */
  function MoveSettler(s: State, i: nat, w: Outside): State
    requires i < |s.processes| && s.processes[i].place.Settle?
  {
    var claim, result := s.processes[i].place.claim, s.processes[i].place.result;
    var a := result.attempt;
    if a !in s.rows || !w.valid then Goto(s, i, Stopped)
    else
      var row := s.rows[a];
      match row.phase
      case Settled(r) => Goto(s, i, if row.token == claim.token && r == result then Finished else Stopped)
      case Running =>
        if row.token == claim.token && w.live then
          Goto(s.(rows := s.rows[a := row.(phase := Settled(result))]), i, Finished)
        else Goto(s.(rows := s.rows[a := row.(phase := if w.live then Running else Lapsed)]), i, Stopped)
      case _ => Goto(s, i, Stopped)
  }

  predicate Writes(p: Place) {
    p == WriteClaim || p == Mark || p == WriteInput || p == Invoke || p.PublishReceipt? || p.WriteIndex?
  }

  function RepositoryStep(s: State, step: Step): State
    requires step.Queue? || step.HandOut? || step.Lapse?
  {
    var a := step.attempt;
    match step
    case Queue(_, run, request, plan) =>
      if a in s.rows then s else s.(rows := s.rows[a := Row(run, 0, request, plan, Queued)])
    case HandOut(_, token) =>
      if a in s.rows && s.rows[a].phase == Queued then
        s.(rows := s.rows[a := s.rows[a].(token := token, phase := Running)])
      else s
    case Lapse(_) =>
      if a in s.rows && s.rows[a].phase == Running then s.(rows := s.rows[a := s.rows[a].(phase := Lapsed)]) else s
  }

  function Apply(rules: Rules, s: State, step: Step): State {
    match step
    case Start(role) =>
      s.(processes := s.processes + [Process(role, if role.Executor? then WriteClaim else ReadClaim)])
    case Move(i, w) =>
      if i >= |s.processes| then s
      else if s.processes[i].role.Executor? && Writes(s.processes[i].place) then MoveExecutor(rules, s, i, w.receipt)
      else if s.processes[i].place.Settle? then MoveSettler(s, i, w)
      else MoveReader(rules, s, i)
    case Crash(i) =>
      if i < |s.processes| && s.processes[i].place != Finished then Goto(s, i, Stopped) else s
    case _ => RepositoryStep(s, step)
  }

  function After(rules: Rules, s: State, steps: seq<Step>): State
    decreases |steps|
  {
    if steps == [] then s else After(rules, Apply(rules, s, steps[0]), steps[1..])
  }

  // ---------- The invariant

  /** The process made the marker and has not run yet. */
  predicate BeforeRun(p: Place) { p == WriteInput || p == Invoke }

  predicate Holds(p: Place) { BeforeRun(p) || p.PublishReceipt? || p.WriteIndex? }

  /** What a process knows agrees with the files. */
  predicate ProcessOk(s: State, i: nat)
    requires i < |s.processes|
  {
    var p := s.processes[i];
    var f := FilesOf(s, p.role.Attempt());
    && (p.role.Recoverer? ==> !Writes(p.place))
    && (p.role.Executor? && p.place != WriteClaim && p.place != Stopped ==>
          f.claim == Some(p.role.claim) && p.place != ReadClaim && !p.place.AskRow?)
    && (Holds(p.place) ==> f.started == Some(i))
    && (p.place.PublishReceipt? ==> p.place.receipt.attempt == p.role.Attempt())
    && (p.place.WriteIndex? ==>
          p.place.made in s.receipts && s.receipts[p.place.made].attempt == p.role.Attempt())
    && (p.place.AskRow? || p.place.ReadInput? || p.place.ReadIndex? || p.place.Load? || p.place.Settle? ==>
          f.claim == Some(p.place.claim))
    && (p.place.ReadIndex? || p.place.Load? ==> f.input == Some(p.place.item))
    && (p.place.Load? ==> f.index == Some(p.place.ref))
    && (p.place.Settle? ==> p.place.result in s.results && p.place.result.attempt == p.role.Attempt())
  }

  /** An invocation was made by the executor that owns the marker, which is now
      past it. */
  predicate InvocationOk(s: State, v: Invocation) {
    && v.process < |s.processes| && s.processes[v.process].role.Executor?
    && FilesOf(s, v.attempt).started == Some(v.process)
    && s.processes[v.process].role.Attempt() == v.attempt
    && !BeforeRun(s.processes[v.process].place)
    && s.processes[v.process].place != WriteClaim && s.processes[v.process].place != Mark
  }

  predicate IndexOk(s: State, a: nat) {
    FilesOf(s, a).index.Some? ==>
      FilesOf(s, a).index.value in s.receipts && s.receipts[FilesOf(s, a).index.value].attempt == a
  }

  /** A returned result is what the attempt's files determine. */
  predicate ResultOk(rules: Rules, s: State, r: Returned) {
    var f := FilesOf(s, r.attempt);
    && f.claim.Some? && f.input.Some? && f.index == Some(r.ref) && r.ref in s.receipts
    && rules.rebuild(f.claim.value, s.receipts[r.ref], f.input.value) == Some(r.batch)
  }

  predicate ClaimOk(s: State, a: nat) { FilesOf(s, a).claim.Some? ==> FilesOf(s, a).claim.value.attempt == a }

  /** A settled row holds a result that was rebuilt for its attempt. */
  predicate RowOk(s: State, a: nat) {
    a in s.rows && s.rows[a].phase.Settled? ==>
      s.rows[a].phase.result in s.results && s.rows[a].phase.result.attempt == a
  }

  predicate Inv(rules: Rules, s: State) {
    && (forall i | 0 <= i < |s.processes| :: ProcessOk(s, i))
    && (forall k | 0 <= k < |s.invocations| :: InvocationOk(s, s.invocations[k]))
    && (forall j, k | 0 <= j < k < |s.invocations| :: s.invocations[j].attempt != s.invocations[k].attempt)
    && (forall a | a in s.files :: IndexOk(s, a) && ClaimOk(s, a))
    && (forall d | d in s.receipts :: d == rules.address(s.receipts[d]))
    && (forall k | 0 <= k < |s.results| :: ResultOk(rules, s, s.results[k]))
    && (forall a | a in s.rows :: RowOk(s, a))
    && forall a | a in s.files :: FilesOf(s, a).started.Some? ==> FilesOf(s, a).started.value < |s.processes|
  }

  /** Files are only added, never changed. */
  predicate Grew(f: Files, g: Files) {
    && (f.claim.Some? ==> g.claim == f.claim) && (f.started.Some? ==> g.started == f.started)
    && (f.input.Some? ==> g.input == f.input) && (f.index.Some? ==> g.index == f.index)
  }

  ghost predicate Extends(s: State, t: State) {
    && (forall a :: Grew(FilesOf(s, a), FilesOf(t, a)))
    && (forall d | d in s.receipts :: d in t.receipts && t.receipts[d] == s.receipts[d])
    && (forall r | r in s.results :: r in t.results)
  }

  predicate Early(p: Place) { BeforeRun(p) || p == WriteClaim || p == Mark }

  // ---------- One process moves

  lemma OtherOk(s: State, t: State, j: nat)
    requires j < |s.processes| <= |t.processes| && t.processes[j] == s.processes[j]
    requires ProcessOk(s, j) && Extends(s, t)
    ensures ProcessOk(t, j)
  {
    var a := s.processes[j].role.Attempt();
    assert Grew(FilesOf(s, a), FilesOf(t, a));
  }

  lemma InvocationKept(s: State, t: State, v: Invocation)
    requires InvocationOk(s, v) && Extends(s, t) && |s.processes| <= |t.processes|
    requires t.processes[v.process].role == s.processes[v.process].role
    requires Early(t.processes[v.process].place) ==> Early(s.processes[v.process].place)
    ensures InvocationOk(t, v)
  {
    assert Grew(FilesOf(s, v.attempt), FilesOf(t, v.attempt));
  }

  lemma ResultKept(rules: Rules, s: State, t: State, r: Returned)
    requires ResultOk(rules, s, r) && Extends(s, t)
    ensures ResultOk(rules, t, r)
  {
    assert Grew(FilesOf(s, r.attempt), FilesOf(t, r.attempt));
  }

  /** Only attempt `a`'s files differ, and they only grew. */
  ghost predicate FilesMoved(s: State, t: State, a: nat) {
    && (forall b | b in t.files :: b in s.files || b == a)
    && (forall b | b != a :: FilesOf(t, b) == FilesOf(s, b))
    && Grew(FilesOf(s, a), FilesOf(t, a))
  }

  /** A step of process `i` that keeps its own facts keeps everybody's. */
  lemma Framed(rules: Rules, s: State, t: State, i: nat)
    requires Inv(rules, s) && i < |s.processes| && |t.processes| == |s.processes|
    requires t.processes == s.processes[i := t.processes[i]] && t.processes[i].role == s.processes[i].role
    requires FilesMoved(s, t, s.processes[i].role.Attempt())
    requires forall d | d in s.receipts :: d in t.receipts && t.receipts[d] == s.receipts[d]
    requires forall d | d in t.receipts :: d == rules.address(t.receipts[d])
    requires t.invocations == s.invocations && t.results == s.results && t.rows == s.rows
    requires ProcessOk(t, i) && (Early(t.processes[i].place) ==> Early(s.processes[i].place))
    requires var a := s.processes[i].role.Attempt();
             IndexOk(t, a) && ClaimOk(t, a)
             && (FilesOf(t, a).started.Some? ==> FilesOf(t, a).started.value < |s.processes|)
    ensures Inv(rules, t)
  {
    hide ProcessOk, InvocationOk, ResultOk, Early, IndexOk, ClaimOk;
    assert Extends(s, t);
    forall j | 0 <= j < |t.processes| ensures ProcessOk(t, j) {
      if j != i { OtherOk(s, t, j); }
    }
    forall k | 0 <= k < |t.invocations| ensures InvocationOk(t, t.invocations[k]) {
      InvocationBound(s, s.invocations[k]);
      InvocationKept(s, t, s.invocations[k]);
    }
    forall k | 0 <= k < |t.results| ensures ResultOk(rules, t, t.results[k]) {
      ResultKept(rules, s, t, s.results[k]);
    }
    forall b | b in t.files ensures IndexOk(t, b) && ClaimOk(t, b) {
      if b != s.processes[i].role.Attempt() { FilesKept(s, t, b); }
    }
    forall b | b in t.rows ensures RowOk(t, b) { RowKept(s, t, b); }
  }

  lemma RowKept(s: State, t: State, b: nat)
    requires RowOk(s, b) && (b in t.rows ==> b in s.rows && t.rows[b] == s.rows[b])
    requires forall r | r in s.results :: r in t.results
    ensures RowOk(t, b)
  {
  }

  /** Only a row differs, and it is in order. */
  lemma RowMoved(rules: Rules, s: State, a: nat, row: Row)
    requires Inv(rules, s) && RowOk(s.(rows := s.rows[a := row]), a)
    ensures Inv(rules, s.(rows := s.rows[a := row]))
  {
    hide InvocationOk, ResultOk, IndexOk, ClaimOk, ProcessOk;
    var t := s.(rows := s.rows[a := row]);
    assert Extends(s, t);
    forall j | 0 <= j < |t.processes| ensures ProcessOk(t, j) { OtherOk(s, t, j); }
    forall k | 0 <= k < |t.invocations| ensures InvocationOk(t, t.invocations[k]) {
      InvocationBound(s, t.invocations[k]);
      InvocationKept(s, t, t.invocations[k]);
    }
    forall k | 0 <= k < |t.results| ensures ResultOk(rules, t, t.results[k]) { ResultKept(rules, s, t, t.results[k]); }
    forall b | b in t.files ensures IndexOk(t, b) && ClaimOk(t, b) { FilesKept(s, t, b); }
    forall b | b in t.rows ensures RowOk(t, b) {
      if b != a { RowKept(s, t, b); }
    }
  }

  lemma InvocationBound(s: State, v: Invocation)
    requires InvocationOk(s, v)
    ensures v.process < |s.processes|
  {
  }

  lemma FilesKept(s: State, t: State, b: nat)
    requires FilesOf(t, b) == FilesOf(s, b) && IndexOk(s, b) && ClaimOk(s, b)
    requires forall d | d in s.receipts :: d in t.receipts && t.receipts[d] == s.receipts[d]
    ensures IndexOk(t, b) && ClaimOk(t, b)
  {
  }

  lemma FilesFacts(rules: Rules, s: State, a: nat)
    requires Inv(rules, s)
    ensures IndexOk(s, a) && ClaimOk(s, a)
    ensures FilesOf(s, a).started.Some? ==> FilesOf(s, a).started.value < |s.processes|
  {
  }

  lemma GotoKeeps(rules: Rules, s: State, i: nat, place: Place)
    requires Inv(rules, s) && i < |s.processes| && ProcessOk(Goto(s, i, place), i)
    requires Early(place) ==> Early(s.processes[i].place)
    ensures Inv(rules, Goto(s, i, place))
  {
    hide ProcessOk, Early, IndexOk, ClaimOk, InvocationOk, ResultOk;
    FilesFacts(rules, s, s.processes[i].role.Attempt());
    var t := Goto(s, i, place);
    FilesKept(s, t, s.processes[i].role.Attempt());
    Framed(rules, s, t, i);
  }

  lemma StopKeeps(rules: Rules, s: State, i: nat)
    requires Inv(rules, s) && i < |s.processes|
    ensures Inv(rules, Goto(s, i, Stopped))
  {
    hide Inv, FilesOf;
    StopOk(rules, s, i);
    GotoKeeps(rules, s, i, Stopped);
  }

  lemma StopOk(rules: Rules, s: State, i: nat)
    requires Inv(rules, s) && i < |s.processes|
    ensures ProcessOk(Goto(s, i, Stopped), i)
  {
    hide FilesOf;
  }

  /** The executor's steps, one at a time. */
  lemma WriteClaimKeeps(rules: Rules, s: State, i: nat, r: Receipt)
    requires Inv(rules, s) && i < |s.processes| && s.processes[i].role.Executor?
    requires s.processes[i].place == WriteClaim
    ensures Inv(rules, MoveExecutor(rules, s, i, r))
  {
    hide Inv;
    var a, t := s.processes[i].role.claim.attempt, MoveExecutor(rules, s, i, r);
    StopKeeps(rules, s, i);
    FilesFacts(rules, s, a);
    if t != Goto(s, i, Stopped) {
      ReceiptsAddressed(rules, s);
      Framed(rules, s, t, i);
    }
  }

  lemma ReceiptsAddressed(rules: Rules, s: State)
    requires Inv(rules, s)
    ensures forall d | d in s.receipts :: d == rules.address(s.receipts[d])
  {
  }

  lemma OwnOk(rules: Rules, s: State, i: nat)
    requires Inv(rules, s) && i < |s.processes|
    ensures ProcessOk(s, i)
  {
  }

  lemma MarkKeeps(rules: Rules, s: State, i: nat, r: Receipt)
    requires Inv(rules, s) && i < |s.processes| && s.processes[i].role.Executor?
    requires s.processes[i].place == Mark
    ensures Inv(rules, MoveExecutor(rules, s, i, r))
  {
    hide Inv;
    var a, t := s.processes[i].role.claim.attempt, MoveExecutor(rules, s, i, r);
    StopKeeps(rules, s, i);
    FilesFacts(rules, s, a);
    OwnOk(rules, s, i);
    if t != Goto(s, i, Stopped) {
      ReceiptsAddressed(rules, s);
      Framed(rules, s, t, i);
    }
  }

  lemma WriteInputKeeps(rules: Rules, s: State, i: nat, r: Receipt)
    requires Inv(rules, s) && i < |s.processes| && s.processes[i].role.Executor?
    requires s.processes[i].place == WriteInput
    ensures Inv(rules, MoveExecutor(rules, s, i, r))
  {
    hide Inv;
    var a, t := s.processes[i].role.claim.attempt, MoveExecutor(rules, s, i, r);
    StopKeeps(rules, s, i);
    FilesFacts(rules, s, a);
    OwnOk(rules, s, i);
    if t != Goto(s, i, Stopped) {
      ReceiptsAddressed(rules, s);
      Framed(rules, s, t, i);
    }
  }

  lemma WriteIndexKeeps(rules: Rules, s: State, i: nat, r: Receipt)
    requires Inv(rules, s) && i < |s.processes| && s.processes[i].role.Executor?
    requires s.processes[i].place.WriteIndex?
    ensures Inv(rules, MoveExecutor(rules, s, i, r))
  {
    hide Inv;
    var a, t := s.processes[i].role.claim.attempt, MoveExecutor(rules, s, i, r);
    StopKeeps(rules, s, i);
    FilesFacts(rules, s, a);
    OwnOk(rules, s, i);
    if t != Goto(s, i, Stopped) {
      ReceiptsAddressed(rules, s);
      Framed(rules, s, t, i);
    }
  }

  lemma PublishKeeps(rules: Rules, s: State, i: nat, r: Receipt)
    requires Sound(rules)
    requires Inv(rules, s) && i < |s.processes| && s.processes[i].role.Executor?
    requires s.processes[i].place.PublishReceipt?
    ensures Inv(rules, MoveExecutor(rules, s, i, r))
  {
    hide Inv;
    var a, t := s.processes[i].role.claim.attempt, MoveExecutor(rules, s, i, r);
    FilesFacts(rules, s, a);
    OwnOk(rules, s, i);
    ReceiptsAddressed(rules, s);
    Framed(rules, s, t, i);
  }

  /** The one step that runs the runner: nobody ran it for this attempt before. */
  lemma InvokeKeeps(rules: Rules, s: State, i: nat, r: Receipt)
    requires Inv(rules, s) && i < |s.processes| && s.processes[i].role.Executor?
    requires s.processes[i].place == Invoke
    ensures Inv(rules, MoveExecutor(rules, s, i, r))
  {
    var a := s.processes[i].role.claim.attempt;
    var place := if r.attempt == a then PublishReceipt(r) else Stopped;
    var u := Goto(s, i, place);
    OwnOk(rules, s, i);
    NotYetInvoked(rules, s, i);
    assert ProcessOk(u, i) by { hide Inv; }
    GotoKeeps(rules, s, i, place);
    var v := Invocation(i, a);
    assert InvocationOk(u, v) by { hide Inv; }
    hide InvocationOk, ProcessOk, ResultOk, IndexOk, ClaimOk;
    AddInvocation(rules, u, v);
  }

  lemma NotYetInvoked(rules: Rules, s: State, i: nat)
    requires Inv(rules, s) && i < |s.processes| && s.processes[i].place == Invoke
    ensures forall k | 0 <= k < |s.invocations| :: s.invocations[k].attempt != s.processes[i].role.Attempt()
  {
    hide ResultOk, IndexOk, ClaimOk;
    assert ProcessOk(s, i);
    forall k | 0 <= k < |s.invocations| ensures s.invocations[k].attempt != s.processes[i].role.Attempt() {
      assert InvocationOk(s, s.invocations[k]);
    }
  }

  /** Processes as before, and more of everything else. */
  lemma Kept(rules: Rules, s: State, t: State)
    requires Inv(rules, s) && t.processes == s.processes && t.files == s.files && t.receipts == s.receipts
    requires t.rows == s.rows && forall r | r in s.results :: r in t.results
    ensures Extends(s, t)
    ensures forall j | 0 <= j < |t.processes| :: ProcessOk(t, j)
    ensures forall v | InvocationOk(s, v) :: InvocationOk(t, v)
    ensures forall r | ResultOk(rules, s, r) :: ResultOk(rules, t, r)
    ensures forall b | b in t.files :: IndexOk(t, b) && ClaimOk(t, b)
    ensures forall b | b in t.rows :: RowOk(t, b)
  {
    hide InvocationOk, ResultOk, IndexOk, ClaimOk, ProcessOk, RowOk;
    forall j | 0 <= j < |t.processes| ensures ProcessOk(t, j) { OtherOk(s, t, j); }
    forall v | InvocationOk(s, v) ensures InvocationOk(t, v) {
      InvocationBound(s, v);
      InvocationKept(s, t, v);
    }
    forall r | ResultOk(rules, s, r) ensures ResultOk(rules, t, r) { ResultKept(rules, s, t, r); }
    forall b | b in t.files ensures IndexOk(t, b) && ClaimOk(t, b) { FilesKept(s, t, b); }
    forall b | b in t.rows ensures RowOk(t, b) { RowKept(s, t, b); }
  }

  lemma AddInvocation(rules: Rules, u: State, v: Invocation)
    requires Inv(rules, u) && InvocationOk(u, v)
    requires forall k | 0 <= k < |u.invocations| :: u.invocations[k].attempt != v.attempt
    ensures Inv(rules, u.(invocations := u.invocations + [v]))
  {
    hide InvocationOk, ResultOk, IndexOk, ClaimOk, ProcessOk, RowOk;
    var t := u.(invocations := u.invocations + [v]);
    Kept(rules, u, t);
  }

  /** A reader may go on with what the files hold. */
  lemma ReadOn(rules: Rules, s: State, i: nat, place: Place)
    requires Inv(rules, s) && i < |s.processes|
    requires var f := FilesOf(s, s.processes[i].role.Attempt());
             var was := s.processes[i].place;
             || (place.AskRow? && was == ReadClaim && f.claim == Some(place.claim))
             || (place.ReadInput? && was.AskRow? && place.claim == was.claim)
             || (place.ReadIndex? && was.ReadInput? && place.claim == was.claim && f.input == Some(place.item))
             || (place.Load? && was.ReadIndex? && place.claim == was.claim && place.item == was.item
                 && f.index == Some(place.ref))
    ensures Inv(rules, Goto(s, i, place))
  {
    hide Inv;
    OwnOk(rules, s, i);
    ReadOnOk(s, i, place);
    hide ProcessOk;
    GotoKeeps(rules, s, i, place);
  }

  lemma ReadOnOk(s: State, i: nat, place: Place)
    requires i < |s.processes| && ProcessOk(s, i)
    requires var f := FilesOf(s, s.processes[i].role.Attempt());
             var was := s.processes[i].place;
             || (place.AskRow? && was == ReadClaim && f.claim == Some(place.claim))
             || (place.ReadInput? && was.AskRow? && place.claim == was.claim)
             || (place.ReadIndex? && was.ReadInput? && place.claim == was.claim && f.input == Some(place.item))
             || (place.Load? && was.ReadIndex? && place.claim == was.claim && place.item == was.item
                 && f.index == Some(place.ref))
    ensures ProcessOk(Goto(s, i, place), i)
  {
  }

  lemma ReaderKeeps(rules: Rules, s: State, i: nat)
    requires Inv(rules, s) && i < |s.processes|
    ensures Inv(rules, MoveReader(rules, s, i))
  {
    hide Inv, Knows, ProcessOk;
    StopKeeps(rules, s, i);
    var p := s.processes[i];
    var f := FilesOf(s, p.role.Attempt());
    match p.place
    case ReadClaim =>
      if p.role.Recoverer? && f.claim.Some? && f.claim.value.attempt == p.role.attempt
         && f.claim.value.run == p.role.run {
        ReadOn(rules, s, i, AskRow(f.claim.value));
      }
    case AskRow(claim) =>
      if p.role.Recoverer? && Knows(s, p.role.run, claim) { ReadOn(rules, s, i, ReadInput(claim)); }
    case ReadInput(claim) =>
      if f.input.Some? && !(p.role.Executor? && f.input.value != p.role.input) {
        ReadOn(rules, s, i, ReadIndex(claim, f.input.value));
      }
    case ReadIndex(claim, item) => if f.index.Some? { ReadOn(rules, s, i, Load(claim, item, f.index.value)); }
    case Load(claim, item, ref) => LoadKeeps(rules, s, i);
    case _ =>
  }

  lemma LoadedOk(rules: Rules, s: State, i: nat)
    requires Inv(rules, s) && i < |s.processes| && s.processes[i].place.Load?
    requires s.processes[i].place.ref in s.receipts
    requires var p := s.processes[i].place; rules.rebuild(p.claim, s.receipts[p.ref], p.item).Some?
    ensures var p := s.processes[i].place;
            var result := Returned(s.processes[i].role.Attempt(), p.ref, rules.rebuild(p.claim, s.receipts[p.ref], p.item).value);
            && ResultOk(rules, s, result)
            && ProcessOk(Goto(s.(results := s.results + [result]), i, Settle(p.claim, result)), i)
  {
    OwnOk(rules, s, i);
    hide Inv;
  }

  lemma LoadKeeps(rules: Rules, s: State, i: nat)
    requires Inv(rules, s) && i < |s.processes| && s.processes[i].place.Load?
    ensures Inv(rules, MoveReader(rules, s, i))
  {
    hide Inv, ProcessOk, ResultOk;
    StopKeeps(rules, s, i);
    var p := s.processes[i].place;
    if p.ref in s.receipts && rules.rebuild(p.claim, s.receipts[p.ref], p.item).Some? {
      LoadedOk(rules, s, i);
      var result := Returned(s.processes[i].role.Attempt(), p.ref, rules.rebuild(p.claim, s.receipts[p.ref], p.item).value);
      AddResult(rules, s, result);
      GotoKeeps(rules, s.(results := s.results + [result]), i, Settle(p.claim, result));
    }
  }

  lemma SettledRowOk(rules: Rules, s: State, i: nat)
    requires Inv(rules, s) && i < |s.processes| && s.processes[i].place.Settle?
    ensures var result := s.processes[i].place.result;
            forall row: Row | !row.phase.Settled? || row.phase.result == result ::
              RowOk(s.(rows := s.rows[result.attempt := row]), result.attempt)
  {
    OwnOk(rules, s, i);
    hide Inv;
  }

  lemma SettlerKeeps(rules: Rules, s: State, i: nat, w: Outside)
    requires Inv(rules, s) && i < |s.processes| && s.processes[i].place.Settle?
    ensures Inv(rules, MoveSettler(s, i, w))
  {
    hide Inv, ProcessOk, RowOk;
    OwnOk(rules, s, i);
    SettledRowOk(rules, s, i);
    var a := s.processes[i].place.result.attempt;
    StopKeeps(rules, s, i);
    if a in s.rows {
      var t := MoveSettler(s, i, w);
      var row := t.rows[a];
      assert s.(rows := s.rows[a := s.rows[a]]) == s;
      if row.phase.Settled? && s.rows[a].phase == row.phase {
        MovedThere(rules, s, i, a, s.rows[a], Finished);
        assert Goto(s.(rows := s.rows[a := s.rows[a]]), i, Finished) == Goto(s, i, Finished);
      } else {
        RowMoved(rules, s, a, row);
        MovedThere(rules, s, i, a, row, t.processes[i].place);
      }
    }
  }

  lemma MovedThere(rules: Rules, s: State, i: nat, a: nat, row: Row, place: Place)
    requires i < |s.processes| && Inv(rules, s.(rows := s.rows[a := row])) && (place == Finished || place == Stopped)
    requires ProcessOk(s, i) && s.processes[i].place.Settle?
    ensures Inv(rules, Goto(s.(rows := s.rows[a := row]), i, place))
  {
    var u := s.(rows := s.rows[a := row]);
    assert ProcessOk(Goto(u, i, place), i) by { hide Inv; }
    hide Inv, ProcessOk;
    GotoKeeps(rules, u, i, place);
  }

  lemma RepositoryKeeps(rules: Rules, s: State, step: Step)
    requires Inv(rules, s) && (step.Queue? || step.HandOut? || step.Lapse?)
    ensures Inv(rules, RepositoryStep(s, step))
  {
    var a, t := step.attempt, RepositoryStep(s, step);
    if t != s { RowMoved(rules, s, a, t.rows[a]); }
  }

  lemma AddResult(rules: Rules, u: State, r: Returned)
    requires Inv(rules, u) && ResultOk(rules, u, r)
    ensures Inv(rules, u.(results := u.results + [r]))
  {
    hide InvocationOk, ResultOk, IndexOk, ClaimOk, ProcessOk, RowOk;
    var t := u.(results := u.results + [r]);
    Kept(rules, u, t);
  }

  lemma NewOk(s: State, role: Role)
    ensures var t := s.(processes := s.processes + [Process(role, if role.Executor? then WriteClaim else ReadClaim)]);
            ProcessOk(t, |s.processes|)
  {
  }

  lemma StartKeeps(rules: Rules, s: State, role: Role)
    requires Inv(rules, s)
    ensures Inv(rules, Apply(rules, s, Start(role)))
  {
    hide InvocationOk, ResultOk, IndexOk, ClaimOk, ProcessOk, RowOk;
    var t := Apply(rules, s, Start(role));
    assert Extends(s, t);
    NewOk(s, role);
    forall j | 0 <= j < |t.processes| ensures ProcessOk(t, j) {
      if j < |s.processes| { OtherOk(s, t, j); }
    }
    forall k | 0 <= k < |t.invocations| ensures InvocationOk(t, t.invocations[k]) {
      InvocationBound(s, t.invocations[k]);
      InvocationKept(s, t, t.invocations[k]);
    }
    forall k | 0 <= k < |t.results| ensures ResultOk(rules, t, t.results[k]) { ResultKept(rules, s, t, t.results[k]); }
    forall b | b in t.files ensures IndexOk(t, b) && ClaimOk(t, b) { FilesKept(s, t, b); }
    forall b | b in t.rows ensures RowOk(t, b) { RowKept(s, t, b); }
  }

  lemma ApplyKeeps(rules: Rules, s: State, step: Step)
    requires Sound(rules) && Inv(rules, s)
    ensures Inv(rules, Apply(rules, s, step))
  {
    hide Inv, MoveReader, MoveExecutor, MoveSettler, RepositoryStep;
    match step
    case Start(role) => StartKeeps(rules, s, role);
    case Move(i, w) =>
      if i < |s.processes| {
        if s.processes[i].role.Executor? && Writes(s.processes[i].place) {
          match s.processes[i].place
          case WriteClaim => WriteClaimKeeps(rules, s, i, w.receipt);
          case Mark => MarkKeeps(rules, s, i, w.receipt);
          case WriteInput => WriteInputKeeps(rules, s, i, w.receipt);
          case Invoke => InvokeKeeps(rules, s, i, w.receipt);
          case PublishReceipt(_) => PublishKeeps(rules, s, i, w.receipt);
          case WriteIndex(_) => WriteIndexKeeps(rules, s, i, w.receipt);
        } else if s.processes[i].place.Settle? {
          SettlerKeeps(rules, s, i, w);
        } else {
          ReaderKeeps(rules, s, i);
        }
      }
    case Crash(i) => if i < |s.processes| { StopKeeps(rules, s, i); }
    case _ => RepositoryKeeps(rules, s, step);
  }

  lemma {:induction false} RunKeeps(rules: Rules, s: State, steps: seq<Step>)
    requires Sound(rules) && Inv(rules, s)
    ensures Inv(rules, After(rules, s, steps))
    decreases |steps|
  {
    hide Inv, Apply;
    if steps != [] {
      ApplyKeeps(rules, s, steps[0]);
      RunKeeps(rules, Apply(rules, s, steps[0]), steps[1..]);
    }
  }

  lemma Reached(rules: Rules, steps: seq<Step>)
    requires Sound(rules)
    ensures Inv(rules, After(rules, EMPTY, steps))
  {
    assert Inv(rules, EMPTY);
    hide Inv, After;
    RunKeeps(rules, EMPTY, steps);
  }

  // ---------- The theorems

  /** Over every run, with any number of workers, recoveries and crashes, an
      attempt invokes the runner at most once, and never from a recovery. */
  lemma InvokedAtMostOnce(rules: Rules, steps: seq<Step>)
    requires Sound(rules)
    ensures var s := After(rules, EMPTY, steps);
            && (forall j, k | 0 <= j < k < |s.invocations| :: s.invocations[j].attempt != s.invocations[k].attempt)
            && forall k | 0 <= k < |s.invocations| ::
                 s.invocations[k].process < |s.processes| && s.processes[s.invocations[k].process].role.Executor?
  {
    hide After, ProcessOk, ResultOk, IndexOk, ClaimOk, FilesOf;
    Reached(rules, steps);
    var s := After(rules, EMPTY, steps);
    forall k | 0 <= k < |s.invocations|
      ensures s.invocations[k].process < |s.processes| && s.processes[s.invocations[k].process].role.Executor?
    {
      assert InvocationOk(s, s.invocations[k]);
    }
  }

  /** Whoever brings a result of an attempt to settlement brings the same receipt
      and the same batch, the receipt belongs to that attempt, and nothing else
      can have been settled. */
  lemma ResultsAgree(rules: Rules, steps: seq<Step>, j: nat, k: nat)
    requires Sound(rules)
    requires var s := After(rules, EMPTY, steps);
             j < |s.results| && k < |s.results| && s.results[j].attempt == s.results[k].attempt
    ensures var s := After(rules, EMPTY, steps);
            var r := s.results[j];
            && r == s.results[k] && r.ref in s.receipts && s.receipts[r.ref].attempt == r.attempt
            && (r.attempt in s.rows && s.rows[r.attempt].phase.Settled? ==> s.rows[r.attempt].phase.result == r)
  {
    hide After, ProcessOk, InvocationOk;
    Reached(rules, steps);
    var s := After(rules, EMPTY, steps);
    var a := s.results[j].attempt;
    assert ResultOk(rules, s, s.results[j]) && ResultOk(rules, s, s.results[k]);
    FilesFacts(rules, s, a);
    if a in s.rows && s.rows[a].phase.Settled? {
      assert RowOk(s, a);
      var m :| 0 <= m < |s.results| && s.results[m] == s.rows[a].phase.result;
      assert ResultOk(rules, s, s.results[m]);
    }
  }

  // ---------- Recovery

  /** What a recovery of attempt `a` needs to find in the files. */
  predicate Recoverable(rules: Rules, s: State, run: nat, a: nat) {
    var f := FilesOf(s, a);
    f.claim.Some? && f.claim.value.run == run && f.input.Some? && f.index.Some? && f.index.value in s.receipts
    && rules.rebuild(f.claim.value, s.receipts[f.index.value], f.input.value).Some?
  }

  /** What the repository must answer: its row has the claim's run, token and
      hashes, its own reading of the evidence passes, and the attempt is either
      settled or running under a lease that lasts. */
  predicate Accepts(s: State, run: nat, a: nat, w: Outside) {
    && FilesOf(s, a).claim.Some? && a in s.rows
    && var claim, row := FilesOf(s, a).claim.value, s.rows[a];
       && claim.attempt == a && row.run == run && row.token == claim.token
       && row.request == claim.request && row.plan == claim.plan
       && w.valid && (row.phase.Settled? || (row.phase == Running && w.live))
  }

  /** The moves of process `i` alone, all with the same answers from outside. */
  function Moves(rules: Rules, s: State, i: nat, w: Outside, times: nat): (t: State)
    decreases times
  {
    if times == 0 then s else Moves(rules, Apply(rules, s, Move(i, w)), i, w, times - 1)
  }

  lemma MovesMore(rules: Rules, s: State, i: nat, w: Outside, times: nat)
    requires times > 0
    ensures Moves(rules, s, i, w, times) == Moves(rules, Apply(rules, s, Move(i, w)), i, w, times - 1)
    ensures Moves(rules, s, i, w, 0) == s
  {
  }

  /** A finished or stopped process does not move. */
  lemma {:induction false} Resting(rules: Rules, s: State, i: nat, w: Outside, times: nat)
    requires i < |s.processes| && (s.processes[i].place == Finished || s.processes[i].place == Stopped)
    ensures Moves(rules, s, i, w, times) == s
    decreases times
  {
    if times > 0 { Resting(rules, s, i, w, times - 1); }
  }

  function With(s: State, run: nat, a: nat, place: Place): State {
    s.(processes := s.processes + [Process(Recoverer(run, a), place)])
  }

  lemma GoneTo(s: State, run: nat, a: nat, place: Place, next: Place)
    ensures Goto(With(s, run, a, place), |s.processes|, next) == With(s, run, a, next)
  {
  }

  /** One reading step of a recovery. */
  lemma ReadStep(rules: Rules, s: State, run: nat, a: nat, place: Place, w: Outside)
    requires !Writes(place) && !place.Settle?
    ensures Apply(rules, With(s, run, a, place), Move(|s.processes|, w))
         == MoveReader(rules, With(s, run, a, place), |s.processes|)
    ensures FilesOf(With(s, run, a, place), a) == FilesOf(s, a)
    ensures forall c :: Knows(With(s, run, a, place), run, c) == Knows(s, run, c)
  {
    hide MoveReader;
  }

  /** The claim is read, and the repository is asked. */
  lemma AskSteps(rules: Rules, s: State, run: nat, a: nat, w: Outside)
    requires ClaimOk(s, a)
    ensures var f := FilesOf(s, a);
            Moves(rules, With(s, run, a, ReadClaim), |s.processes|, w, 2) ==
              With(s, run, a, if f.claim.Some? && f.claim.value.run == run && Knows(s, run, f.claim.value)
                              then ReadInput(f.claim.value) else Stopped)
  {
    hide Apply, Moves, Knows, Goto;
    var i, f := |s.processes|, FilesOf(s, a);
    var u := With(s, run, a, ReadClaim);
    ReadStep(rules, s, run, a, ReadClaim, w);
    MovesMore(rules, u, i, w, 2);
    if f.claim.Some? && f.claim.value.run == run {
      GoneTo(s, run, a, ReadClaim, AskRow(f.claim.value));
      var v := With(s, run, a, AskRow(f.claim.value));
      ReadStep(rules, s, run, a, AskRow(f.claim.value), w);
      GoneTo(s, run, a, AskRow(f.claim.value), ReadInput(f.claim.value));
      GoneTo(s, run, a, AskRow(f.claim.value), Stopped);
      MovesMore(rules, v, i, w, 1);
      MovesMore(rules, Apply(rules, v, Move(i, w)), i, w, 1);
    } else {
      GoneTo(s, run, a, ReadClaim, Stopped);
      Resting(rules, With(s, run, a, Stopped), i, w, 1);
    }
  }

  /** The files are read, and the result is rebuilt. */
  lemma LoadSteps(rules: Rules, s: State, run: nat, a: nat, claim: Claim, w: Outside)
    ensures var f := FilesOf(s, a);
            Moves(rules, With(s, run, a, ReadInput(claim)), |s.processes|, w, 3) ==
              if f.input.Some? && f.index.Some? && f.index.value in s.receipts
                 && rules.rebuild(claim, s.receipts[f.index.value], f.input.value).Some? then
                var result := Returned(a, f.index.value, rules.rebuild(claim, s.receipts[f.index.value], f.input.value).value);
                With(s.(results := s.results + [result]), run, a, Settle(claim, result))
              else With(s, run, a, Stopped)
  {
    hide Apply, Moves, Goto;
    var i, f := |s.processes|, FilesOf(s, a);
    ReadStep(rules, s, run, a, ReadInput(claim), w);
    GoneTo(s, run, a, ReadInput(claim), Stopped);
    MovesMore(rules, With(s, run, a, ReadInput(claim)), i, w, 3);
    Resting(rules, With(s, run, a, Stopped), i, w, 2);
    Resting(rules, With(s, run, a, Stopped), i, w, 1);
    if f.input.Some? {
      var second := ReadIndex(claim, f.input.value);
      GoneTo(s, run, a, ReadInput(claim), second);
      ReadStep(rules, s, run, a, second, w);
      GoneTo(s, run, a, second, Stopped);
      MovesMore(rules, With(s, run, a, second), i, w, 2);
      if f.index.Some? {
        var third := Load(claim, f.input.value, f.index.value);
        GoneTo(s, run, a, second, third);
        LastRead(rules, s, run, a, third, w);
      }
    }
  }

  lemma LastRead(rules: Rules, s: State, run: nat, a: nat, place: Place, w: Outside)
    requires place.Load?
    ensures var built := if place.ref in s.receipts then rules.rebuild(place.claim, s.receipts[place.ref], place.item) else None;
            Moves(rules, With(s, run, a, place), |s.processes|, w, 1) ==
              if built.Some? then
                var result := Returned(a, place.ref, built.value);
                With(s.(results := s.results + [result]), run, a, Settle(place.claim, result))
              else With(s, run, a, Stopped)
  {
    hide Apply, Moves;
    var i, u := |s.processes|, With(s, run, a, place);
    ReadStep(rules, s, run, a, place, w);
    GoneTo(s, run, a, place, Stopped);
    MovesMore(rules, u, i, w, 1);
    MovesMore(rules, Apply(rules, u, Move(i, w)), i, w, 1);
  }

  lemma {:induction false} MovesSplit(rules: Rules, s: State, i: nat, w: Outside, m: nat, n: nat)
    ensures Moves(rules, s, i, w, m + n) == Moves(rules, Moves(rules, s, i, w, m), i, w, n)
    decreases m
  {
    hide Apply;
    if m > 0 { MovesSplit(rules, Apply(rules, s, Move(i, w)), i, w, m - 1, n); }
  }

  /** The result that the files of an attempt determine. */
  function ResultOf(rules: Rules, s: State, run: nat, a: nat): Returned
    requires Recoverable(rules, s, run, a)
  {
    var f := FilesOf(s, a);
    Returned(a, f.index.value, rules.rebuild(f.claim.value, s.receipts[f.index.value], f.input.value).value)
  }

  /** Up to the settlement, a recovery only reads. */
  lemma ReadsToSettle(rules: Rules, s: State, run: nat, a: nat, w: Outside)
    requires ClaimOk(s, a)
    ensures Moves(rules, With(s, run, a, ReadClaim), |s.processes|, w, 5) ==
              if Recoverable(rules, s, run, a) && Knows(s, run, FilesOf(s, a).claim.value) then
                var result := ResultOf(rules, s, run, a);
                With(s.(results := s.results + [result]), run, a, Settle(FilesOf(s, a).claim.value, result))
              else With(s, run, a, Stopped)
  {
    hide Moves, Apply, Knows, With;
    var i, u, f := |s.processes|, With(s, run, a, ReadClaim), FilesOf(s, a);
    MovesSplit(rules, u, i, w, 2, 3);
    AskSteps(rules, s, run, a, w);
    if f.claim.Some? && f.claim.value.run == run && Knows(s, run, f.claim.value) {
      LoadSteps(rules, s, run, a, f.claim.value, w);
    } else {
      StoppedThere(s, run, a);
      Resting(rules, With(s, run, a, Stopped), i, w, 3);
    }
  }

  lemma StoppedThere(s: State, run: nat, a: nat)
    ensures var t := With(s, run, a, Stopped); |t.processes| == |s.processes| + 1 && t.processes[|s.processes|].place == Stopped
  {
  }

  /** A settled row holds the very result that the files determine. */
  lemma SettledIsResult(rules: Rules, s: State, run: nat, a: nat)
    requires Inv(rules, s) && Recoverable(rules, s, run, a) && a in s.rows && s.rows[a].phase.Settled?
    ensures s.rows[a].phase.result == ResultOf(rules, s, run, a)
  {
    hide ProcessOk, InvocationOk, IndexOk, ClaimOk;
    var r := s.rows[a].phase.result;
    assert RowOk(s, a);
    var k :| 0 <= k < |s.results| && s.results[k] == r;
    assert ResultOk(rules, s, s.results[k]);
  }

  /** After any run, a recovery left alone takes six steps and finishes exactly
      when the files determine a result and the repository accepts it. It writes
      no file, publishes no receipt and runs nothing; a running attempt becomes
      settled by its result. */
  lemma RecoveryIff(rules: Rules, steps: seq<Step>, run: nat, a: nat, w: Outside)
    requires Sound(rules)
    ensures var s := After(rules, EMPTY, steps);
            var i := |s.processes|;
            var t := Moves(rules, Apply(rules, s, Start(Recoverer(run, a))), i, w, 6);
            && i < |t.processes|
            && (t.processes[i].place == Finished <==> Recoverable(rules, s, run, a) && Accepts(s, run, a, w))
            && (t.processes[i].place == Stopped <==> !(Recoverable(rules, s, run, a) && Accepts(s, run, a, w)))
            && t.files == s.files && t.receipts == s.receipts && t.invocations == s.invocations
            && (t.results == s.results
                || (Recoverable(rules, s, run, a) && a in s.rows && s.rows[a].phase != Queued
                    && t.results == s.results + [ResultOf(rules, s, run, a)]))
            && (Recoverable(rules, s, run, a) && Accepts(s, run, a, w) ==>
                  a in t.rows && t.rows[a].phase == Settled(ResultOf(rules, s, run, a)))
  {
    hide After, Inv, Moves, Apply, ClaimOk;
    var s := After(rules, EMPTY, steps);
    Reached(rules, steps);
    FilesFacts(rules, s, a);
    StartsThere(rules, s, run, a);
    var i, u := |s.processes|, With(s, run, a, ReadClaim);
    MovesSplit(rules, u, i, w, 5, 1);
    ReadsToSettle(rules, s, run, a, w);
    if Recoverable(rules, s, run, a) && Knows(s, run, FilesOf(s, a).claim.value) {
      if s.rows[a].phase.Settled? { SettledIsResult(rules, s, run, a); }
      var result := ResultOf(rules, s, run, a);
      SettleOnce(rules, s.(results := s.results + [result]), run, a, FilesOf(s, a).claim.value, result, w);
      ClaimNames(s, a);
    } else {
      StoppedThere(s, run, a);
      Resting(rules, With(s, run, a, Stopped), i, w, 1);
    }
  }

  lemma ClaimNames(s: State, a: nat)
    requires ClaimOk(s, a)
    ensures FilesOf(s, a).claim.Some? ==> FilesOf(s, a).claim.value.attempt == a
  {
  }

  lemma StartsThere(rules: Rules, s: State, run: nat, a: nat)
    ensures Apply(rules, s, Start(Recoverer(run, a))) == With(s, run, a, ReadClaim)
  {
  }

  /** The settlement of a known attempt. */
  lemma SettleOnce(rules: Rules, s: State, run: nat, a: nat, claim: Claim, result: Returned, w: Outside)
    requires claim.attempt == a == result.attempt && Knows(s, run, claim)
    requires s.rows[a].phase.Settled? ==> s.rows[a].phase.result == result
    ensures var t := Moves(rules, With(s, run, a, Settle(claim, result)), |s.processes|, w, 1);
            var done := w.valid && (s.rows[a].phase.Settled? || (s.rows[a].phase == Running && w.live));
            && |t.processes| == |s.processes| + 1
            && t.processes[|s.processes|].place == (if done then Finished else Stopped)
            && t.files == s.files && t.receipts == s.receipts && t.invocations == s.invocations
            && t.results == s.results
            && (done ==> a in t.rows && t.rows[a].phase == Settled(result))
  {
    hide Moves;
    var i, u := |s.processes|, With(s, run, a, Settle(claim, result));
    MovesMore(rules, u, i, w, 1);
    MovesMore(rules, Apply(rules, u, Move(i, w)), i, w, 1);
    assert Apply(rules, u, Move(i, w)) == MoveSettler(u, i, w);
  }

  // ---------- A settlement is final

  lemma RowsUntouched(rules: Rules, s: State, i: nat, receipt: Receipt)
    requires i < |s.processes|
    ensures MoveReader(rules, s, i).rows == s.rows
    ensures s.processes[i].role.Executor? ==> MoveExecutor(rules, s, i, receipt).rows == s.rows
  {
    hide Knows, FilesOf, Once;
  }

  lemma SettledRowStays(s: State, i: nat, w: Outside, a: nat)
    requires i < |s.processes| && s.processes[i].place.Settle? && a in s.rows && s.rows[a].phase.Settled?
    ensures a in MoveSettler(s, i, w).rows && MoveSettler(s, i, w).rows[a] == s.rows[a]
  {
  }

  lemma SettledStays(rules: Rules, s: State, step: Step, a: nat)
    requires a in s.rows && s.rows[a].phase.Settled?
    ensures var t := Apply(rules, s, step); a in t.rows && t.rows[a] == s.rows[a]
  {
    hide MoveReader, MoveExecutor, MoveSettler;
    match step
    case Move(i, w) =>
      if i < |s.processes| {
        RowsUntouched(rules, s, i, w.receipt);
        if s.processes[i].place.Settle? { SettledRowStays(s, i, w, a); }
      }
    case _ =>
  }

  /** Once settled, an attempt keeps its result in every continuation. */
  lemma {:induction false} SettlementIsFinal(rules: Rules, s: State, steps: seq<Step>, a: nat)
    requires a in s.rows && s.rows[a].phase.Settled?
    ensures a in After(rules, s, steps).rows && After(rules, s, steps).rows[a] == s.rows[a]
    decreases |steps|
  {
    hide Apply;
    if steps != [] {
      SettledStays(rules, s, steps[0], a);
      SettlementIsFinal(rules, Apply(rules, s, steps[0]), steps[1..], a);
    }
  }

  // ---------- Crashes

  /** A crash ends a process for good, whatever it was about to do, and changes
      nothing else. */
  lemma CrashStops(rules: Rules, s: State, i: nat, w: Outside, times: nat)
    requires i < |s.processes| && s.processes[i].place != Finished
    ensures var t := Apply(rules, s, Crash(i));
            && t.processes == s.processes[i := Process(s.processes[i].role, Stopped)]
            && t.files == s.files && t.receipts == s.receipts && t.rows == s.rows
            && t.invocations == s.invocations && t.results == s.results
            && Moves(rules, t, i, w, times) == t
  {
    Resting(rules, Apply(rules, s, Crash(i)), i, w, times);
  }

  /** A finished process has nothing more to lose. */
  lemma FinishedStays(rules: Rules, s: State, i: nat)
    requires i < |s.processes| && s.processes[i].place == Finished
    ensures Apply(rules, s, Crash(i)) == s
  {
  }
}
