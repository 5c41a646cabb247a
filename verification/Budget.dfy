/** The generation budget machine: plan, attempts, retries and the ledger. */
module Budget {
  import opened Text
  import D = Disposition

  // ---------- Usage

  datatype Usage = Usage(attempts: nat, wall: nat, output: nat, tokens: nat, proposals: nat)

  const ZERO := Usage(0, 0, 0, 0, 0)

  /** The field bounds every stored usage must meet. */
  predicate Capped(u: Usage) {
    u.attempts <= 64 && u.wall <= 86_400_000 && u.output <= 100_000_000 && u.tokens <= 100_000_000
    && u.proposals <= 32
  }

  function Add(a: Usage, b: Usage): Usage {
    Usage(a.attempts + b.attempts, a.wall + b.wall, a.output + b.output, a.tokens + b.tokens,
          a.proposals + b.proposals)
  }

  /** `plus` builds a new usage, so it fails when a bound is passed. */
  function Plus(a: Usage, b: Usage): Option<Usage> { if Capped(Add(a, b)) then Some(Add(a, b)) else None }

  predicate Within(a: Usage, b: Usage) {
    a.attempts <= b.attempts && a.wall <= b.wall && a.output <= b.output && a.tokens <= b.tokens
    && a.proposals <= b.proposals
  }

  function Sum<T>(f: T -> Usage, s: seq<T>): Usage {
    if s == [] then ZERO else Add(f(s[0]), Sum(f, s[1..]))
  }

  function Same(u: Usage): Usage { u }

  /** `sum_usage` fails exactly when the total passes a bound, however the items
      are ordered. */
  method SumUsage(items: seq<Usage>) returns (r: Option<Usage>)
    ensures r == if Capped(Sum(Same, items)) then Some(Sum(Same, items)) else None
  {
    var total := ZERO;
    var i := 0;
    assert items[0..] == items;
    while i < |items|
      invariant 0 <= i <= |items|
      invariant Add(total, Sum(Same, items[i..])) == Sum(Same, items)
      invariant Capped(total)
    {
      var next := Plus(total, items[i]);
      assert items[i..][0] == items[i] && items[i..][1..] == items[i + 1..];
      if next.None? { return None; }
      total := next.value;
      i := i + 1;
    }
    return Some(total);
  }

  // ---------- Plans

  datatype Generator = Generator(maxAttempts: nat, maxProposals: nat, timeout: nat, maxOutput: nat, maxTokens: nat)

  /** A budget, or a demand on one, with time in seconds. */
  datatype Limits = Limits(attempts: nat, seconds: nat, output: nat, tokens: nat, proposals: nat)

  datatype Plan = Plan(generators: seq<Generator>, concurrency: nat, budget: Limits)

  function Demand(g: Generator): Limits {
    Limits(g.maxAttempts, g.timeout * g.maxAttempts, g.maxOutput * g.maxAttempts, g.maxTokens * g.maxAttempts,
           g.maxProposals)
  }

  function TotalDemand(gs: seq<Generator>): Limits {
    if gs == [] then Limits(0, 0, 0, 0, 0)
    else
      var d, t := Demand(gs[0]), TotalDemand(gs[1..]);
      Limits(d.attempts + t.attempts, d.seconds + t.seconds, d.output + t.output, d.tokens + t.tokens,
             d.proposals + t.proposals)
  }

  predicate ValidGenerator(g: Generator) {
    1 <= g.maxAttempts <= 8 && 1 <= g.maxProposals <= 8 && 1 <= g.timeout <= 7_200
    && 1 <= g.maxOutput <= 100_000_000 && 1 <= g.maxTokens <= 100_000_000
  }

  predicate ValidBudget(b: Limits) {
    1 <= b.attempts <= 64 && 1 <= b.seconds <= 86_400 && 1 <= b.output <= 100_000_000
    && 1 <= b.tokens <= 100_000_000 && 1 <= b.proposals <= 32
  }

  /** The plan's own checks. Proposals are not multiplied by attempts. */
  predicate ValidPlan(p: Plan) {
    && 1 <= |p.generators| <= 8 && 1 <= p.concurrency <= 4 && p.concurrency <= |p.generators|
    && (forall g | g in p.generators :: ValidGenerator(g)) && ValidBudget(p.budget)
    && var d := TotalDemand(p.generators);
       d.attempts <= p.budget.attempts && d.seconds <= p.budget.seconds && d.output <= p.budget.output
       && d.tokens <= p.budget.tokens && d.proposals <= p.budget.proposals
  }

  function Ceiling(b: Limits): Usage { Usage(b.attempts, b.seconds * 1000, b.output, b.tokens, b.proposals) }

  predicate Fits(u: Usage, b: Limits) { Within(u, Ceiling(b)) }

  // ---------- State

  datatype Phase = Pending | Running | Succeeded | Failed

  datatype Attempt = Attempt(phase: Phase, reserved: Usage, actual: Usage)

  datatype Kind = Reserve | Settlement

  datatype LedgerEntry = LedgerEntry(generator: nat, number: nat, kind: Kind, reserved: Usage, actual: Usage)

  datatype RunState = Created | Active | AwaitingReview | Completed | Broken

  datatype RunError = NoRetainedProposals | BudgetCorrupt

  /** The run record, as the last reconciliation stored it. */
  datatype Run = Run(
    state: RunState, attempts: nat, terminalAttempts: nat, terminalGenerators: nat,
    proposals: nat, retained: nat, reserved: Usage, consumed: Usage, error: Option<RunError>)

  /** `history[g]` lists the attempts of generator `g` by attempt number. */
  datatype State = State(run: Run, history: seq<seq<Attempt>>, ledger: seq<LedgerEntry>, refs: seq<D.Ref>)

  function ReservedFor(g: Generator): Usage { Usage(1, g.timeout * 1000, g.maxOutput, g.maxTokens, g.maxProposals) }

  /** Unknown usage is charged in full, but no proposal is invented. */
  function Conservative(r: Usage): Usage { Usage(1, r.wall, r.output, r.tokens, 0) }

  function Fresh(g: Generator): Attempt { Attempt(Pending, ReservedFor(g), ZERO) }

  predicate IsLive(a: Attempt) { a.phase == Pending || a.phase == Running }

  function Live(a: Attempt): Usage { if IsLive(a) then a.reserved else ZERO }

  function Actual(a: Attempt): Usage { a.actual }

  function LiveIn(h: seq<Attempt>): Usage { Sum(Live, h) }

  function ActualIn(h: seq<Attempt>): Usage { Sum(Actual, h) }

  function SettledUsage(e: LedgerEntry): Usage { if e.kind == Settlement then e.actual else ZERO }

  /** Reservations still held, and what the ledger says was consumed. */
  function Outstanding(s: State): Usage { Sum(LiveIn, s.history) }

  function Consumed(s: State): Usage { Sum(SettledUsage, s.ledger) }

  function CountSum<T>(f: T -> nat, s: seq<T>): nat {
    if s == [] then 0 else f(s[0]) + CountSum(f, s[1..])
  }

  function RunningOne(a: Attempt): nat { if a.phase == Running then 1 else 0 }

  function RunningIn(h: seq<Attempt>): nat { CountSum(RunningOne, h) }

  function RunningCount(s: State): nat { CountSum(RunningIn, s.history) }

  function TerminalOne(a: Attempt): nat { if IsLive(a) then 0 else 1 }

  function TerminalIn(h: seq<Attempt>): nat { CountSum(TerminalOne, h) }

  function Length(h: seq<Attempt>): nat { |h| }

  function Last(h: seq<Attempt>): Attempt
    requires h != []
  {
    h[|h| - 1]
  }

  // ---------- Steps

  function Replace(h: seq<Attempt>, a: Attempt): seq<Attempt>
    requires h != []
  {
    h[..|h| - 1] + [a]
  }

  predicate HasAttempt(s: State, g: nat) { g < |s.history| && s.history[g] != [] }

  /** Ends the newest attempt of `g` and charges it in the ledger. */
  function EndAttempt(s: State, g: nat, phase: Phase, actual: Usage, refs: seq<D.Ref>): State
    requires HasAttempt(s, g)
  {
    var h := s.history[g];
    var a := Last(h).(phase := phase, actual := actual);
    s.(history := s.history[g := Replace(h, a)],
       ledger := s.ledger + [LedgerEntry(g, |h|, Settlement, a.reserved, actual)],
       refs := s.refs + refs)
  }

  /** Adds a pending attempt for `g` and its reservation. */
  function AddAttempt(p: Plan, s: State, g: nat): State
    requires g < |s.history| && g < |p.generators|
  {
    var h := s.history[g];
    var a := Fresh(p.generators[g]);
    s.(history := s.history[g := h + [a]],
       ledger := s.ledger + [LedgerEntry(g, |h| + 1, Reserve, a.reserved, ZERO)])
  }

  predicate AnySucceeded(h: seq<Attempt>) { exists a :: a in h && a.phase == Succeeded }

  /** Retry only after a failure, never after a success, and within the plan. */
  predicate NeedsRetry(g: Generator, h: seq<Attempt>) {
    h != [] && !AnySucceeded(h) && Last(h).phase == Failed && |h| < g.maxAttempts
  }

  predicate Done(g: Generator, h: seq<Attempt>) {
    h != [] && (AnySucceeded(h) || (Last(h).phase == Failed && |h| >= g.maxAttempts))
  }

  function DoneCount(gs: seq<Generator>, hs: seq<seq<Attempt>>): nat
    requires |gs| == |hs|
  {
    if gs == [] then 0 else (if Done(gs[0], hs[0]) then 1 else 0) + DoneCount(gs[1..], hs[1..])
  }

  /** Fails the running attempts whose lease has passed. */
  function LapseAll(s: State, expired: set<nat>, from: nat): State
    decreases |s.history| - from
  {
    if from >= |s.history| then s
    else
      var lapsed := from in expired && HasAttempt(s, from) && Last(s.history[from]).phase == Running;
      var t := if lapsed then EndAttempt(s, from, Failed, Conservative(Last(s.history[from]).reserved), []) else s;
      LapseAll(t, expired, from + 1)
  }

  function RetryAll(p: Plan, s: State, from: nat): State
    requires |p.generators| == |s.history|
    decreases |s.history| - from
  {
    if from >= |s.history| then s
    else
      var t := if NeedsRetry(p.generators[from], s.history[from]) then AddAttempt(p, s, from) else s;
      RetryAll(p, t, from + 1)
  }

  function Recount(p: Plan, s: State): State
    requires |p.generators| == |s.history|
  {
    var done := DoneCount(p.generators, s.history);
    var all := done == |p.generators|;
    var refs := if all then D.Finalize(s.refs) else s.refs;
    var retained := if all then D.RetainedCount(refs) else 0;
    var reserved, consumed := Outstanding(s), Consumed(s);
    var run := s.run.(
      attempts := CountSum(Length, s.history), terminalAttempts := CountSum(TerminalIn, s.history),
      terminalGenerators := done, proposals := |s.refs|, retained := retained,
      reserved := reserved, consumed := consumed);
    var decided :=
      if !Fits(Add(reserved, consumed), p.budget) then run.(state := Broken, error := Some(BudgetCorrupt))
      else if !all then run.(state := Active, error := None)
      else if retained > 0 then run.(state := AwaitingReview, error := None)
      else run.(state := Broken, error := Some(NoRetainedProposals));
    s.(run := decided, refs := refs)
  }

  predicate Closed(r: RunState) { r == AwaitingReview || r == Completed || r == Broken }

  function Reconcile(p: Plan, s: State, expired: set<nat>): State
    requires |p.generators| == |s.history|
    ensures |Reconcile(p, s, expired).history| == |s.history|
  {
    if Closed(s.run.state) then s
    else
      LapseAllLength(s, expired, 0);
      RetryAllLength(p, LapseAll(s, expired, 0), 0);
      Recount(p, RetryAll(p, LapseAll(s, expired, 0), 0))
  }

  lemma {:induction false} LapseAllLength(s: State, expired: set<nat>, from: nat)
    ensures |LapseAll(s, expired, from).history| == |s.history|
    decreases |s.history| - from
  {
    if from < |s.history| {
      var lapsed := from in expired && HasAttempt(s, from) && Last(s.history[from]).phase == Running;
      var t := if lapsed then EndAttempt(s, from, Failed, Conservative(Last(s.history[from]).reserved), []) else s;
      LapseAllLength(t, expired, from + 1);
    }
  }

  lemma {:induction false} RetryAllLength(p: Plan, s: State, from: nat)
    requires |p.generators| == |s.history|
    ensures |RetryAll(p, s, from).history| == |s.history|
    decreases |s.history| - from
  {
    if from < |s.history| {
      var t := if NeedsRetry(p.generators[from], s.history[from]) then AddAttempt(p, s, from) else s;
      RetryAllLength(p, t, from + 1);
    }
  }

  /** The first generator, in plan order, whose newest attempt is pending. */
  function FirstPending(hs: seq<seq<Attempt>>): nat {
    if hs == [] || (hs[0] != [] && Last(hs[0]).phase == Pending) then 0 else 1 + FirstPending(hs[1..])
  }

  function Claim(p: Plan, s: State): State {
    var g := FirstPending(s.history);
    if s.run.state != Active || RunningCount(s) >= p.concurrency || !HasAttempt(s, g) then s
    else
      var h := s.history[g];
      s.(history := s.history[g := Replace(h, Last(h).(phase := Running))])
  }

  /** What a settlement reports: no batch, or a batch with its status, the
      runner's usage and the proposals to record. */
  datatype Report = NoBatch | Batch(failed: bool, wall: nat, output: nat, tokens: nat, refs: seq<D.Ref>)

  function Reported(r: Report): Usage
    requires r.Batch?
  {
    Usage(1, r.wall, r.output, r.tokens, |r.refs|)
  }

  /** A batch has proposals exactly when it did not fail; more proposals than
      the plan allows, or a usage past the field bounds, is refused. */
  predicate Settleable(g: Generator, r: Report) {
    r.Batch? ==> (r.failed <==> r.refs == []) && |r.refs| <= g.maxProposals && Capped(Reported(r))
  }

  function Settle(p: Plan, s: State, g: nat, r: Report, expired: set<nat>): State
    requires |p.generators| == |s.history|
  {
    if !(HasAttempt(s, g) && Last(s.history[g]).phase == Running && Settleable(p.generators[g], r)) then s
    else
      var reserved := Last(s.history[g]).reserved;
      var t :=
        if r.NoBatch? || !Within(Reported(r), reserved) then
          EndAttempt(s, g, Failed, Conservative(reserved), [])
        else if r.failed then EndAttempt(s, g, Failed, Reported(r), r.refs)
        else EndAttempt(s, g, Succeeded, Reported(r), r.refs);
      Reconcile(p, t, expired)
  }

  function CompleteReview(s: State): State {
    if s.run.state == AwaitingReview then s.(run := s.run.(state := Completed)) else s
  }

  datatype Step =
    | ClaimStep
    | SettleStep(generator: nat, report: Report, expired: set<nat>)
    | ReconcileStep(expired: set<nat>)
    | ReviewStep

  function Apply(p: Plan, s: State, step: Step): State
    requires |p.generators| == |s.history|
  {
    match step
    case ClaimStep => Claim(p, s)
    case SettleStep(g, report, expired) => Settle(p, s, g, report, expired)
    case ReconcileStep(expired) => Reconcile(p, s, expired)
    case ReviewStep => CompleteReview(s)
  }

  /** `build_generation_run_start`: one pending attempt and one reservation for
      each generator. */
  function Start(p: Plan): State {
    var n := |p.generators|;
    var reserved := Sum(ReservedFor, p.generators);
    State(
      Run(Created, n, 0, 0, 0, 0, reserved, ZERO, None),
      seq(n, g requires 0 <= g < n => [Fresh(p.generators[g])]),
      seq(n, g requires 0 <= g < n => LedgerEntry(g, 1, Reserve, ReservedFor(p.generators[g]), ZERO)),
      [])
  }

  /** A start request: its plan, whether the time has a zone, the run identity
      of its idempotency key, that run's plan identity, what the request and the
      plan state, and the request's own proposal limit. */
  datatype StartCall = StartCall(
    plan: Plan, zoned: bool, keyRun: nat, keyPlan: nat, requestRun: nat, planRun: nat, planId: nat,
    requestId: nat, requestHash: nat, boundId: nat, boundHash: nat, maxProposals: nat)

  datatype StartError =
    | TimeNaive | RunMismatch | PlanRunMismatch | PlanMismatch | BindingMismatch | ProposalsExceeded | UsageRefused

  function BuildStart(c: StartCall): Result<State, StartError> {
    if !c.zoned then Err(TimeNaive)
    else if c.requestRun != c.keyRun then Err(RunMismatch)
    else if c.planRun != c.keyRun then Err(PlanRunMismatch)
    else if c.planId != c.keyPlan then Err(PlanMismatch)
    else if c.boundId != c.requestId || c.boundHash != c.requestHash then Err(BindingMismatch)
    else if c.plan.budget.proposals > c.maxProposals then Err(ProposalsExceeded)
    else if !Capped(Sum(ReservedFor, c.plan.generators)) then Err(UsageRefused)
    else Ok(Start(c.plan))
  }

  function Reach(p: Plan, steps: seq<Step>): (s: State)
    ensures |s.history| == |p.generators|
  {
    if steps == [] then Start(p) else Apply(p, Reach(p, steps[..|steps| - 1]), steps[|steps| - 1])
  }
}
