/** In every run of the budget machine, what is reserved and what is consumed
    fit the plan's budget. */
module BudgetSafety {
  import opened Text
  import opened Budget
  import D = Disposition

  // ---------- Sums

  lemma {:induction false} SumAppend<T>(f: T -> Usage, s: seq<T>, x: T)
    ensures Sum(f, s + [x]) == Add(Sum(f, s), f(x))
  {
    if s == [] {
      assert s + [x] == [x] && [x][1..] == [];
    } else {
      SumAppend(f, s[1..], x);
      assert (s + [x])[1..] == s[1..] + [x];
    }
  }

  lemma {:induction false} SumUpdate<T>(f: T -> Usage, s: seq<T>, i: nat, x: T)
    requires i < |s|
    ensures Add(Sum(f, s[i := x]), f(s[i])) == Add(Sum(f, s), f(x))
  {
    if i == 0 {
      assert s[i := x][1..] == s[1..];
    } else {
      SumUpdate(f, s[1..], i - 1, x);
      assert s[i := x][1..] == s[1..][i - 1 := x];
    }
  }

  lemma {:induction false} CountAppend<T>(f: T -> nat, s: seq<T>, x: T)
    ensures CountSum(f, s + [x]) == CountSum(f, s) + f(x)
  {
    if s == [] {
      assert s + [x] == [x] && [x][1..] == [];
    } else {
      CountAppend(f, s[1..], x);
      assert (s + [x])[1..] == s[1..] + [x];
    }
  }

  lemma {:induction false} CountUpdate<T>(f: T -> nat, s: seq<T>, i: nat, x: T)
    requires i < |s|
    ensures CountSum(f, s[i := x]) + f(s[i]) == CountSum(f, s) + f(x)
  {
    if i == 0 {
      assert s[i := x][1..] == s[1..];
    } else {
      CountUpdate(f, s[1..], i - 1, x);
      assert s[i := x][1..] == s[1..][i - 1 := x];
    }
  }

  // ---------- The invariant

  predicate AttemptOk(a: Attempt) {
    match a.phase
    case Pending => a.actual == ZERO
    case Running => a.actual == ZERO
    case Succeeded => Within(a.actual, a.reserved) && a.actual.attempts == 1
    case Failed => Within(a.actual, a.reserved) && a.actual.attempts == 1 && a.actual.proposals == 0
  }

  /** One generator's attempts: within the plan, all but the newest failed, and
      a failed attempt recorded no proposal. */
  predicate Sound(g: Generator, h: seq<Attempt>) {
    && 1 <= |h| <= g.maxAttempts
    && (forall k | 0 <= k < |h| :: h[k].reserved == ReservedFor(g) && AttemptOk(h[k]))
    && forall k | 0 <= k < |h| - 1 :: h[k].phase == Failed
  }

  predicate Core(p: Plan, s: State) {
    |s.history| == |p.generators| && forall i | 0 <= i < |s.history| :: Sound(p.generators[i], s.history[i])
  }

  function ReservedUsage(e: LedgerEntry): Usage { if e.kind == Reserve then e.reserved else ZERO }

  function ReleasedUsage(e: LedgerEntry): Usage { if e.kind == Settlement then e.reserved else ZERO }

  /** The ledger contract's own checks. */
  predicate EntryOk(e: LedgerEntry) {
    && e.reserved.attempts == 1
    && (e.kind == Reserve ==> e.actual == ZERO)
    && (e.kind == Settlement ==> e.actual.attempts == 1 && Within(e.actual, e.reserved))
  }

  /** The ledger balances: what was ever reserved is still held or was settled,
      what was settled is what the attempts used, and every recorded proposal
      was charged. */
  predicate Books(s: State) {
    && Consumed(s) == Sum(ActualIn, s.history)
    && Sum(ReservedUsage, s.ledger) == Add(Outstanding(s), Sum(ReleasedUsage, s.ledger))
    && |s.refs| == Consumed(s).proposals
    && forall e | e in s.ledger :: EntryOk(e)
  }

  /** The run record's own checks. */
  predicate RunOk(p: Plan, r: Run) {
    && r.attempts <= 64 && r.terminalAttempts <= r.attempts && r.terminalGenerators <= |p.generators|
    && r.retained <= r.proposals <= 32
    && Capped(r.reserved) && Capped(r.consumed) && Plus(r.reserved, r.consumed).Some?
    && Fits(r.reserved, p.budget) && Fits(r.consumed, p.budget) && Fits(Add(r.reserved, r.consumed), p.budget)
    && (r.state == Broken <==> r.error.Some?)
    && (r.state == AwaitingReview || r.state == Completed ==>
          r.terminalGenerators == |p.generators| && r.retained >= 1)
  }

  predicate AllDone(p: Plan, s: State) {
    |s.history| == |p.generators| && forall i | 0 <= i < |s.history| :: Done(p.generators[i], s.history[i])
  }

  predicate Inv(p: Plan, s: State) {
    && Core(p, s) && Books(s) && RunningCount(s) <= p.concurrency
    && RunOk(p, s.run) && s.run.error != Some(BudgetCorrupt)
    && (Closed(s.run.state) ==> AllDone(p, s))
  }

  // ---------- The bound

  function Times(n: nat, u: Usage): Usage {
    Usage(n * u.attempts, n * u.wall, n * u.output, n * u.tokens, n * u.proposals)
  }

  function Charge(h: seq<Attempt>): Usage { Add(LiveIn(h), ActualIn(h)) }

  lemma ChargeAppend(h: seq<Attempt>, a: Attempt)
    ensures Charge(h + [a]) == Add(Charge(h), Add(Live(a), a.actual))
  {
    hide Sum;
    SumAppend(Live, h, a);
    SumAppend(Actual, h, a);
  }

  lemma TimesMore(n: nat, u: Usage)
    ensures Times(n + 1, u) == Add(Times(n, u), u)
  {
    assert (n + 1) * u.wall == n * u.wall + u.wall;
    assert (n + 1) * u.output == n * u.output + u.output;
    assert (n + 1) * u.tokens == n * u.tokens + u.tokens;
    assert (n + 1) * u.proposals == n * u.proposals + u.proposals;
  }

  predicate AllFailed(r: Usage, h: seq<Attempt>) {
    forall k | 0 <= k < |h| :: h[k].reserved == r && AttemptOk(h[k]) && h[k].phase == Failed
  }

  lemma SumNone<T>(f: T -> Usage, s: seq<T>)
    requires |s| == 0
    ensures Sum(f, s) == ZERO
  {
  }

  lemma AddFields(a: Usage, b: Usage)
    ensures Add(a, b).attempts == a.attempts + b.attempts && Add(a, b).wall == a.wall + b.wall
    ensures Add(a, b).output == a.output + b.output && Add(a, b).tokens == a.tokens + b.tokens
    ensures Add(a, b).proposals == a.proposals + b.proposals
  {
  }

  lemma ChargeIs(h: seq<Attempt>)
    ensures Charge(h) == Add(Sum(Live, h), Sum(Actual, h))
  {
    hide Sum, Add;
  }

  lemma NoCharge(r: Usage, h: seq<Attempt>)
    requires |h| == 0
    ensures Charge(h) == ZERO && Times(|h|, r) == ZERO
  {
    hide Sum, Charge, Add;
    ChargeIs(h);
    SumNone(Live, h);
    SumNone(Actual, h);
    AddFields(Sum(Live, h), Sum(Actual, h));
  }

  lemma WithinAdd(a: Usage, b: Usage, c: Usage, d: Usage)
    requires Within(a, c) && Within(b, d)
    ensures Within(Add(a, b), Add(c, d))
  {
  }

  /** Failed attempts charge at most their reservation each, and no proposals. */
  lemma {:induction false} FailedCharge(r: Usage, h: seq<Attempt>)
    requires AllFailed(r, h) && r.attempts == 1
    ensures Within(Charge(h), Times(|h|, r)) && Charge(h).proposals == 0 && Charge(h).attempts == |h|
  {
    hide Charge, Times;
    if h == [] {
      NoCharge(r, h);
    } else {
      var n := |h| - 1;
      FailedCharge(r, h[..n]);
      assert h == h[..n] + [h[n]];
      ChargeAppend(h[..n], h[n]);
      TimesMore(n, r);
    }
  }

  function Worst(g: Generator): Usage { Ceiling(Demand(g)) }

  lemma TimesUpTo(n: nat, g: Generator)
    requires n <= g.maxAttempts
    ensures var t := Times(n, ReservedFor(g));
            t.attempts <= Worst(g).attempts && t.wall <= Worst(g).wall
            && t.output <= Worst(g).output && t.tokens <= Worst(g).tokens
  {
    Scale(n, g.maxAttempts, g.timeout * 1000);
    Scale(n, g.maxAttempts, g.maxOutput);
    Scale(n, g.maxAttempts, g.maxTokens);
    assert g.maxAttempts * (g.timeout * 1000) == g.timeout * g.maxAttempts * 1000;
    assert g.maxAttempts * g.maxOutput == g.maxOutput * g.maxAttempts;
    assert g.maxAttempts * g.maxTokens == g.maxTokens * g.maxAttempts;
  }

  lemma Scale(m: nat, n: nat, x: nat)
    requires m <= n
    ensures m * x <= n * x
  {
  }

  /** One generator never charges more than the plan demands for it, whatever
      its attempts did. */
  lemma GeneratorCharge(g: Generator, h: seq<Attempt>)
    requires Sound(g, h)
    ensures Within(Charge(h), Worst(g)) && Charge(h).attempts == |h|
  {
    var n, r := |h| - 1, ReservedFor(g);
    assert h == h[..n] + [h[n]];
    FailedCharge(r, h[..n]);
    ChargeAppend(h[..n], h[n]);
    assert Within(Add(Live(h[n]), h[n].actual), r) && Add(Live(h[n]), h[n].actual).attempts == 1;
    TimesUpTo(n + 1, g);
    hide Charge, Times, Worst;
    TimesMore(n, r);
    assert Worst(g).proposals == g.maxProposals by { WorstProposals(g); }
  }

  lemma WorstProposals(g: Generator)
    ensures Worst(g).proposals == g.maxProposals
  {
  }

  function ChargeAll(hs: seq<seq<Attempt>>): Usage { Add(Sum(LiveIn, hs), Sum(ActualIn, hs)) }

  lemma ChargeCons(h: seq<Attempt>, hs: seq<seq<Attempt>>)
    ensures ChargeAll([h] + hs) == Add(Charge(h), ChargeAll(hs))
    ensures CountSum(Length, [h] + hs) == |h| + CountSum(Length, hs)
  {
    hide LiveIn, ActualIn;
    assert ([h] + hs)[1..] == hs;
  }

  lemma DemandCons(g: Generator, gs: seq<Generator>)
    ensures Ceiling(TotalDemand([g] + gs)) == Add(Worst(g), Ceiling(TotalDemand(gs)))
  {
    hide Demand;
    assert ([g] + gs)[1..] == gs;
  }

  lemma NoDemand(gs: seq<Generator>, hs: seq<seq<Attempt>>)
    requires |gs| == 0 && |hs| == 0
    ensures Within(ChargeAll(hs), Ceiling(TotalDemand(gs)))
    ensures ChargeAll(hs).attempts == CountSum(Length, hs)
  {
    hide Sum, LiveIn, ActualIn, Add;
    SumNone(LiveIn, hs);
    SumNone(ActualIn, hs);
    AddFields(Sum(LiveIn, hs), Sum(ActualIn, hs));
  }

  lemma {:induction false} TotalCharge(gs: seq<Generator>, hs: seq<seq<Attempt>>)
    requires |gs| == |hs| && forall i | 0 <= i < |gs| :: Sound(gs[i], hs[i])
    ensures Within(ChargeAll(hs), Ceiling(TotalDemand(gs)))
    ensures ChargeAll(hs).attempts == CountSum(Length, hs)
  {
    hide *;
    if gs == [] {
      NoDemand(gs, hs);
    } else {
      TotalCharge(gs[1..], hs[1..]);
      GeneratorCharge(gs[0], hs[0]);
      assert gs == [gs[0]] + gs[1..] && hs == [hs[0]] + hs[1..];
      ChargeCons(hs[0], hs[1..]);
      DemandCons(gs[0], gs[1..]);
      WithinAdd(Charge(hs[0]), ChargeAll(hs[1..]), Worst(gs[0]), Ceiling(TotalDemand(gs[1..])));
      AddFields(Charge(hs[0]), ChargeAll(hs[1..]));
    }
  }

  /** Reservations still held plus consumption fit the budget, in all five
      dimensions, proposals included. */
  lemma BudgetHolds(p: Plan, s: State)
    requires ValidPlan(p) && Core(p, s) && Books(s)
    ensures Fits(Add(Outstanding(s), Consumed(s)), p.budget)
    ensures Capped(Outstanding(s)) && Capped(Consumed(s)) && Plus(Outstanding(s), Consumed(s)).Some?
    ensures CountSum(Length, s.history) <= p.budget.attempts && |s.refs| <= p.budget.proposals
  {
    hide Sum, TotalDemand, Sound, CountSum, EntryOk;
    TotalCharge(p.generators, s.history);
  }

  // ---------- Changing one generator's history

  lemma Moved(after: Usage, q: Usage, r: Usage, before: Usage)
    requires Add(after, Add(q, r)) == Add(before, q)
    ensures before == Add(after, r)
  {
  }

  lemma SumReplace(f: Attempt -> Usage, h: seq<Attempt>, a: Attempt)
    requires h != []
    ensures Sum(f, h) == Add(Sum(f, h[..|h| - 1]), f(Last(h)))
    ensures Sum(f, Replace(h, a)) == Add(Sum(f, h[..|h| - 1]), f(a))
  {
    hide Sum, Add;
    SumAppend(f, h[..|h| - 1], Last(h));
    SumAppend(f, h[..|h| - 1], a);
    assert h == h[..|h| - 1] + [Last(h)];
  }

  lemma RunningReplace(h: seq<Attempt>, a: Attempt)
    requires h != []
    ensures RunningIn(Replace(h, a)) + RunningOne(Last(h)) == RunningIn(h) + RunningOne(a)
  {
    hide CountSum;
    CountAppend(RunningOne, h[..|h| - 1], Last(h));
    CountAppend(RunningOne, h[..|h| - 1], a);
    assert h == h[..|h| - 1] + [Last(h)];
  }

  lemma AddZero(u: Usage)
    ensures Add(u, ZERO) == u
  {
  }

  /** Ending a running attempt moves its reservation out and its usage in. */
  lemma EndSums(hs: seq<seq<Attempt>>, g: nat, a: Attempt)
    requires g < |hs| && hs[g] != []
    requires var b := Last(hs[g]); b.phase == Running && b.actual == ZERO && a.reserved == b.reserved && !IsLive(a)
    ensures var t := hs[g := Replace(hs[g], a)];
            && Sum(LiveIn, hs) == Add(Sum(LiveIn, t), a.reserved)
            && Sum(ActualIn, t) == Add(Sum(ActualIn, hs), a.actual)
            && CountSum(RunningIn, t) + 1 == CountSum(RunningIn, hs)
  {
    hide Sum, CountSum, Add, Replace;
    var h := hs[g];
    var k := Replace(h, a);
    var q := h[..|h| - 1];
    SumReplace(Live, h, a);
    SumReplace(Actual, h, a);
    RunningReplace(h, a);
    AddZero(Sum(Live, q));
    AddZero(Sum(Actual, q));
    SumUpdate(LiveIn, hs, g, k);
    SumUpdate(ActualIn, hs, g, k);
    CountUpdate(RunningIn, hs, g, k);
    Moved(Sum(LiveIn, hs[g := k]), Sum(Live, q), a.reserved, Sum(LiveIn, hs));
    Moved(Sum(ActualIn, hs), Sum(Actual, q), a.actual, Sum(ActualIn, hs[g := k]));
  }

  lemma SoundReplace(g: Generator, h: seq<Attempt>, a: Attempt)
    requires Sound(g, h) && a.reserved == ReservedFor(g) && AttemptOk(a)
    ensures Sound(g, Replace(h, a))
  {
    hide AttemptOk, ReservedFor;
  }

  lemma CoreUpdate(p: Plan, s: State, g: nat, h: seq<Attempt>, t: State)
    requires Core(p, s) && g < |s.history| && Sound(p.generators[g], h) && t.history == s.history[g := h]
    ensures Core(p, t)
  {
    hide Sound;
  }

  lemma SoundLast(g: Generator, h: seq<Attempt>)
    requires Sound(g, h)
    ensures h != [] && Last(h).reserved == ReservedFor(g) && AttemptOk(Last(h)) && |h| <= g.maxAttempts
  {
  }

  /** Appending one entry to a balanced ledger. */
  lemma LedgerAppend(ledger: seq<LedgerEntry>, e: LedgerEntry)
    ensures Sum(SettledUsage, ledger + [e]) == Add(Sum(SettledUsage, ledger), SettledUsage(e))
    ensures Sum(ReservedUsage, ledger + [e]) == Add(Sum(ReservedUsage, ledger), ReservedUsage(e))
    ensures Sum(ReleasedUsage, ledger + [e]) == Add(Sum(ReleasedUsage, ledger), ReleasedUsage(e))
  {
    hide Sum, Add, SettledUsage, ReservedUsage, ReleasedUsage;
    SumAppend(SettledUsage, ledger, e);
    SumAppend(ReservedUsage, ledger, e);
    SumAppend(ReleasedUsage, ledger, e);
  }

  lemma Carried(outstanding: Usage, r: Usage, released: Usage)
    ensures Add(Add(outstanding, r), released) == Add(outstanding, Add(released, r))
  {
  }

  /** A settlement the machine may make on the newest attempt of `g`. */
  predicate Settles(s: State, g: nat, phase: Phase, actual: Usage, refs: seq<D.Ref>) {
    && HasAttempt(s, g) && Last(s.history[g]).phase == Running
    && (phase == Failed || phase == Succeeded)
    && Within(actual, Last(s.history[g]).reserved) && actual.attempts == 1 && |refs| == actual.proposals
    && (phase == Failed ==> refs == [])
  }

  lemma EndKeeps(p: Plan, s: State, g: nat, phase: Phase, actual: Usage, refs: seq<D.Ref>)
    requires Core(p, s) && Books(s) && Settles(s, g, phase, actual, refs)
    ensures var t := EndAttempt(s, g, phase, actual, refs);
            Core(p, t) && Books(t) && RunningCount(t) + 1 == RunningCount(s)
  {
    var h := s.history[g];
    var a := Last(h).(phase := phase, actual := actual);
    var t := EndAttempt(s, g, phase, actual, refs);
    SoundLast(p.generators[g], h);
    assert AttemptOk(a);
    SoundReplace(p.generators[g], h, a);
    EndSums(s.history, g, a);
    var e := LedgerEntry(g, |h|, Settlement, a.reserved, actual);
    EndBooks(p, s, g, a, e, t);
    hide Replace, Sound, AttemptOk;
    CoreUpdate(p, s, g, Replace(h, a), t);
  }

  lemma EndBooks(p: Plan, s: State, g: nat, a: Attempt, e: LedgerEntry, t: State)
    requires Books(s) && e.kind == Settlement && e.reserved == a.reserved && e.actual == a.actual
    requires a.reserved.attempts == 1 && a.actual.attempts == 1 && Within(a.actual, a.reserved)
    requires Outstanding(s) == Add(Outstanding(t), a.reserved)
    requires Sum(ActualIn, t.history) == Add(Sum(ActualIn, s.history), a.actual)
    requires t.ledger == s.ledger + [e] && |t.refs| == |s.refs| + a.actual.proposals
    ensures Books(t)
  {
    hide Sum, Add, Outstanding;
    LedgerAppend(s.ledger, e);
    AddZero(Sum(ReservedUsage, s.ledger));
    Carried(Outstanding(t), a.reserved, Sum(ReleasedUsage, s.ledger));
    AddFields(Sum(ActualIn, s.history), a.actual);
  }

  /** A retry adds one reservation and nothing else. */
  lemma AddKeeps(p: Plan, s: State, g: nat)
    requires Core(p, s) && Books(s) && g < |s.history| && NeedsRetry(p.generators[g], s.history[g])
    ensures Core(p, AddAttempt(p, s, g)) && Books(AddAttempt(p, s, g))
    ensures RunningCount(AddAttempt(p, s, g)) == RunningCount(s)
  {
    var h, a := s.history[g], Fresh(p.generators[g]);
    var t := AddAttempt(p, s, g);
    var e := LedgerEntry(g, |h| + 1, Reserve, a.reserved, ZERO);
    SoundAppend(p.generators[g], h, a);
    hide Sound, Sum, Add, CountSum, ReservedFor;
    CoreUpdate(p, s, g, h + [a], t);
    AppendSums(s.history, g, a);
    AddBooks(s, a.reserved, e, t);
  }

  lemma SoundAppend(g: Generator, h: seq<Attempt>, a: Attempt)
    requires Sound(g, h) && NeedsRetry(g, h) && a == Fresh(g)
    ensures Sound(g, h + [a]) && a.reserved.attempts == 1
  {
  }

  lemma AppendSums(hs: seq<seq<Attempt>>, g: nat, a: Attempt)
    requires g < |hs| && a.phase == Pending && a.actual == ZERO
    ensures var t := hs[g := hs[g] + [a]];
            && Sum(LiveIn, t) == Add(Sum(LiveIn, hs), a.reserved)
            && Sum(ActualIn, t) == Sum(ActualIn, hs)
            && CountSum(RunningIn, t) == CountSum(RunningIn, hs)
  {
    hide Sum, CountSum, Add;
    var h := hs[g];
    SumAppend(Live, h, a);
    SumAppend(Actual, h, a);
    CountAppend(RunningOne, h, a);
    AddZero(Sum(Actual, h));
    AddZero(Sum(ActualIn, hs));
    AddZero(Sum(Live, h));
    SumUpdate(LiveIn, hs, g, h + [a]);
    SumUpdate(ActualIn, hs, g, h + [a]);
    CountUpdate(RunningIn, hs, g, h + [a]);
    AddZero(Sum(ActualIn, hs[g := h + [a]]));
    Moved(Sum(LiveIn, hs), Sum(Live, h), a.reserved, Sum(LiveIn, hs[g := h + [a]]));
    Moved(Sum(ActualIn, hs), Sum(Actual, h), ZERO, Sum(ActualIn, hs[g := h + [a]]));
  }

  lemma AddBooks(s: State, r: Usage, e: LedgerEntry, t: State)
    requires Books(s) && e.kind == Reserve && e.reserved == r && e.actual == ZERO && r.attempts == 1
    requires Outstanding(t) == Add(Outstanding(s), r) && Sum(ActualIn, t.history) == Sum(ActualIn, s.history)
    requires t.ledger == s.ledger + [e] && t.refs == s.refs
    ensures Books(t)
  {
    hide Sum, Add, Outstanding;
    LedgerAppend(s.ledger, e);
    AddZero(Sum(SettledUsage, s.ledger));
    AddZero(Sum(ReleasedUsage, s.ledger));
    Carried(Outstanding(s), r, Sum(ReleasedUsage, s.ledger));
    Swap(Outstanding(s), Sum(ReleasedUsage, s.ledger), r);
  }

  lemma Swap(a: Usage, b: Usage, c: Usage)
    ensures Add(Add(a, b), c) == Add(Add(a, c), b)
  {
  }

  // ---------- Reconciliation

  lemma LapseSettles(p: Plan, s: State, g: nat)
    requires Core(p, s) && HasAttempt(s, g) && Last(s.history[g]).phase == Running
    ensures Settles(s, g, Failed, Conservative(Last(s.history[g]).reserved), [])
  {
    SoundLast(p.generators[g], s.history[g]);
  }

  lemma {:induction false} LapseKeeps(p: Plan, s: State, expired: set<nat>, from: nat)
    requires Core(p, s) && Books(s)
    ensures var t := LapseAll(s, expired, from);
            Core(p, t) && Books(t) && RunningCount(t) <= RunningCount(s) && t.run == s.run
    decreases |s.history| - from
  {
    hide Core, Books, EndAttempt, RunningCount, Conservative;
    if from < |s.history| {
      if from in expired && HasAttempt(s, from) && Last(s.history[from]).phase == Running {
        var actual := Conservative(Last(s.history[from]).reserved);
        LapseSettles(p, s, from);
        EndKeeps(p, s, from, Failed, actual, []);
        EndShape(s, from, Failed, actual, []);
        LapseKeeps(p, EndAttempt(s, from, Failed, actual, []), expired, from + 1);
      } else {
        LapseKeeps(p, s, expired, from + 1);
      }
    }
  }

  lemma EndShape(s: State, g: nat, phase: Phase, actual: Usage, refs: seq<D.Ref>)
    requires HasAttempt(s, g)
    ensures |EndAttempt(s, g, phase, actual, refs).history| == |s.history|
    ensures EndAttempt(s, g, phase, actual, refs).run == s.run
  {
  }

  lemma {:induction false} RetryKeeps(p: Plan, s: State, from: nat)
    requires |p.generators| == |s.history| && Core(p, s) && Books(s)
    ensures var t := RetryAll(p, s, from);
            Core(p, t) && Books(t) && RunningCount(t) == RunningCount(s) && t.run == s.run
    decreases |s.history| - from
  {
    hide Core, Books, AddAttempt, RunningCount;
    if from < |s.history| {
      if NeedsRetry(p.generators[from], s.history[from]) {
        AddKeeps(p, s, from);
        AddShape(p, s, from);
        RetryKeeps(p, AddAttempt(p, s, from), from + 1);
      } else {
        RetryKeeps(p, s, from + 1);
      }
    }
  }

  lemma AddShape(p: Plan, s: State, g: nat)
    requires g < |s.history| && g < |p.generators|
    ensures |AddAttempt(p, s, g).history| == |s.history| && AddAttempt(p, s, g).run == s.run
  {
  }

  lemma {:induction false} DoneAll(gs: seq<Generator>, hs: seq<seq<Attempt>>)
    requires |gs| == |hs|
    ensures DoneCount(gs, hs) <= |gs|
    ensures DoneCount(gs, hs) == |gs| <==> forall i | 0 <= i < |gs| :: Done(gs[i], hs[i])
  {
    hide Done;
    if gs != [] {
      DoneAll(gs[1..], hs[1..]);
      assert gs == [gs[0]] + gs[1..] && hs == [hs[0]] + hs[1..];
    }
  }

  lemma {:induction false} TerminalBound(hs: seq<seq<Attempt>>)
    ensures CountSum(TerminalIn, hs) <= CountSum(Length, hs)
  {
    if hs != [] {
      TerminalBound(hs[1..]);
      TerminalInBound(hs[0]);
    }
  }

  lemma {:induction false} TerminalInBound(h: seq<Attempt>)
    ensures TerminalIn(h) <= |h|
  {
    if h != [] { TerminalInBound(h[1..]); }
  }

  /** Recounting stores a record that meets its own contract, and the branch for
      a corrupt budget is not taken. */
  lemma RecountKeeps(p: Plan, s: State)
    requires ValidPlan(p) && Core(p, s) && Books(s) && RunningCount(s) <= p.concurrency
    ensures Inv(p, Recount(p, s))
  {
    BudgetHolds(p, s);
    DoneAll(p.generators, s.history);
    TerminalBound(s.history);
    D.FinalizeLength(s.refs);
    D.RetainedCountBound(D.Finalize(s.refs));
    var t := Recount(p, s);
    hide Core, Sum, CountSum, D.Finalize, D.RetainedCount, EntryOk, TotalDemand, DoneCount, Done, Sound, RunningCount,
         Outstanding, Consumed;
    assert t.history == s.history && t.ledger == s.ledger && |t.refs| == |s.refs|;
    SameBooks(p, s, t);
    assert RunOk(p, t.run);
  }

  lemma SameBooks(p: Plan, s: State, t: State)
    requires Core(p, s) && Books(s) && t.history == s.history && t.ledger == s.ledger && |t.refs| == |s.refs|
    ensures Core(p, t) && Books(t) && RunningCount(t) == RunningCount(s)
  {
    hide Sum, Sound, EntryOk, CountSum;
  }

  lemma ReconcileKeeps(p: Plan, s: State, expired: set<nat>)
    requires ValidPlan(p) && Core(p, s) && Books(s) && RunningCount(s) <= p.concurrency
    requires !Closed(s.run.state) && |p.generators| == |s.history|
    ensures Inv(p, Reconcile(p, s, expired))
  {
    hide Core, Books, RunningCount, LapseAll, RetryAll, Recount, Inv, ValidPlan;
    CoreLength(p, s);
    LapseAllLength(s, expired, 0);
    LapseKeeps(p, s, expired, 0);
    RetryAllLength(p, LapseAll(s, expired, 0), 0);
    RetryKeeps(p, LapseAll(s, expired, 0), 0);
    RecountKeeps(p, RetryAll(p, LapseAll(s, expired, 0), 0));
  }

  lemma CoreLength(p: Plan, s: State)
    requires Core(p, s)
    ensures |s.history| == |p.generators|
  {
  }

  // ---------- Steps

  lemma {:induction false} FirstPendingIs(hs: seq<seq<Attempt>>)
    ensures FirstPending(hs) <= |hs|
    ensures FirstPending(hs) < |hs| ==> hs[FirstPending(hs)] != [] && Last(hs[FirstPending(hs)]).phase == Pending
  {
    if hs != [] { FirstPendingIs(hs[1..]); }
  }

  /** Marking a pending attempt as running moves no money. */
  lemma ClaimSums(hs: seq<seq<Attempt>>, g: nat, a: Attempt)
    requires g < |hs| && hs[g] != [] && Last(hs[g]).phase == Pending && a == Last(hs[g]).(phase := Running)
    ensures var t := hs[g := Replace(hs[g], a)];
            && Sum(LiveIn, t) == Sum(LiveIn, hs) && Sum(ActualIn, t) == Sum(ActualIn, hs)
            && CountSum(RunningIn, t) == CountSum(RunningIn, hs) + 1
  {
    hide Sum, CountSum, Add, Replace;
    var h := hs[g];
    var k := Replace(h, a);
    SumReplace(Live, h, a);
    SumReplace(Actual, h, a);
    RunningReplace(h, a);
    SumUpdate(LiveIn, hs, g, k);
    SumUpdate(ActualIn, hs, g, k);
    CountUpdate(RunningIn, hs, g, k);
    Cancel(Sum(LiveIn, hs[g := k]), Sum(LiveIn, hs), LiveIn(h));
    Cancel(Sum(ActualIn, hs[g := k]), Sum(ActualIn, hs), ActualIn(h));
  }

  lemma Cancel(a: Usage, b: Usage, c: Usage)
    requires Add(a, c) == Add(b, c)
    ensures a == b
  {
  }

  lemma ClaimKeeps(p: Plan, s: State)
    requires Inv(p, s)
    ensures Inv(p, Claim(p, s))
  {
    FirstPendingIs(s.history);
    var g, t := FirstPending(s.history), Claim(p, s);
    if t != s {
      var h := s.history[g];
      var a := Last(h).(phase := Running);
      SoundLast(p.generators[g], h);
      SoundReplace(p.generators[g], h, a);
      ClaimSums(s.history, g, a);
      hide Replace, Sound, RunOk, Sum, CountSum, EntryOk, AllDone, FirstPending;
      CoreUpdate(p, s, g, Replace(h, a), t);
      assert Books(t);
    }
  }

  /** Nothing is running, or can run again, once every generator is done. */
  lemma DoneQuiet(g: Generator, h: seq<Attempt>)
    requires Sound(g, h) && Done(g, h)
    ensures !IsLive(Last(h)) && !NeedsRetry(g, h)
  {
    if AnySucceeded(h) {
      var k :| 0 <= k < |h| && h[k].phase == Succeeded;
      assert k == |h| - 1;
    }
  }

  lemma SettleChoice(p: Plan, s: State, g: nat, r: Report)
    requires Core(p, s) && HasAttempt(s, g) && Last(s.history[g]).phase == Running
    requires Settleable(p.generators[g], r)
    ensures var reserved := Last(s.history[g]).reserved;
            if r.NoBatch? || !Within(Reported(r), reserved) then Settles(s, g, Failed, Conservative(reserved), [])
            else Settles(s, g, if r.failed then Failed else Succeeded, Reported(r), r.refs)
  {
    LapseSettles(p, s, g);
  }

  lemma SettleKeeps(p: Plan, s: State, g: nat, r: Report, expired: set<nat>)
    requires ValidPlan(p) && Inv(p, s)
    ensures |p.generators| == |s.history| && Inv(p, Settle(p, s, g, r, expired))
  {
    hide Books, RunningCount, EndAttempt, Reconcile, Settles, ValidPlan, RunOk, Sound, Done, Conservative, Settleable,
         Reported, Within, NeedsRetry;
    if HasAttempt(s, g) && Last(s.history[g]).phase == Running && Settleable(p.generators[g], r) {
      if Closed(s.run.state) {
        DoneQuiet(p.generators[g], s.history[g]);
      } else {
        SettleChoice(p, s, g, r);
        var reserved := Last(s.history[g]).reserved;
        var failed := r.NoBatch? || !Within(Reported(r), reserved);
        var phase := if failed || r.failed then Failed else Succeeded;
        var actual := if failed then Conservative(reserved) else Reported(r);
        var refs := if failed then [] else r.refs;
        EndKeeps(p, s, g, phase, actual, refs);
        EndShape(s, g, phase, actual, refs);
        ReconcileKeeps(p, EndAttempt(s, g, phase, actual, refs), expired);
      }
    }
  }

  lemma {:induction false} StartSums(gs: seq<Generator>, hs: seq<seq<Attempt>>)
    requires |hs| == |gs| && forall i | 0 <= i < |gs| :: hs[i] == [Fresh(gs[i])]
    ensures Sum(LiveIn, hs) == Sum(ReservedFor, gs) && Sum(ActualIn, hs) == ZERO && CountSum(RunningIn, hs) == 0
  {
    if gs != [] {
      StartSums(gs[1..], hs[1..]);
      hide Sum, Add, CountSum;
      FreshSums(gs[0]);
      SumPeel(LiveIn, hs);
      SumPeel(ActualIn, hs);
      SumPeel(ReservedFor, gs);
      CountPeel(RunningIn, hs);
      AddZero(ZERO);
    }
  }

  lemma SumPeel<T>(f: T -> Usage, s: seq<T>)
    requires s != []
    ensures Sum(f, s) == Add(f(s[0]), Sum(f, s[1..]))
  {
  }

  lemma CountPeel<T>(f: T -> nat, s: seq<T>)
    requires s != []
    ensures CountSum(f, s) == f(s[0]) + CountSum(f, s[1..])
  {
  }

  lemma FreshSums(g: Generator)
    ensures LiveIn([Fresh(g)]) == ReservedFor(g) && ActualIn([Fresh(g)]) == ZERO && RunningIn([Fresh(g)]) == 0
  {
    hide Sum, Add, CountSum, ReservedFor;
    var none: seq<Attempt> := [];
    assert [Fresh(g)] == none + [Fresh(g)];
    SumAppend(Live, none, Fresh(g));
    SumAppend(Actual, none, Fresh(g));
    CountAppend(RunningOne, none, Fresh(g));
    SumNone(Live, none);
    SumNone(Actual, none);
    CountNone(none);
    ZeroAdd(ReservedFor(g));
    AddZero(ZERO);
  }

  lemma ZeroAdd(u: Usage)
    ensures Add(ZERO, u) == u
  {
  }

  lemma CountNone(h: seq<Attempt>)
    requires |h| == 0
    ensures CountSum(RunningOne, h) == 0
  {
  }

  predicate StartEntry(g: Generator, e: LedgerEntry) {
    e.kind == Reserve && e.reserved == ReservedFor(g) && e.actual == ZERO
  }

  lemma StartEntrySums(g: Generator, e: LedgerEntry)
    requires StartEntry(g, e)
    ensures ReservedUsage(e) == ReservedFor(g) && SettledUsage(e) == ZERO && ReleasedUsage(e) == ZERO && EntryOk(e)
  {
  }

  lemma {:induction false} StartLedger(gs: seq<Generator>, es: seq<LedgerEntry>)
    requires |es| == |gs| && forall i | 0 <= i < |gs| :: StartEntry(gs[i], es[i])
    ensures Sum(ReservedUsage, es) == Sum(ReservedFor, gs)
    ensures Sum(SettledUsage, es) == ZERO && Sum(ReleasedUsage, es) == ZERO
    ensures forall e | e in es :: EntryOk(e)
  {
    hide *;
    if |gs| == 0 {
      SumNone(ReservedUsage, es);
      SumNone(SettledUsage, es);
      SumNone(ReleasedUsage, es);
      SumNone(ReservedFor, gs);
    } else {
      StartLedger(gs[1..], es[1..]);
      StartEntrySums(gs[0], es[0]);
      assert es == [es[0]] + es[1..];
      SumPeel(ReservedUsage, es);
      SumPeel(SettledUsage, es);
      SumPeel(ReleasedUsage, es);
      SumPeel(ReservedFor, gs);
      AddZero(ZERO);
    }
  }

  lemma StartSound(p: Plan)
    requires ValidPlan(p)
    ensures Core(p, Start(p))
  {
    var s := Start(p);
    forall i | 0 <= i < |s.history| ensures Sound(p.generators[i], s.history[i]) {
      assert ValidGenerator(p.generators[i]);
    }
  }

  lemma StartBooks(p: Plan)
    ensures Books(Start(p)) && RunningCount(Start(p)) == 0 && Outstanding(Start(p)) == Start(p).run.reserved
  {
    var s := Start(p);
    hide Sum, CountSum, EntryOk, ReservedFor, Add;
    StartSums(p.generators, s.history);
    StartLedger(p.generators, s.ledger);
    AddZero(Outstanding(s));
  }

  lemma StartKeeps(p: Plan)
    requires ValidPlan(p)
    ensures Inv(p, Start(p))
  {
    StartSound(p);
    StartBooks(p);
    StartRun(p);
    hide Core, Books, RunOk, ValidPlan, RunningCount, Outstanding, AllDone;
  }

  lemma StartRun(p: Plan)
    requires ValidPlan(p) && Core(p, Start(p)) && Books(Start(p)) && Outstanding(Start(p)) == Start(p).run.reserved
    ensures RunOk(p, Start(p).run) && !Closed(Start(p).run.state) && Start(p).run.error == None
  {
    var s := Start(p);
    BudgetHolds(p, s);
    hide Sum, CountSum, EntryOk, Sound, ReservedFor, TotalDemand, Core, Books, Add;
    AddZero(s.run.reserved);
    AddFields(Outstanding(s), Consumed(s));
  }

  predicate Bound(c: StartCall) {
    && c.zoned && c.requestRun == c.keyRun == c.planRun && c.planId == c.keyPlan
    && c.boundId == c.requestId && c.boundHash == c.requestHash
  }

  /** A valid plan is started exactly when the request is bound to its key and
      allows the plan's proposals: summing the reservations never passes a
      bound, and the first record meets its contract. */
  lemma StartAccepted(c: StartCall)
    requires ValidPlan(c.plan)
    ensures BuildStart(c).Ok? <==> Bound(c) && c.plan.budget.proposals <= c.maxProposals
    ensures BuildStart(c).Ok? ==> BuildStart(c).value == Start(c.plan) && Inv(c.plan, Start(c.plan))
  {
    StartKeeps(c.plan);
    hide ValidPlan, Core, Books, RunningCount, AllDone, Sum;
  }

  /** Whatever the order of claims, settlements, expired leases and reviews,
      every reachable state satisfies the invariant. */
  lemma {:induction false} Reachable(p: Plan, steps: seq<Step>)
    requires ValidPlan(p)
    ensures Inv(p, Reach(p, steps))
  {
    hide Inv, ValidPlan, Start, Claim, Settle, Reconcile, CompleteReview;
    if steps == [] {
      StartKeeps(p);
    } else {
      var n := |steps| - 1;
      Reachable(p, steps[..n]);
      ApplyKeeps(p, Reach(p, steps[..n]), steps[n]);
    }
  }

  lemma ApplyKeeps(p: Plan, s: State, step: Step)
    requires ValidPlan(p) && Inv(p, s) && |p.generators| == |s.history|
    ensures Inv(p, Apply(p, s, step))
  {
    hide ValidPlan, Claim, Settle, Core, Books, RunOk, AllDone, RunningCount;
    match step
    case ClaimStep => ClaimKeeps(p, s);
    case SettleStep(g, report, expired) => SettleKeeps(p, s, g, report, expired);
    case ReconcileStep(expired) =>
      if !Closed(s.run.state) { ReconcileKeeps(p, s, expired); }
    case ReviewStep => ReviewKeeps(p, s);
  }

  lemma ReviewKeeps(p: Plan, s: State)
    requires Inv(p, s)
    ensures Inv(p, CompleteReview(s))
  {
    hide Sound, Sum, CountSum, EntryOk, Done;
  }

  /** The budget is safe in every run, in all five dimensions. */
  lemma BudgetSafe(p: Plan, steps: seq<Step>)
    requires ValidPlan(p)
    ensures var s := Reach(p, steps);
            && Fits(Add(Outstanding(s), Consumed(s)), p.budget)
            && Plus(Outstanding(s), Consumed(s)).Some?
            && CountSum(Length, s.history) <= p.budget.attempts && |s.refs| <= p.budget.proposals
            && RunningCount(s) <= p.concurrency
            && RunOk(p, s.run) && s.run.error != Some(BudgetCorrupt)
  {
    hide Core, Books, Outstanding, Consumed, RunningCount, Fits, ValidPlan, RunOk, AllDone, Add;
    Reachable(p, steps);
    BudgetHolds(p, Reach(p, steps));
  }

  /** The ledger of every run balances. */
  lemma LedgerBalances(p: Plan, steps: seq<Step>)
    requires ValidPlan(p)
    ensures Books(Reach(p, steps))
  {
    hide Core, Books, RunningCount, ValidPlan, RunOk, AllDone;
    Reachable(p, steps);
  }

  /** A closed run stays closed: nothing is running and no step but the review
      changes it. */
  lemma ClosedIsFinal(p: Plan, steps: seq<Step>, step: Step)
    requires ValidPlan(p) && Closed(Reach(p, steps).run.state) && step != ReviewStep
    ensures Apply(p, Reach(p, steps), step) == Reach(p, steps)
    ensures forall h | h in Reach(p, steps).history :: h != [] && !IsLive(Last(h))
  {
    hide Books, RunningCount, ValidPlan, RunOk, Sound, Done, EndAttempt, NeedsRetry, Settleable, Reach, IsLive;
    Reachable(p, steps);
    var s := Reach(p, steps);
    forall i | 0 <= i < |s.history| ensures s.history[i] != [] && !IsLive(Last(s.history[i])) {
      SoundLast(p.generators[i], s.history[i]);
      DoneQuiet(p.generators[i], s.history[i]);
    }
    LiveMeans();
  }

  lemma LiveMeans()
    ensures forall a: Attempt :: a.phase == Running ==> IsLive(a)
  {
  }
}
