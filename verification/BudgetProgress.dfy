/** A run moves on: which attempt a claim takes, and that every run can be
    brought to its end. */
module BudgetProgress {
  import opened Text
  import opened Budget
  import opened BudgetSafety
  import opened BudgetSteps

  predicate Ready(s: State, g: nat) { HasAttempt(s, g) && Last(s.history[g]).phase == Pending }

  predicate Busy(s: State, g: nat) { HasAttempt(s, g) && Last(s.history[g]).phase == Running }

  // ---------- claims

  lemma {:induction false} FirstPendingLeast(hs: seq<seq<Attempt>>, g: nat)
    requires g < |hs| && hs[g] != [] && Last(hs[g]).phase == Pending
    ensures FirstPending(hs) <= g
  {
    if g > 0 { FirstPendingLeast(hs[1..], g - 1); }
  }

  lemma FirstPendingReady(s: State)
    ensures FirstPending(s.history) < |s.history| ==> Ready(s, FirstPending(s.history))
  {
    hide FirstPending;
    FirstPendingIs(s.history);
  }

  /** In an active run with a place free, a claim starts the newest attempt of
      the first generator that has it pending, and changes nothing else. */
  lemma ClaimTakesFirst(p: Plan, s: State, g: nat)
    requires s.run.state == Active && RunningCount(s) < p.concurrency
    requires Ready(s, g) && forall i: nat | i < g :: !Ready(s, i)
    ensures var t := Claim(p, s);
            var h := s.history[g];
            && t.run == s.run && t.ledger == s.ledger && t.refs == s.refs && |t.history| == |s.history|
            && (forall i | 0 <= i < |s.history| && i != g :: t.history[i] == s.history[i])
            && t.history[g] == h[|h| - 1 := h[|h| - 1].(phase := Running)]
  {
    hide RunningCount, FirstPending;
    FirstPendingReady(s);
    FirstPendingLeast(s.history, g);
  }

  lemma ClaimChangesIff(p: Plan, s: State)
    ensures Claim(p, s) != s <==>
              s.run.state == Active && RunningCount(s) < p.concurrency && exists g: nat :: Ready(s, g)
  {
    hide RunningCount, FirstPending;
    FirstPendingIs(s.history);
    var g := FirstPending(s.history);
    if exists i: nat :: Ready(s, i) {
      var i: nat :| Ready(s, i);
      FirstPendingLeast(s.history, i);
    }
    if HasAttempt(s, g) {
      assert Ready(s, g);
      assert Replace(s.history[g], Last(s.history[g]).(phase := Running))[|s.history[g]| - 1].phase == Running;
    }
  }

  /** The generators, among the first `n`, whose newest attempt is running. */
  function BusyAmong(s: State, n: nat): set<nat> { set g: nat | g < n && Busy(s, g) }

  /** The count that bounds concurrency is the number of generators whose newest
      attempt is running. */
  lemma RunningCountIs(p: Plan, s: State)
    requires Core(p, s)
    ensures RunningCount(s) == |BusyAmong(s, |s.history|)|
  {
    RunningUpTo(p, s, |s.history|);
    assert s.history[..|s.history|] == s.history;
  }

  lemma {:induction false} RunningUpTo(p: Plan, s: State, n: nat)
    requires Core(p, s) && n <= |s.history|
    ensures CountSum(RunningIn, s.history[..n]) == |BusyAmong(s, n)|
  {
    hide CountSum, Sound, RunningIn;
    if n == 0 {
      NothingCounted(s);
    } else {
      RunningUpTo(p, s, n - 1);
      var h := s.history[n - 1];
      assert s.history[..n] == s.history[..n - 1] + [h];
      CountAppend(RunningIn, s.history[..n - 1], h);
      LastRuns(p.generators[n - 1], h);
      assert BusyAmong(s, n) == if Busy(s, n - 1) then BusyAmong(s, n - 1) + {n - 1} else BusyAmong(s, n - 1);
    }
  }

  lemma NothingCounted(s: State)
    ensures CountSum(RunningIn, []) == 0 && BusyAmong(s, 0) == {}
  {
  }

  lemma {:induction false} NoneRuns(h: seq<Attempt>)
    requires forall k | 0 <= k < |h| :: h[k].phase != Running
    ensures CountSum(RunningOne, h) == 0
  {
    if h != [] { NoneRuns(h[1..]); }
  }

  lemma LastRuns(g: Generator, h: seq<Attempt>)
    requires Sound(g, h)
    ensures h != [] && RunningIn(h) == if Last(h).phase == Running then 1 else 0
  {
    var n := |h| - 1;
    NoneRuns(h[..n]);
    CountAppend(RunningOne, h[..n], Last(h));
    assert h == h[..n] + [Last(h)];
  }

  // ---------- a run can be closed

  /** What a generator has before it: claims and settlements of the attempt at
      hand and of those it may still be given. */
  function Left(g: Generator, h: seq<Attempt>): nat {
    if h == [] || |h| > g.maxAttempts then 0
    else
      2 * (g.maxAttempts - |h|)
      + (match Last(h).phase case Pending => 2 case Running => 1 case _ => 0)
  }

  function AllLeft(gs: seq<Generator>, hs: seq<seq<Attempt>>): nat
    requires |gs| == |hs|
  {
    if gs == [] then 0 else Left(gs[0], hs[0]) + AllLeft(gs[1..], hs[1..])
  }

  /** One generator moved, the others stayed. */
  lemma {:induction false} LessLeft(gs: seq<Generator>, hs: seq<seq<Attempt>>, ks: seq<seq<Attempt>>, g: nat)
    requires |gs| == |hs| == |ks| && g < |gs|
    requires forall i | 0 <= i < |gs| && i != g :: ks[i] == hs[i]
    ensures AllLeft(gs, ks) == AllLeft(gs, hs) - Left(gs[g], hs[g]) + Left(gs[g], ks[g])
  {
    hide Left;
    if g == 0 {
      assert hs[1..] == ks[1..];
    } else {
      LessLeft(gs[1..], hs[1..], ks[1..], g - 1);
    }
  }

  lemma ClaimedLeft(p: Plan, s: State, g: nat)
    requires |p.generators| == |s.history| && s.run.state == Active && RunningCount(s) < p.concurrency
    requires Core(p, s) && Ready(s, g)
    ensures AllLeft(p.generators, Claim(p, s).history) < AllLeft(p.generators, s.history)
  {
    hide RunningCount, FirstPending, AllLeft, Sound;
    FirstPendingLeast(s.history, g);
    FirstPendingIs(s.history);
    var i := FirstPending(s.history);
    LessLeft(p.generators, s.history, Claim(p, s).history, i);
    SoundLength(p.generators[i], s.history[i]);
  }

  lemma SoundLength(g: Generator, h: seq<Attempt>)
    requires Sound(g, h)
    ensures 1 <= |h| <= g.maxAttempts
  {
  }

  /** A settlement without a batch fails the attempt; the others stay. */
  lemma SettledLeft(p: Plan, s: State, g: nat)
    requires Inv(p, s) && !Closed(s.run.state) && Waiting(p, s) && Busy(s, g)
    ensures var t := Settle(p, s, g, NoBatch, {});
            |t.history| == |p.generators| && AllLeft(p.generators, t.history) < AllLeft(p.generators, s.history)
  {
    var actual := Conservative(Last(s.history[g]).reserved);
    var u := EndAttempt(s, g, Failed, actual, []);
    var t := Settle(p, s, g, NoBatch, {});
    InvSound(p, s, g);
    hide Inv, AllLeft, Sound, Reconcile, NeedsRetry, LapseOne, RetryOne, Conservative, Done;
    assert t == Reconcile(p, u, {});
    forall i | 0 <= i < |s.history| && i != g ensures t.history[i] == s.history[i] {
      ReconcileAt(p, u, {}, i);
      Unmoved(p.generators[i], s.history[i]);
    }
    ReconcileAt(p, u, {}, g);
    EndedLeft(p.generators[g], s.history[g], actual);
    LessLeft(p.generators, s.history, t.history, g);
  }

  lemma Unmoved(g: Generator, h: seq<Attempt>)
    requires !NeedsRetry(g, h)
    ensures RetryOne(g, LapseOne(h, false)) == h
  {
  }

  lemma EndedLeft(g: Generator, h: seq<Attempt>, actual: Usage)
    requires Sound(g, h) && Last(h).phase == Running
    ensures var k := Replace(h, Last(h).(phase := Failed, actual := actual));
            Left(g, RetryOne(g, LapseOne(k, false))) < Left(g, h)
  {
    var k := Replace(h, Last(h).(phase := Failed, actual := actual));
    EndedRetry(g, h, Failed, actual, false);
  }

  lemma Reconciled(p: Plan, s: State)
    requires |p.generators| == |s.history| && Waiting(p, s) && !Closed(s.run.state)
    ensures var t := Reconcile(p, s, {}); t.run.state != Created && t.history == s.history
  {
    hide LapseAll, RetryAll, NeedsRetry, LapseOne, RetryOne, Outstanding, Consumed, Fits, Add, CountSum, DoneCount;
    var t := Reconcile(p, s, {});
    forall i | 0 <= i < |s.history| ensures t.history[i] == s.history[i] {
      ReconcileAt(p, s, {}, i);
      Unmoved(p.generators[i], s.history[i]);
    }
  }

  lemma SettledState(p: Plan, s: State, g: nat)
    requires |p.generators| == |s.history| && Busy(s, g) && !Closed(s.run.state)
    ensures Settle(p, s, g, NoBatch, {}).run.state != Created
  {
    hide LapseAll, RetryAll, Outstanding, Consumed, Fits, Add, CountSum, DoneCount;
  }

  /** Whoever runs keeps its place: some generator can be settled or claimed. */
  lemma SomeStep(p: Plan, steps: seq<Step>) returns (g: nat)
    requires ValidPlan(p) && Reach(p, steps).run.state == Active
    ensures var s := Reach(p, steps);
            Busy(s, g) || (Ready(s, g) && RunningCount(s) < p.concurrency)
  {
    hide Reach, RunningCount, Books, RunOk, Sound;
    var s := Reach(p, steps);
    Reachable(p, steps);
    NeverStuck(p, steps);
    if i: nat :| Busy(s, i) {
      g := i;
    } else {
      RunningCountIs(p, s);
      assert BusyAmong(s, |s.history|) == {};
      var i :| 0 <= i < |s.history| && s.history[i] != [] && IsLive(Last(s.history[i]));
      g := i;
    }
  }

  /** From wherever a run stands it can be closed, in at most one step more than
      there are claims and settlements left. */
  lemma {:induction false} CanClose(p: Plan, steps: seq<Step>) returns (more: seq<Step>)
    requires ValidPlan(p)
    ensures Closed(Reach(p, steps + more).run.state)
    ensures |more| <= AllLeft(p.generators, Reach(p, steps).history) + 1
    ensures Reach(p, steps).run.state != Created ==> |more| <= AllLeft(p.generators, Reach(p, steps).history)
    decreases Reach(p, steps).run.state == Created, AllLeft(p.generators, Reach(p, steps).history)
  {
    hide Reach, AllLeft, Inv, Waiting, Reconcile, Settle, Claim, ValidPlan;
    var s := Reach(p, steps);
    if Closed(s.run.state) {
      assert steps + [] == steps;
      return [];
    }
    Reachable(p, steps);
    InvCore(p, s);
    ReachWaits(p, steps);
    var step;
    if s.run.state == Created {
      step := ReconcileStep({});
      Reconciled(p, s);
    } else {
      var g := SomeStep(p, steps);
      if Busy(s, g) {
        step := SettleStep(g, NoBatch, {});
        SettledLeft(p, s, g);
        SettledState(p, s, g);
      } else {
        step := ClaimStep;
        ClaimedLeft(p, s, g);
        ClaimWaits(p, s);
      }
    }
    Further(p, steps, step);
    more := CanClose(p, steps + [step]);
    assert steps + [step] + more == steps + ([step] + more);
    more := [step] + more;
  }

  lemma InvCore(p: Plan, s: State)
    requires Inv(p, s)
    ensures Core(p, s)
  {
  }

  lemma Further(p: Plan, steps: seq<Step>, step: Step)
    ensures Reach(p, steps + [step]) == Apply(p, Reach(p, steps), step)
  {
    hide Apply;
    assert (steps + [step])[..|steps|] == steps;
  }

  /** One pending attempt for each generator. */
  function FirstAttempts(gs: seq<Generator>): seq<seq<Attempt>> {
    if gs == [] then [] else [[Fresh(gs[0])]] + FirstAttempts(gs[1..])
  }

  lemma {:induction false} FirstAttemptsAt(gs: seq<Generator>)
    ensures |FirstAttempts(gs)| == |gs| && forall i | 0 <= i < |gs| :: FirstAttempts(gs)[i] == [Fresh(gs[i])]
  {
    if gs != [] { FirstAttemptsAt(gs[1..]); }
  }

  /** Each attempt of the plan costs at most a claim and a settlement. */
  lemma {:induction false} StartLeft(gs: seq<Generator>)
    requires forall g | g in gs :: ValidGenerator(g)
    ensures |FirstAttempts(gs)| == |gs| && AllLeft(gs, FirstAttempts(gs)) == 2 * TotalDemand(gs).attempts
  {
    FirstAttemptsAt(gs);
    if gs != [] {
      StartLeft(gs[1..]);
      assert gs[0] in gs;
      assert FirstAttempts(gs)[1..] == FirstAttempts(gs[1..]);
    }
  }

  lemma AtStart(p: Plan)
    ensures Reach(p, []).history == FirstAttempts(p.generators)
  {
    FirstAttemptsAt(p.generators);
    hide FirstAttempts, Fresh;
    var a, b := Reach(p, []).history, FirstAttempts(p.generators);
    assert |a| == |b| && forall i | 0 <= i < |b| :: a[i] == b[i];
  }

  /** So a plan's run needs at most two steps for each attempt that it allows,
      and one to begin with. */
  lemma WholeRun(p: Plan) returns (steps: seq<Step>)
    requires ValidPlan(p)
    ensures Closed(Reach(p, steps).run.state) && |steps| <= 2 * TotalDemand(p.generators).attempts + 1
  {
    hide Reach, AllLeft, TotalDemand, Start;
    steps := CanClose(p, []);
    assert [] + steps == steps;
    StartLeft(p.generators);
    AtStart(p);
  }
}
