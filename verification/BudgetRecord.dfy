/** What the stored run record says, in every run, and how a run ends. */
module BudgetRecord {
  import opened Text
  import opened Budget
  import opened BudgetSafety
  import opened BudgetSteps
  import opened BudgetProgress
  import D = Disposition

  /** The record was counted on the present attempts and proposals. */
  predicate Counted(p: Plan, s: State) {
    && |p.generators| == |s.history|
    && s.run.attempts == CountSum(Length, s.history) && s.run.terminalAttempts == CountSum(TerminalIn, s.history)
    && s.run.terminalGenerators == DoneCount(p.generators, s.history)
    && s.run.proposals == |s.refs| && s.run.retained == (if Closed(s.run.state) then |D.Hashes(s.refs)| else 0)
    && s.run.reserved == Outstanding(s) && s.run.consumed == Consumed(s)
    && (Closed(s.run.state) ==> (s.run.state == Broken <==> s.refs == []))
    && (s.run.state == Broken ==> s.run.error == Some(NoRetainedProposals))
  }

  // ---------- every step keeps it

  lemma {:induction false} StartCounts(gs: seq<Generator>, hs: seq<seq<Attempt>>)
    requires |hs| == |gs| && forall i | 0 <= i < |gs| :: hs[i] == [Fresh(gs[i])]
    ensures CountSum(Length, hs) == |gs| && CountSum(TerminalIn, hs) == 0 && DoneCount(gs, hs) == 0
  {
    if gs != [] {
      StartCounts(gs[1..], hs[1..]);
      FreshCounts(gs[0]);
    }
  }

  lemma FreshCounts(g: Generator)
    ensures TerminalIn([Fresh(g)]) == 0 && !Done(g, [Fresh(g)])
  {
    var none: seq<Attempt> := [];
    CountAppend(TerminalOne, none, Fresh(g));
    assert none + [Fresh(g)] == [Fresh(g)] && forall a | a in [Fresh(g)] :: a == Fresh(g);
  }

  lemma StartCounted(p: Plan)
    ensures Counted(p, Start(p))
  {
    var s := Start(p);
    StartCounts(p.generators, s.history);
    StartBooks(p);
    StartConsumes(p);
    hide Sum, CountSum, DoneCount;
  }

  lemma StartConsumes(p: Plan)
    ensures Consumed(Start(p)) == ZERO
  {
    var s := Start(p);
    hide Sum, ReservedFor;
    StartLedger(p.generators, s.ledger);
  }

  lemma {:induction false} AssignHashes(ordered: seq<D.Ref>, kept: map<nat, nat>)
    ensures D.Hashes(D.Assign(ordered, kept)) == D.Hashes(ordered)
  {
    if ordered != [] {
      var r, rest := ordered[0], ordered[1..];
      assert ordered == [r] + rest;
      D.HashesCons(r, rest);
      var next := if r.normalized in kept then kept else kept[r.normalized := r.id];
      AssignHashes(rest, next);
      D.HashesCons(D.Assign(ordered, kept)[0], D.Assign(rest, next));
    }
  }

  lemma SameHashes(a: seq<D.Ref>, b: seq<D.Ref>)
    requires multiset(a) == multiset(b)
    ensures D.Hashes(a) == D.Hashes(b)
  {
    D.MultisetSame(a, b);
  }

  /** Finalizing keeps the set of patch identities, and there is one as soon as
      there is a proposal. */
  lemma FinalizeHashes(rs: seq<D.Ref>)
    ensures D.Hashes(D.Finalize(rs)) == D.Hashes(rs) && (D.Hashes(rs) == {} <==> rs == [])
  {
    hide D.Sort, D.Assign, D.Hashes;
    var ordered := D.Sort(true, rs);
    D.SortMembers(true, rs);
    SameHashes(ordered, rs);
    AssignHashes(ordered, map[]);
    D.SortMembers(false, D.Assign(ordered, map[]));
    SameHashes(D.Finalize(rs), D.Assign(ordered, map[]));
    SomeHash(rs);
  }

  lemma SomeHash(rs: seq<D.Ref>)
    ensures D.Hashes(rs) == {} <==> rs == []
  {
    if rs != [] { assert rs[0].normalized in D.Hashes(rs); }
  }

  lemma RecountCounted(p: Plan, s: State)
    requires |p.generators| == |s.history| && Fits(Add(Outstanding(s), Consumed(s)), p.budget)
    ensures Counted(p, Recount(p, s))
    ensures Closed(Recount(p, s).run.state) <==> DoneCount(p.generators, s.history) == |p.generators|
  {
    hide Sum, CountSum, DoneCount, D.Finalize, D.RetainedCount, D.Hashes, Fits, Add, Outstanding;
    D.FinalizeLength(s.refs);
    D.RetainedCountIsHashes(s.refs);
    FinalizeHashes(s.refs);
    NoneEmpty(D.Hashes(s.refs));
    assert D.Finalize(s.refs) == [] <==> s.refs == [];
    var t := Recount(p, s);
    assert t.history == s.history && t.ledger == s.ledger;
    assert Outstanding(t) == Outstanding(s) by { SameHistory(s, t); }
  }

  lemma SameHistory(s: State, t: State)
    requires s.history == t.history
    ensures Outstanding(s) == Outstanding(t)
  {
  }

  lemma NoneEmpty(hashes: set<nat>)
    ensures |hashes| == 0 <==> hashes == {}
  {
  }

  lemma ReconcileCounted(p: Plan, s: State, expired: set<nat>)
    requires ValidPlan(p) && Core(p, s) && Books(s) && RunningCount(s) <= p.concurrency
    requires !Closed(s.run.state) && |p.generators| == |s.history|
    ensures Counted(p, Reconcile(p, s, expired))
  {
    hide Core, Books, RunningCount, LapseAll, RetryAll, Recount, ValidPlan, Fits, Counted;
    LapseAllLength(s, expired, 0);
    LapseKeeps(p, s, expired, 0);
    RetryAllLength(p, LapseAll(s, expired, 0), 0);
    RetryKeeps(p, LapseAll(s, expired, 0), 0);
    BudgetHolds(p, RetryAll(p, LapseAll(s, expired, 0), 0));
    RecountCounted(p, RetryAll(p, LapseAll(s, expired, 0), 0));
  }

  lemma {:induction false} ClaimCounts(gs: seq<Generator>, hs: seq<seq<Attempt>>, g: nat, a: Attempt)
    requires |gs| == |hs| && g < |hs| && hs[g] != []
    requires Last(hs[g]).phase == Pending && a == Last(hs[g]).(phase := Running)
    ensures var t := hs[g := Replace(hs[g], a)];
            && CountSum(Length, t) == CountSum(Length, hs) && CountSum(TerminalIn, t) == CountSum(TerminalIn, hs)
            && DoneCount(gs, t) == DoneCount(gs, hs)
  {
    hide CountSum, DoneCount, Done, Replace;
    var k := Replace(hs[g], a);
    CountUpdate(Length, hs, g, k);
    CountUpdate(TerminalIn, hs, g, k);
    StillLive(gs[g], hs[g], a);
    DoneSame(gs, hs, hs[g := k]);
  }

  lemma StillLive(g: Generator, h: seq<Attempt>, a: Attempt)
    requires h != [] && Last(h).phase == Pending && a == Last(h).(phase := Running)
    ensures |Replace(h, a)| == |h| && TerminalIn(Replace(h, a)) == TerminalIn(h)
    ensures Done(g, Replace(h, a)) == Done(g, h)
  {
    hide CountSum;
    var k := Replace(h, a);
    CountAppend(TerminalOne, h[..|h| - 1], Last(h));
    CountAppend(TerminalOne, h[..|h| - 1], a);
    assert h == h[..|h| - 1] + [Last(h)];
    assert AnySucceeded(k) == AnySucceeded(h) by {
      forall x | x in h && x.phase == Succeeded ensures x in k { assert x != Last(h); }
      forall x | x in k && x.phase == Succeeded ensures x in h { assert x != a; }
    }
  }

  lemma {:induction false} DoneSame(gs: seq<Generator>, hs: seq<seq<Attempt>>, ks: seq<seq<Attempt>>)
    requires |gs| == |hs| == |ks| && forall i | 0 <= i < |gs| :: Done(gs[i], hs[i]) == Done(gs[i], ks[i])
    ensures DoneCount(gs, hs) == DoneCount(gs, ks)
  {
    hide Done;
    if gs != [] { DoneSame(gs[1..], hs[1..], ks[1..]); }
  }

  lemma ClaimCounted(p: Plan, s: State)
    requires Counted(p, s)
    ensures Counted(p, Claim(p, s))
  {
    hide CountSum, DoneCount, RunningCount, FirstPending, Sum, Replace, D.Hashes;
    FirstPendingReady(s);
    var g, t := FirstPending(s.history), Claim(p, s);
    if t != s {
      var a := Last(s.history[g]).(phase := Running);
      ClaimCounts(p.generators, s.history, g, a);
      ClaimSums(s.history, g, a);
    }
  }

  lemma SettleCounted(p: Plan, s: State, g: nat, r: Report, expired: set<nat>)
    requires ValidPlan(p) && Inv(p, s) && Counted(p, s) && |p.generators| == |s.history|
    ensures Counted(p, Settle(p, s, g, r, expired))
  {
    hide Books, RunningCount, EndAttempt, Reconcile, Settles, ValidPlan, RunOk, Sound, Done, Conservative, Settleable,
         Reported, Within, NeedsRetry, Counted;
    if Busy(s, g) && Settleable(p.generators[g], r) {
      if Closed(s.run.state) {
        DoneQuiet(p.generators[g], s.history[g]);
        LiveMeans();
      } else {
        SettleChoice(p, s, g, r);
        var reserved := Last(s.history[g]).reserved;
        var failed := r.NoBatch? || !Within(Reported(r), reserved);
        var phase := if failed || r.failed then Failed else Succeeded;
        var actual := if failed then Conservative(reserved) else Reported(r);
        var refs := if failed then [] else r.refs;
        EndKeeps(p, s, g, phase, actual, refs);
        EndShape(s, g, phase, actual, refs);
        ReconcileCounted(p, EndAttempt(s, g, phase, actual, refs), expired);
      }
    }
  }

  lemma ReviewCounted(p: Plan, s: State)
    requires Counted(p, s)
    ensures Counted(p, CompleteReview(s))
  {
    hide CountSum, DoneCount, Sum, D.Hashes;
  }

  lemma {:induction false} AlwaysCounted(p: Plan, steps: seq<Step>)
    requires ValidPlan(p)
    ensures Counted(p, Reach(p, steps))
  {
    hide Inv, ValidPlan, Start, Claim, Settle, Reconcile, CompleteReview, Counted;
    if steps == [] {
      StartCounted(p);
    } else {
      var n := |steps| - 1;
      var s, step := Reach(p, steps[..n]), steps[n];
      AlwaysCounted(p, steps[..n]);
      Reachable(p, steps[..n]);
      match step
      case ClaimStep => ClaimCounted(p, s);
      case SettleStep(g, r, expired) => SettleCounted(p, s, g, r, expired);
      case ReviewStep => ReviewCounted(p, s);
      case ReconcileStep(expired) =>
        if Closed(s.run.state) {
          ReconcileClosed(p, s, expired);
        } else {
          InvParts(p, s);
          ReconcileCounted(p, s, expired);
        }
    }
  }

  lemma InvParts(p: Plan, s: State)
    requires Inv(p, s)
    ensures Core(p, s) && Books(s) && RunningCount(s) <= p.concurrency
  {
  }

  // ---------- what it means

  /** The generator is through: its newest attempt succeeded, or it failed and
      was the last one allowed. */
  predicate Through(p: Plan, s: State, g: nat)
    requires |p.generators| == |s.history|
  {
    && HasAttempt(s, g)
    && var h := s.history[g];
       h[|h| - 1].phase == Succeeded || (h[|h| - 1].phase == Failed && |h| == p.generators[g].maxAttempts)
  }

  predicate Open(s: State, g: nat) { Ready(s, g) || Busy(s, g) }

  function OpenAmong(s: State, n: nat): set<nat> { set g: nat | g < n && Open(s, g) }

  function ThroughAmong(p: Plan, s: State, n: nat): set<nat>
    requires |p.generators| == |s.history|
  {
    set g: nat | g < n && Through(p, s, g)
  }

  lemma ThroughIs(p: Plan, s: State, g: nat)
    requires Core(p, s) && g < |s.history|
    ensures Through(p, s, g) <==> Done(p.generators[g], s.history[g])
  {
    var h := s.history[g];
    assert Sound(p.generators[g], h);
    if AnySucceeded(h) {
      var k :| 0 <= k < |h| && h[k].phase == Succeeded;
      assert k == |h| - 1;
    } else {
      assert Last(h) in h;
    }
  }

  lemma {:induction false} OpenUpTo(p: Plan, s: State, n: nat)
    requires Core(p, s) && n <= |s.history|
    ensures CountSum(Length, s.history[..n]) - CountSum(TerminalIn, s.history[..n]) == |OpenAmong(s, n)|
  {
    hide CountSum, Sound, TerminalIn;
    if n == 0 {
      NoneOpen(s);
    } else {
      OpenUpTo(p, s, n - 1);
      var h := s.history[n - 1];
      assert s.history[..n] == s.history[..n - 1] + [h];
      CountAppend(TerminalIn, s.history[..n - 1], h);
      CountAppend(Length, s.history[..n - 1], h);
      LastOpen(p.generators[n - 1], h);
      assert OpenAmong(s, n) == if Open(s, n - 1) then OpenAmong(s, n - 1) + {n - 1} else OpenAmong(s, n - 1);
    }
  }

  lemma NoneOpen(s: State)
    ensures CountSum(Length, []) == 0 && CountSum(TerminalIn, []) == 0 && OpenAmong(s, 0) == {}
  {
  }

  lemma {:induction false} AllEnded(h: seq<Attempt>)
    requires forall k | 0 <= k < |h| :: h[k].phase == Failed
    ensures CountSum(TerminalOne, h) == |h|
  {
    if h != [] { AllEnded(h[1..]); }
  }

  lemma LastOpen(g: Generator, h: seq<Attempt>)
    requires Sound(g, h)
    ensures h != [] && |h| - TerminalIn(h) == if Last(h).phase == Pending || Last(h).phase == Running then 1 else 0
  {
    var n := |h| - 1;
    AllEnded(h[..n]);
    CountAppend(TerminalOne, h[..n], Last(h));
    assert h == h[..n] + [Last(h)];
  }

  lemma {:induction false} ThroughUpTo(p: Plan, s: State, n: nat)
    requires Core(p, s) && n <= |s.history|
    ensures DoneCount(p.generators[..n], s.history[..n]) == |ThroughAmong(p, s, n)|
  {
    hide DoneCount, Sound, Through, Done;
    if n == 0 {
      NoneThrough(p, s);
    } else {
      ThroughUpTo(p, s, n - 1);
      ThroughIs(p, s, n - 1);
      DoneAppend(p.generators[..n - 1], s.history[..n - 1], p.generators[n - 1], s.history[n - 1]);
      assert p.generators[..n] == p.generators[..n - 1] + [p.generators[n - 1]];
      assert s.history[..n] == s.history[..n - 1] + [s.history[n - 1]];
      assert ThroughAmong(p, s, n) ==
               if Through(p, s, n - 1) then ThroughAmong(p, s, n - 1) + {n - 1} else ThroughAmong(p, s, n - 1);
    }
  }

  lemma NoneThrough(p: Plan, s: State)
    requires |p.generators| == |s.history|
    ensures DoneCount([], []) == 0 && ThroughAmong(p, s, 0) == {}
    ensures p.generators[..0] == [] && s.history[..0] == []
  {
  }

  lemma {:induction false} DoneAppend(gs: seq<Generator>, hs: seq<seq<Attempt>>, g: Generator, h: seq<Attempt>)
    requires |gs| == |hs|
    ensures DoneCount(gs + [g], hs + [h]) == DoneCount(gs, hs) + if Done(g, h) then 1 else 0
  {
    hide Done;
    if gs == [] {
      assert gs + [g] == [g] && hs + [h] == [h] && [g][1..] == [] && [h][1..] == [];
    } else {
      DoneAppend(gs[1..], hs[1..], g, h);
      assert (gs + [g])[1..] == gs[1..] + [g] && (hs + [h])[1..] == hs[1..] + [h];
    }
  }

  /** In every run the record tells how many attempts were made, how many of them
      are still pending or running, how many generators are through, and what is
      reserved and consumed. */
  lemma RecordIsCurrent(p: Plan, steps: seq<Step>)
    requires ValidPlan(p)
    ensures var s := Reach(p, steps);
            var n := |p.generators|;
            && s.run.attempts == CountSum(Length, s.history)
            && s.run.attempts - s.run.terminalAttempts == |OpenAmong(s, n)|
            && s.run.terminalGenerators == |ThroughAmong(p, s, n)|
            && s.run.proposals == |s.refs|
            && s.run.reserved == Outstanding(s) && s.run.consumed == Consumed(s)
  {
    hide Reach, CountSum, DoneCount, Sum, Inv, OpenAmong, ThroughAmong, Open, ValidPlan, D.Hashes;
    var s := Reach(p, steps);
    AlwaysCounted(p, steps);
    Reachable(p, steps);
    InvParts(p, s);
    OpenUpTo(p, s, |s.history|);
    ThroughUpTo(p, s, |s.history|);
    assert s.history[..|s.history|] == s.history && p.generators[..|s.history|] == p.generators;
  }

  /** A run is closed exactly when every generator is through; then it awaits
      its review if it has a proposal, retains one for each patch identity, and
      has failed for want of proposals otherwise. */
  lemma EndIs(p: Plan, steps: seq<Step>)
    requires ValidPlan(p)
    ensures var s := Reach(p, steps);
            && (Closed(s.run.state) <==> forall g: nat | g < |p.generators| :: Through(p, s, g))
            && (Closed(s.run.state) ==>
                  && (s.run.state == Broken <==> s.refs == [])
                  && s.run.error == (if s.refs == [] then Some(NoRetainedProposals) else None)
                  && s.run.retained == |D.Hashes(s.refs)|)
            && (!Closed(s.run.state) ==> s.run.error == None && s.run.retained == 0)
  {
    hide Reach, CountSum, DoneCount, Sum, Done, Through, ValidPlan, D.Hashes, NeedsRetry, RunningCount, Books, Sound;
    var s := Reach(p, steps);
    AlwaysCounted(p, steps);
    Reachable(p, steps);
    ReachWaits(p, steps);
    forall g: nat | g < |p.generators| ensures Through(p, s, g) <==> Done(p.generators[g], s.history[g]) {
      ThroughIs(p, s, g);
    }
  }

  /** A settlement changes something exactly when the attempt is running and the
      report is none, or a batch that has proposals unless it failed, no more of
      them than planned, and a usage within the field bounds. */
  lemma SettleChangesIff(p: Plan, steps: seq<Step>, g: nat, r: Report, expired: set<nat>)
    requires ValidPlan(p)
    ensures var s := Reach(p, steps);
            Settle(p, s, g, r, expired) != s <==>
              && g < |p.generators| && Busy(s, g)
              && (r.Batch? ==>
                    && (r.failed <==> r.refs == []) && |r.refs| <= p.generators[g].maxProposals
                    && r.wall <= 86_400_000 && r.output <= 100_000_000 && r.tokens <= 100_000_000)
  {
    hide Reach, Inv, Reconcile, EndAttempt, Sound, Conservative, Within, ValidPlan, Consumed, Add, Busy;
    var s := Reach(p, steps);
    Reachable(p, steps);
    if g < |p.generators| && Busy(s, g) {
      BusyParts(s, g);
      InvSound(p, s, g);
      PlanProposals(p, g);
      if Settle(p, s, g, r, expired) == s && Settleable(p.generators[g], r) { Charged(p, steps, g, r, expired); }
    } else {
      if Busy(s, g) { BusyParts(s, g); }
      NotBusy(p, s, g, r, expired);
    }
  }

  lemma BusyParts(s: State, g: nat)
    requires Busy(s, g)
    ensures HasAttempt(s, g) && Last(s.history[g]).phase == Running
  {
  }

  lemma NotBusy(p: Plan, s: State, g: nat, r: Report, expired: set<nat>)
    requires |p.generators| == |s.history| && !Busy(s, g)
    ensures Settle(p, s, g, r, expired) == s
  {
  }

  lemma PlanProposals(p: Plan, g: nat)
    requires ValidPlan(p) && g < |p.generators|
    ensures p.generators[g].maxProposals <= 8
  {
    assert p.generators[g] in p.generators;
  }

  lemma Charged(p: Plan, steps: seq<Step>, g: nat, r: Report, expired: set<nat>)
    requires ValidPlan(p) && Busy(Reach(p, steps), g) && g < |p.generators| && Settleable(p.generators[g], r)
    ensures Settle(p, Reach(p, steps), g, r, expired) != Reach(p, steps)
  {
    hide Reach, Sum, ValidPlan, Inv, Settle, Within, Settleable;
    var s := Reach(p, steps);
    Reachable(p, steps);
    if Closed(s.run.state) {
      ClosedIsFinal(p, steps, ClaimStep);
    } else {
      SettleCharges(p, s, g, r, expired);
    }
  }

  /** Nothing can be claimed before the first reconciliation, which makes the run
      active; then the first generator's attempt is claimed. */
  lemma FirstSteps(p: Plan)
    requires ValidPlan(p)
    ensures var s := Start(p);
            var t := Reconcile(p, s, {});
            && s.run.state == Created && Claim(p, s) == s && t.run.state == Active && t.history == s.history
            && Claim(p, t).history[0] == [Fresh(p.generators[0]).(phase := Running)]
  {
    hide LapseAll, RetryAll, Outstanding, Consumed, Fits, Add, CountSum, DoneCount, Inv, RunningCount, FirstPending;
    var s := Start(p);
    StartKeeps(p);
    StartWaits(p);
    StartBooks(p);
    Reconciled(p, s);
    Reachable(p, [ReconcileStep({})]);
    Further(p, [], ReconcileStep({}));
    EndIs(p, [ReconcileStep({})]);
    var t := Reconcile(p, s, {});
    assert [] + [ReconcileStep({})] == [ReconcileStep({})];
    assert !Through(p, t, 0);
    RunningSame(s, t);
    ClaimTakesFirst(p, t, 0);
  }

  lemma RunningSame(s: State, t: State)
    requires s.history == t.history
    ensures RunningCount(s) == RunningCount(t)
  {
  }

  /** A review completes a run that awaits it, and no other. */
  lemma ReviewIs(s: State)
    ensures CompleteReview(s) != s <==> s.run.state == AwaitingReview
    ensures s.run.state == AwaitingReview ==>
              CompleteReview(s) == State(s.run.(state := Completed), s.history, s.ledger, s.refs)
  {
  }

  // ---------- bounds and refusals

  /** The greatest and the least generator, and one step beyond each bound. */
  lemma GeneratorBounds()
    ensures ValidGenerator(Generator(8, 8, 7_200, 100_000_000, 100_000_000)) && ValidGenerator(Generator(1, 1, 1, 1, 1))
    ensures !ValidGenerator(Generator(9, 8, 7_200, 100_000_000, 100_000_000))
    ensures !ValidGenerator(Generator(8, 9, 7_200, 100_000_000, 100_000_000))
    ensures !ValidGenerator(Generator(8, 8, 7_201, 100_000_000, 100_000_000))
    ensures !ValidGenerator(Generator(8, 8, 7_200, 100_000_001, 100_000_000))
    ensures !ValidGenerator(Generator(8, 8, 7_200, 100_000_000, 100_000_001))
    ensures !ValidGenerator(Generator(0, 1, 1, 1, 1)) && !ValidGenerator(Generator(1, 0, 1, 1, 1))
    ensures !ValidGenerator(Generator(1, 1, 0, 1, 1)) && !ValidGenerator(Generator(1, 1, 1, 0, 1))
    ensures !ValidGenerator(Generator(1, 1, 1, 1, 0))
  {
  }

  lemma BudgetBounds()
    ensures ValidBudget(Limits(64, 86_400, 100_000_000, 100_000_000, 32)) && ValidBudget(Limits(1, 1, 1, 1, 1))
    ensures !ValidBudget(Limits(65, 86_400, 100_000_000, 100_000_000, 32))
    ensures !ValidBudget(Limits(64, 86_401, 100_000_000, 100_000_000, 32))
    ensures !ValidBudget(Limits(64, 86_400, 100_000_001, 100_000_000, 32))
    ensures !ValidBudget(Limits(64, 86_400, 100_000_000, 100_000_001, 32))
    ensures !ValidBudget(Limits(64, 86_400, 100_000_000, 100_000_000, 33))
    ensures !ValidBudget(Limits(0, 1, 1, 1, 1)) && !ValidBudget(Limits(1, 0, 1, 1, 1))
    ensures !ValidBudget(Limits(1, 1, 0, 1, 1)) && !ValidBudget(Limits(1, 1, 1, 0, 1))
    ensures !ValidBudget(Limits(1, 1, 1, 1, 0))
  {
  }

  /** The bounds of a stored usage. */
  lemma UsageBounds()
    ensures Capped(Usage(64, 86_400_000, 100_000_000, 100_000_000, 32))
    ensures !Capped(Usage(65, 0, 0, 0, 0)) && !Capped(Usage(0, 86_400_001, 0, 0, 0)) && !Capped(Usage(0, 0, 100_000_001, 0, 0))
    ensures !Capped(Usage(0, 0, 0, 100_000_001, 0)) && !Capped(Usage(0, 0, 0, 0, 33))
  {
  }

  const PAIR := Generator(2, 3, 4, 5, 6)

  function PairPlan(b: Limits): Plan { Plan([PAIR], 1, b) }

  /** Two attempts of one generator take twice its time, output and tokens and
      its proposals once: that budget and no smaller one will do. */
  lemma DemandBounds()
    ensures ValidPlan(PairPlan(Limits(2, 8, 10, 12, 3)))
    ensures !ValidPlan(PairPlan(Limits(1, 8, 10, 12, 3))) && !ValidPlan(PairPlan(Limits(2, 7, 10, 12, 3)))
    ensures !ValidPlan(PairPlan(Limits(2, 8, 9, 12, 3))) && !ValidPlan(PairPlan(Limits(2, 8, 10, 11, 3)))
    ensures !ValidPlan(PairPlan(Limits(2, 8, 10, 12, 2)))
  {
    assert [PAIR][0] == PAIR && [PAIR][1..] == [];
    assert Demand(PAIR) == Limits(2, 8, 10, 12, 3);
    assert TotalDemand([PAIR]) == Limits(2, 8, 10, 12, 3);
  }

  const UNIT := Generator(1, 1, 1, 1, 1)

  const ROOMY := Limits(64, 86_400, 100_000_000, 100_000_000, 32)

  function Units(n: nat): seq<Generator> { if n == 0 then [] else [UNIT] + Units(n - 1) }

  lemma {:induction false} UnitsDemand(n: nat)
    ensures |Units(n)| == n && (forall g | g in Units(n) :: g == UNIT) && TotalDemand(Units(n)) == Limits(n, n, n, n, n)
  {
    if n > 0 {
      UnitsDemand(n - 1);
      assert Units(n)[1..] == Units(n - 1);
    }
  }

  /** At most eight generators, of which at most four run at a time, and no more
      than there are. */
  lemma PlanBounds(n: nat, concurrency: nat)
    requires n <= 32
    ensures ValidPlan(Plan(Units(n), concurrency, ROOMY)) <==> 1 <= n <= 8 && 1 <= concurrency <= 4 && concurrency <= n
  {
    UnitsDemand(n);
  }

  /** Which refusal is raised: the first check that fails. */
  lemma StartRefusal(c: StartCall)
    requires ValidPlan(c.plan)
    ensures match BuildStart(c)
            case Ok(_) => Bound(c) && c.plan.budget.proposals <= c.maxProposals
            case Err(TimeNaive) => !c.zoned
            case Err(RunMismatch) => c.zoned && c.requestRun != c.keyRun
            case Err(PlanRunMismatch) => c.zoned && c.requestRun == c.keyRun && c.planRun != c.keyRun
            case Err(PlanMismatch) => c.zoned && c.requestRun == c.keyRun == c.planRun && c.planId != c.keyPlan
            case Err(BindingMismatch) =>
              && c.zoned && c.requestRun == c.keyRun == c.planRun && c.planId == c.keyPlan
              && (c.boundId != c.requestId || c.boundHash != c.requestHash)
            case Err(ProposalsExceeded) => Bound(c) && c.plan.budget.proposals > c.maxProposals
            case Err(UsageRefused) => false
  {
    hide ValidPlan, Sum;
    StartAccepted(c);
  }
}
