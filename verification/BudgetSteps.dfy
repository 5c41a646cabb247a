/** What one reconciliation and one settlement do, generator by generator. */
module BudgetSteps {
  import opened Budget
  import opened BudgetSafety
  import D = Disposition

  /** An expired lease fails the running attempt and charges it in full. */
  function LapseOne(h: seq<Attempt>, expired: bool): seq<Attempt> {
    if h != [] && expired && Last(h).phase == Running then
      Replace(h, Last(h).(phase := Failed, actual := Conservative(Last(h).reserved)))
    else h
  }

  /** A failed newest attempt is followed by a fresh one while attempts remain. */
  function RetryOne(g: Generator, h: seq<Attempt>): seq<Attempt> {
    if NeedsRetry(g, h) then h + [Fresh(g)] else h
  }

  lemma {:induction false} LapseAllAt(s: State, expired: set<nat>, from: nat, g: nat)
    requires g < |s.history|
    ensures |LapseAll(s, expired, from).history| == |s.history|
    ensures LapseAll(s, expired, from).history[g] ==
              if g < from then s.history[g] else LapseOne(s.history[g], g in expired)
    decreases |s.history| - from
  {
    hide Replace, Conservative;
    if from < |s.history| {
      var lapsed := from in expired && HasAttempt(s, from) && Last(s.history[from]).phase == Running;
      var t := if lapsed then EndAttempt(s, from, Failed, Conservative(Last(s.history[from]).reserved), []) else s;
      LapseAllAt(t, expired, from + 1, g);
    }
  }

  lemma {:induction false} RetryAllAt(p: Plan, s: State, from: nat, g: nat)
    requires |p.generators| == |s.history| && g < |s.history|
    ensures |RetryAll(p, s, from).history| == |s.history|
    ensures RetryAll(p, s, from).history[g] ==
              if g < from then s.history[g] else RetryOne(p.generators[g], s.history[g])
    decreases |s.history| - from
  {
    hide NeedsRetry, Fresh;
    if from < |s.history| {
      var t := if NeedsRetry(p.generators[from], s.history[from]) then AddAttempt(p, s, from) else s;
      RetryAllAt(p, t, from + 1, g);
    }
  }

  /** The two passes over the generators do not interfere: each generator's
      expired attempt is failed, then retried exactly when the newest attempt
      failed, none succeeded and the plan allows another. */
  lemma ReconcileAt(p: Plan, s: State, expired: set<nat>, g: nat)
    requires |p.generators| == |s.history| && g < |s.history| && !Closed(s.run.state)
    ensures Reconcile(p, s, expired).history[g] ==
              RetryOne(p.generators[g], LapseOne(s.history[g], g in expired))
  {
    hide LapseAll, RetryAll, LapseOne, RetryOne;
    LapseAllAt(s, expired, 0, g);
    RetryAllAt(p, LapseAll(s, expired, 0), 0, g);
  }

  // ---------- What a settlement charges

  /** Expired attempts are charged in full, without proposals. */
  function LapseDue(h: seq<Attempt>, expired: bool): Usage {
    if h != [] && expired && Last(h).phase == Running then Conservative(Last(h).reserved) else ZERO
  }

  function LapsedFrom(hs: seq<seq<Attempt>>, expired: set<nat>, from: nat): Usage
    decreases |hs| - from
  {
    if from >= |hs| then ZERO else Add(LapseDue(hs[from], from in expired), LapsedFrom(hs, expired, from + 1))
  }

  /** Only the histories from `from` on, and the leases on them, matter. */
  lemma {:induction false} LapsedAgree(
    hs: seq<seq<Attempt>>, ks: seq<seq<Attempt>>, expired: set<nat>, other: set<nat>, from: nat)
    requires |hs| == |ks|
    requires forall i | from <= i < |hs| :: LapseDue(hs[i], i in expired) == LapseDue(ks[i], i in other)
    ensures LapsedFrom(hs, expired, from) == LapsedFrom(ks, other, from)
    decreases |hs| - from
  {
    hide LapseDue, Add;
    if from < |hs| { LapsedAgree(hs, ks, expired, other, from + 1); }
  }

  lemma {:induction false} LapseCharges(s: State, expired: set<nat>, from: nat)
    ensures Consumed(LapseAll(s, expired, from)) == Add(Consumed(s), LapsedFrom(s.history, expired, from))
    ensures LapseAll(s, expired, from).refs == s.refs && LapseAll(s, expired, from).run == s.run
    decreases |s.history| - from
  {
    hide Conservative, Sum, Add, EndAttempt;
    if from >= |s.history| {
      AddZero(Consumed(s));
    } else {
      var due, rest := LapseDue(s.history[from], from in expired), LapsedFrom(s.history, expired, from + 1);
      Add3(Consumed(s), due, rest);
      if from in expired && HasAttempt(s, from) && Last(s.history[from]).phase == Running {
        var actual := Conservative(Last(s.history[from]).reserved);
        var t := EndAttempt(s, from, Failed, actual, []);
        EndingCharges(s, from, Failed, actual, []);
        EndShape(s, from, Failed, actual, []);
        EndedElsewhere(s, from, Failed, actual, []);
        LapseCharges(t, expired, from + 1);
        LapsedAgree(t.history, s.history, expired, expired, from + 1);
      } else {
        LapseCharges(s, expired, from + 1);
        AddZero(Consumed(s));
      }
    }
  }

  lemma Add3(a: Usage, b: Usage, c: Usage)
    ensures Add(a, Add(b, c)) == Add(Add(a, b), c)
  {
  }

  lemma EndedElsewhere(s: State, g: nat, phase: Phase, actual: Usage, refs: seq<D.Ref>)
    requires HasAttempt(s, g)
    ensures var t := EndAttempt(s, g, phase, actual, refs);
            && |t.history| == |s.history| && t.refs == s.refs + refs && t.run == s.run
            && (forall i | 0 <= i < |s.history| && i != g :: t.history[i] == s.history[i])
            && t.history[g] != [] && Last(t.history[g]).phase == phase
  {
  }

  lemma {:induction false} RetryCharges(p: Plan, s: State, from: nat)
    requires |p.generators| == |s.history|
    ensures Consumed(RetryAll(p, s, from)) == Consumed(s) && RetryAll(p, s, from).refs == s.refs
    decreases |s.history| - from
  {
    hide NeedsRetry, Fresh, Sum;
    if from < |s.history| {
      if NeedsRetry(p.generators[from], s.history[from]) {
        var t := AddAttempt(p, s, from);
        var e := t.ledger[|s.ledger|];
        assert t.ledger == s.ledger + [e] && e.kind == Reserve;
        LedgerAppend(s.ledger, e);
        NothingSettled(s, e);
        RetryCharges(p, t, from + 1);
      } else {
        RetryCharges(p, s, from + 1);
      }
    }
  }

  lemma NothingSettled(s: State, e: LedgerEntry)
    requires e.kind == Reserve
    ensures Add(Consumed(s), SettledUsage(e)) == Consumed(s)
  {
    hide Sum;
  }

  /** Unknown usage, or usage past the reservation, is charged as the whole
      reservation with no proposals; anything else as reported. */
  function Due(g: Generator, r: Report): Usage {
    if r.NoBatch? || !Within(Reported(r), ReservedFor(g)) then
      Usage(1, g.timeout * 1000, g.maxOutput, g.maxTokens, 0)
    else Usage(1, r.wall, r.output, r.tokens, |r.refs|)
  }

  /** A settlement charges what is due and, in the same call, the other
      generators' expired attempts; it records as many proposals as are due, and
      leaves a retry behind exactly when it failed early enough. */
  lemma SettleCharges(p: Plan, s: State, g: nat, r: Report, expired: set<nat>)
    requires Inv(p, s) && !Closed(s.run.state) && |p.generators| == |s.history|
    requires HasAttempt(s, g) && Last(s.history[g]).phase == Running && Settleable(p.generators[g], r)
    ensures var t := Settle(p, s, g, r, expired);
            && Consumed(t) == Add(Add(Consumed(s), Due(p.generators[g], r)), LapsedFrom(s.history, expired - {g}, 0))
            && |t.refs| == |s.refs| + Due(p.generators[g], r).proposals
            && (r.Batch? && !r.failed && Within(Reported(r), ReservedFor(p.generators[g])) ==>
                  t.history[g] != [] && Last(t.history[g]).phase == Succeeded)
            && (r.NoBatch? || r.failed || !Within(Reported(r), ReservedFor(p.generators[g])) ==>
                  (|t.history[g]| == |s.history[g]| + 1 <==> |s.history[g]| < p.generators[g].maxAttempts))
  {
    var gen, h := p.generators[g], s.history[g];
    InvSound(p, s, g);
    SoundLast(gen, h);
    var over := r.NoBatch? || !Within(Reported(r), ReservedFor(gen));
    var phase := if over || r.failed then Failed else Succeeded;
    var actual := Due(gen, r);
    var refs := if over then [] else r.refs;
    var t := EndAttempt(s, g, phase, actual, refs);
    SettleIs(p, s, g, r, expired);
    hide Inv, Sound, Settleable, Sum, LapseAll, RetryAll, Reconcile, Settle, NeedsRetry, LapseOne, RetryOne, Conservative;
    EndingCharges(s, g, phase, actual, refs);
    EndedElsewhere(s, g, phase, actual, refs);
    ReconcileAt(p, t, expired, g);
    EndedRetry(gen, h, phase, actual, g in expired);
    forall i | 0 <= i < |s.history|
      ensures LapseDue(t.history[i], i in expired) == LapseDue(s.history[i], i in expired - {g})
    {
    }
    hide LapseDue, Add, EndAttempt;
    LapsedAgree(t.history, s.history, expired, expired - {g}, 0);
    ReconcileCharges(p, t, expired);
  }

  lemma InvSound(p: Plan, s: State, g: nat)
    requires Inv(p, s) && g < |s.history|
    ensures g < |p.generators| && Sound(p.generators[g], s.history[g])
  {
    hide Books, RunOk, Sound, RunningCount, AllDone;
  }

  /** A settlement ends the attempt and reconciles. */
  lemma SettleIs(p: Plan, s: State, g: nat, r: Report, expired: set<nat>)
    requires |p.generators| == |s.history| && HasAttempt(s, g) && Last(s.history[g]).phase == Running
    requires Settleable(p.generators[g], r) && Last(s.history[g]).reserved == ReservedFor(p.generators[g])
    ensures var gen := p.generators[g];
            var over := r.NoBatch? || !Within(Reported(r), ReservedFor(gen));
            var t := EndAttempt(s, g, if over || r.failed then Failed else Succeeded, Due(gen, r),
                                if over then [] else r.refs);
            |t.history| == |s.history| && Settle(p, s, g, r, expired) == Reconcile(p, t, expired)
  {
    hide Reconcile, Settleable, Within;
  }

  lemma EndingCharges(s: State, g: nat, phase: Phase, actual: Usage, refs: seq<D.Ref>)
    requires HasAttempt(s, g)
    ensures Consumed(EndAttempt(s, g, phase, actual, refs)) == Add(Consumed(s), actual)
    ensures EndAttempt(s, g, phase, actual, refs).refs == s.refs + refs
  {
    hide Sum;
    var t := EndAttempt(s, g, phase, actual, refs);
    var e := t.ledger[|s.ledger|];
    assert t.ledger == s.ledger + [e];
    LedgerAppend(s.ledger, e);
  }

  /** A reconciliation charges the expired attempts and nothing else. */
  lemma ReconcileCharges(p: Plan, t: State, expired: set<nat>)
    requires |p.generators| == |t.history| && !Closed(t.run.state)
    ensures Consumed(Reconcile(p, t, expired)) == Add(Consumed(t), LapsedFrom(t.history, expired, 0))
    ensures |Reconcile(p, t, expired).refs| == |t.refs|
  {
    LapseCharges(t, expired, 0);
    LapseAllLength(t, expired, 0);
    var l := LapseAll(t, expired, 0);
    RetryCharges(p, l, 0);
    RetryAllLength(p, l, 0);
    var u := RetryAll(p, l, 0);
    D.FinalizeLength(u.refs);
    hide LapseAll, RetryAll, Sum, DoneCount, CountSum, Add, LapsedFrom;
    assert Recount(p, u).ledger == u.ledger;
  }

  /** Ending the newest attempt, then asking for a retry. */
  lemma EndedRetry(gen: Generator, h: seq<Attempt>, phase: Phase, actual: Usage, expired: bool)
    requires Sound(gen, h) && Last(h).phase == Running && (phase == Failed || phase == Succeeded)
    ensures var k := Replace(h, Last(h).(phase := phase, actual := actual));
            && LapseOne(k, expired) == k && |k| == |h|
            && (phase == Succeeded ==> RetryOne(gen, k) == k && Last(k).phase == Succeeded)
            && (phase == Failed ==> (|RetryOne(gen, k)| == |h| + 1 <==> |h| < gen.maxAttempts))
  {
    var k := Replace(h, Last(h).(phase := phase, actual := actual));
    assert forall i | 0 <= i < |k| - 1 :: k[i].phase == Failed;
    assert Last(k).phase == phase;
  }

  // ---------- Progress

  /** Nothing is owed a retry, and something is still to be done. */
  predicate Waiting(p: Plan, s: State) {
    && |p.generators| == |s.history|
    && (forall g | 0 <= g < |s.history| :: !NeedsRetry(p.generators[g], s.history[g]))
    && !AllDone(p, s)
  }

  lemma RetriedOnce(g: Generator, h: seq<Attempt>)
    ensures !NeedsRetry(g, RetryOne(g, h))
  {
  }

  lemma ReconcileWaits(p: Plan, s: State, expired: set<nat>)
    requires |p.generators| == |s.history| && !Closed(s.run.state)
    ensures var t := Reconcile(p, s, expired); Closed(t.run.state) || Waiting(p, t)
  {
    hide LapseAll, RetryAll, NeedsRetry, Done, LapseOne, RetryOne, Outstanding, Consumed, Fits, Add, CountSum;
    var t := Reconcile(p, s, expired);
    forall g | 0 <= g < |t.history| ensures !NeedsRetry(p.generators[g], t.history[g]) {
      ReconcileAt(p, s, expired, g);
      RetriedOnce(p.generators[g], LapseOne(s.history[g], g in expired));
    }
    DoneAll(p.generators, t.history);
  }

  lemma StartWaits(p: Plan)
    requires ValidPlan(p)
    ensures Waiting(p, Start(p))
  {
    var s := Start(p);
    assert |s.history| > 0 && s.history[0] == [Fresh(p.generators[0])];
    assert !Done(p.generators[0], s.history[0]);
  }

  lemma ClaimedNotOwed(g: Generator, h: seq<Attempt>, a: Attempt)
    requires h != [] && Last(h).phase == Pending && a == Last(h).(phase := Running)
    ensures !NeedsRetry(g, Replace(h, a)) && (Done(g, Replace(h, a)) ==> Done(g, h))
  {
    var k := Replace(h, a);
    assert Last(k) == a;
    if AnySucceeded(k) {
      var b :| b in k && b.phase == Succeeded;
      assert b in h;
    }
  }

  lemma ClaimWaits(p: Plan, s: State)
    requires Waiting(p, s)
    ensures Waiting(p, Claim(p, s)) && Claim(p, s).run == s.run
  {
    FirstPendingIs(s.history);
    var g, t := FirstPending(s.history), Claim(p, s);
    if t != s {
      var a := Last(s.history[g]).(phase := Running);
      ClaimedNotOwed(p.generators[g], s.history[g], a);
      hide NeedsRetry, Done, Replace, RunningCount, FirstPending;
      var i :| 0 <= i < |s.history| && !Done(p.generators[i], s.history[i]);
      assert !Done(p.generators[i], t.history[i]);
    }
  }

  lemma ApplyWaits(p: Plan, s: State, step: Step)
    requires |p.generators| == |s.history| && (Closed(s.run.state) || Waiting(p, s))
    ensures Closed(Apply(p, s, step).run.state) || Waiting(p, Apply(p, s, step))
  {
    hide Waiting, Claim, Reconcile, EndAttempt;
    match step
    case ClaimStep => if !Closed(s.run.state) { ClaimWaits(p, s); } else { ClaimClosed(p, s); }
    case SettleStep(g, r, expired) => SettleWaits(p, s, g, r, expired);
    case ReconcileStep(expired) =>
      if !Closed(s.run.state) { ReconcileWaits(p, s, expired); } else { ReconcileClosed(p, s, expired); }
    case ReviewStep =>
  }

  lemma ReconcileClosed(p: Plan, s: State, expired: set<nat>)
    requires |p.generators| == |s.history| && Closed(s.run.state)
    ensures Reconcile(p, s, expired) == s
  {
  }

  lemma ClaimClosed(p: Plan, s: State)
    requires Closed(s.run.state)
    ensures Claim(p, s) == s
  {
  }

  lemma SettleWaits(p: Plan, s: State, g: nat, r: Report, expired: set<nat>)
    requires |p.generators| == |s.history| && (Closed(s.run.state) || Waiting(p, s))
    ensures var t := Settle(p, s, g, r, expired); Closed(t.run.state) || Waiting(p, t)
  {
    hide Waiting, Reconcile, EndAttempt, Settleable, Conservative, Within, Reported;
    var t := Settle(p, s, g, r, expired);
    if t != s {
      var reserved := Last(s.history[g]).reserved;
      var over := r.NoBatch? || !Within(Reported(r), reserved);
      var phase := if over || r.failed then Failed else Succeeded;
      var actual := if over then Conservative(reserved) else Reported(r);
      var refs := if over then [] else r.refs;
      var u := EndAttempt(s, g, phase, actual, refs);
      EndShape(s, g, phase, actual, refs);
      assert t == Reconcile(p, u, expired);
      if Closed(s.run.state) {
        ReconcileClosed(p, u, expired);
      } else {
        ReconcileWaits(p, u, expired);
      }
    }
  }

  lemma {:induction false} ReachWaits(p: Plan, steps: seq<Step>)
    requires ValidPlan(p)
    ensures Closed(Reach(p, steps).run.state) || Waiting(p, Reach(p, steps))
  {
    hide Waiting, Apply, ValidPlan, Start;
    if steps == [] {
      StartWaits(p);
    } else {
      var n := |steps| - 1;
      ReachWaits(p, steps[..n]);
      ApplyWaits(p, Reach(p, steps[..n]), steps[n]);
    }
  }

  /** No run is stuck: until it is closed, some generator's newest attempt can
      be claimed, settled, or left to expire. */
  lemma NeverStuck(p: Plan, steps: seq<Step>)
    requires ValidPlan(p) && !Closed(Reach(p, steps).run.state)
    ensures exists g :: 0 <= g < |Reach(p, steps).history| && Reach(p, steps).history[g] != []
                        && IsLive(Last(Reach(p, steps).history[g]))
  {
    hide ValidPlan, Reach, Books, RunOk, RunningCount, NeedsRetry, Done, Sound;
    Reachable(p, steps);
    ReachWaits(p, steps);
    var s := Reach(p, steps);
    var g :| 0 <= g < |s.history| && !Done(p.generators[g], s.history[g]);
    LiveUnlessDone(p.generators[g], s.history[g]);
  }

  lemma LiveUnlessDone(g: Generator, h: seq<Attempt>)
    requires Sound(g, h) && !NeedsRetry(g, h) && !Done(g, h)
    ensures h != [] && IsLive(Last(h))
  {
    assert Last(h) in h;
  }
}
