/** The ledger, entry by entry: each attempt is reserved once and settled once. */
module BudgetLedger {
  import opened Text
  import opened Budget
  import opened BudgetSafety
  import opened BudgetProgress
  import opened BudgetRecord
  import D = Disposition

  predicate IsEntry(e: LedgerEntry, g: nat, n: nat, kind: Kind) { e.generator == g && e.number == n && e.kind == kind }

  /** The entry tells what its attempt reserved and, once it ended, used. */
  predicate Truthful(hs: seq<seq<Attempt>>, e: LedgerEntry) {
    && e.generator < |hs| && 1 <= e.number <= |hs[e.generator]|
    && var a := hs[e.generator][e.number - 1];
       && e.reserved == a.reserved
       && (e.kind == Reserve ==> e.actual == ZERO)
       && (e.kind == Settlement ==> !IsLive(a) && e.actual == a.actual)
  }

  predicate Listed(ledger: seq<LedgerEntry>, g: nat, n: nat, kind: Kind) {
    exists e | e in ledger :: IsEntry(e, g, n, kind)
  }

  /** No two entries of one attempt and kind, all of them truthful, a reservation
      for every attempt and a settlement for every one that ended. */
  predicate Complete(hs: seq<seq<Attempt>>, ledger: seq<LedgerEntry>) {
    && (forall i, j | 0 <= i < j < |ledger| :: !IsEntry(ledger[j], ledger[i].generator, ledger[i].number, ledger[i].kind))
    && (forall e | e in ledger :: Truthful(hs, e))
    && forall g, n | 0 <= g < |hs| && 1 <= n <= |hs[g]| ::
         && Listed(ledger, g, n, Reserve)
         && (!IsLive(hs[g][n - 1]) ==> Listed(ledger, g, n, Settlement))
  }

  lemma ListedMore(ledger: seq<LedgerEntry>, e: LedgerEntry, g: nat, n: nat, kind: Kind)
    ensures Listed(ledger + [e], g, n, kind) <==> Listed(ledger, g, n, kind) || IsEntry(e, g, n, kind)
  {
    if IsEntry(e, g, n, kind) { assert e in ledger + [e]; }
    if f :| f in ledger && IsEntry(f, g, n, kind) { assert f in ledger + [e]; }
  }

  /** One entry more, for a key that had none. */
  lemma OneMore(hs: seq<seq<Attempt>>, ks: seq<seq<Attempt>>, ledger: seq<LedgerEntry>, e: LedgerEntry)
    requires Complete(hs, ledger) && !Listed(ledger, e.generator, e.number, e.kind) && |hs| == |ks|
    requires forall f | f in ledger :: Truthful(ks, f)
    requires Truthful(ks, e)
    requires forall g, n | 0 <= g < |ks| && 1 <= n <= |ks[g]| ::
               || IsEntry(e, g, n, Reserve)
               || (n <= |hs[g]| && (!IsLive(ks[g][n - 1]) ==> !IsLive(hs[g][n - 1]) || IsEntry(e, g, n, Settlement)))
    requires e.kind == Reserve ==> IsLive(ks[e.generator][e.number - 1])
    ensures Complete(ks, ledger + [e])
  {
    hide Truthful, Listed, IsLive;
    var more := ledger + [e];
    forall i, j | 0 <= i < j < |more| ensures !IsEntry(more[j], more[i].generator, more[i].number, more[i].kind) {
      if j == |ledger| && IsEntry(e, ledger[i].generator, ledger[i].number, ledger[i].kind) {
        ListedBy(ledger, ledger[i], e);
      }
    }
    forall g, n | 0 <= g < |ks| && 1 <= n <= |ks[g]|
      ensures Listed(more, g, n, Reserve) && (!IsLive(ks[g][n - 1]) ==> Listed(more, g, n, Settlement))
    {
      ListedMore(ledger, e, g, n, Reserve);
      ListedMore(ledger, e, g, n, Settlement);
    }
  }

  lemma ListedBy(ledger: seq<LedgerEntry>, f: LedgerEntry, e: LedgerEntry)
    requires f in ledger && IsEntry(e, f.generator, f.number, f.kind)
    ensures Listed(ledger, e.generator, e.number, e.kind)
  {
    assert IsEntry(f, e.generator, e.number, e.kind);
  }

  lemma ListedTruthful(hs: seq<seq<Attempt>>, ledger: seq<LedgerEntry>, g: nat, n: nat, kind: Kind)
    requires Listed(ledger, g, n, kind) && forall e | e in ledger :: Truthful(hs, e)
    ensures g < |hs| && 1 <= n <= |hs[g]| && (kind == Settlement ==> !IsLive(hs[g][n - 1]))
  {
    var e :| e in ledger && IsEntry(e, g, n, kind);
    assert Truthful(hs, e);
  }

  lemma NotListed(hs: seq<seq<Attempt>>, ledger: seq<LedgerEntry>, g: nat, n: nat, kind: Kind)
    requires forall e | e in ledger :: Truthful(hs, e)
    requires !(g < |hs| && 1 <= n <= |hs[g]| && (kind == Settlement ==> !IsLive(hs[g][n - 1])))
    ensures !Listed(ledger, g, n, kind)
  {
    hide Truthful;
    if Listed(ledger, g, n, kind) { ListedTruthful(hs, ledger, g, n, kind); }
  }

  // ---------- the steps

  lemma EndCompletes(s: State, g: nat, phase: Phase, actual: Usage, refs: seq<D.Ref>)
    requires Complete(s.history, s.ledger) && HasAttempt(s, g) && IsLive(Last(s.history[g]))
    requires phase == Succeeded || phase == Failed
    ensures var t := EndAttempt(s, g, phase, actual, refs); Complete(t.history, t.ledger)
  {
    var t := EndAttempt(s, g, phase, actual, refs);
    var h := s.history[g];
    var e := t.ledger[|s.ledger|];
    NotListed(s.history, s.ledger, g, |h|, Settlement);
    forall f | f in s.ledger ensures Truthful(t.history, f) { assert Truthful(s.history, f); }
    OneMore(s.history, t.history, s.ledger, e);
  }

  lemma AddCompletes(p: Plan, s: State, g: nat)
    requires Complete(s.history, s.ledger) && g < |s.history| && g < |p.generators|
    ensures var t := AddAttempt(p, s, g); Complete(t.history, t.ledger)
  {
    var t := AddAttempt(p, s, g);
    var h := s.history[g];
    var e := t.ledger[|s.ledger|];
    NotListed(s.history, s.ledger, g, |h| + 1, Reserve);
    forall f | f in s.ledger ensures Truthful(t.history, f) { assert Truthful(s.history, f); }
    OneMore(s.history, t.history, s.ledger, e);
  }

  lemma {:induction false} LapseCompletes(s: State, expired: set<nat>, from: nat)
    requires Complete(s.history, s.ledger)
    ensures var t := LapseAll(s, expired, from); Complete(t.history, t.ledger)
    decreases |s.history| - from
  {
    hide Complete, Conservative, EndAttempt;
    if from < |s.history| {
      var lapsed := from in expired && HasAttempt(s, from) && Last(s.history[from]).phase == Running;
      if lapsed {
        var actual := Conservative(Last(s.history[from]).reserved);
        EndCompletes(s, from, Failed, actual, []);
        EndShape(s, from, Failed, actual, []);
        LapseCompletes(EndAttempt(s, from, Failed, actual, []), expired, from + 1);
      } else {
        LapseCompletes(s, expired, from + 1);
      }
    }
  }

  lemma {:induction false} RetryCompletes(p: Plan, s: State, from: nat)
    requires |p.generators| == |s.history| && Complete(s.history, s.ledger)
    ensures var t := RetryAll(p, s, from); Complete(t.history, t.ledger)
    decreases |s.history| - from
  {
    hide Complete, NeedsRetry, AddAttempt;
    if from < |s.history| {
      if NeedsRetry(p.generators[from], s.history[from]) {
        AddCompletes(p, s, from);
        AddShape(p, s, from);
        RetryCompletes(p, AddAttempt(p, s, from), from + 1);
      } else {
        RetryCompletes(p, s, from + 1);
      }
    }
  }

  lemma ReconcileCompletes(p: Plan, s: State, expired: set<nat>)
    requires |p.generators| == |s.history| && Complete(s.history, s.ledger)
    ensures var t := Reconcile(p, s, expired); Complete(t.history, t.ledger)
  {
    hide Complete, LapseAll, RetryAll;
    if !Closed(s.run.state) {
      LapseCompletes(s, expired, 0);
      LapseAllLength(s, expired, 0);
      RetryCompletes(p, LapseAll(s, expired, 0), 0);
      RetryAllLength(p, LapseAll(s, expired, 0), 0);
      RecountSame(p, RetryAll(p, LapseAll(s, expired, 0), 0));
    }
  }

  lemma RecountSame(p: Plan, s: State)
    requires |p.generators| == |s.history|
    ensures Recount(p, s).history == s.history && Recount(p, s).ledger == s.ledger
  {
  }

  lemma ClaimCompletes(p: Plan, s: State)
    requires Complete(s.history, s.ledger)
    ensures Complete(Claim(p, s).history, Claim(p, s).ledger)
  {
    hide RunningCount, FirstPending;
    FirstPendingReady(s);
    var t := Claim(p, s);
    if t != s {
      forall f | f in s.ledger ensures Truthful(t.history, f) { assert Truthful(s.history, f); }
      hide Truthful, Listed;
      forall g, n | 0 <= g < |t.history| && 1 <= n <= |t.history[g]|
        ensures Listed(t.ledger, g, n, Reserve) && (!IsLive(t.history[g][n - 1]) ==> Listed(t.ledger, g, n, Settlement))
      {
        assert Listed(s.ledger, g, n, Reserve);
      }
    }
  }

  lemma SettleCompletes(p: Plan, s: State, g: nat, r: Report, expired: set<nat>)
    requires |p.generators| == |s.history| && Complete(s.history, s.ledger)
    ensures var t := Settle(p, s, g, r, expired); Complete(t.history, t.ledger)
  {
    hide Complete, Reconcile, EndAttempt, Settleable, Conservative, Within, Reported;
    if Busy(s, g) && Settleable(p.generators[g], r) {
      var reserved := Last(s.history[g]).reserved;
      var over := r.NoBatch? || !Within(Reported(r), reserved);
      var phase := if over || r.failed then Failed else Succeeded;
      var actual := if over then Conservative(reserved) else Reported(r);
      var refs := if over then [] else r.refs;
      EndCompletes(s, g, phase, actual, refs);
      EndShape(s, g, phase, actual, refs);
      ReconcileCompletes(p, EndAttempt(s, g, phase, actual, refs), expired);
    }
  }

  lemma StartCompletes(p: Plan)
    ensures Complete(Start(p).history, Start(p).ledger)
  {
    var s := Start(p);
    forall g, n | 0 <= g < |s.history| && 1 <= n <= |s.history[g]|
      ensures Listed(s.ledger, g, n, Reserve) && IsLive(s.history[g][n - 1])
    {
      assert s.ledger[g] in s.ledger && IsEntry(s.ledger[g], g, n, Reserve);
    }
  }

  lemma {:induction false} AlwaysComplete(p: Plan, steps: seq<Step>)
    ensures Complete(Reach(p, steps).history, Reach(p, steps).ledger)
  {
    hide Complete, Start, Claim, Settle, Reconcile;
    if steps == [] {
      StartCompletes(p);
    } else {
      var n := |steps| - 1;
      AlwaysComplete(p, steps[..n]);
      var s := Reach(p, steps[..n]);
      match steps[n]
      case ClaimStep => ClaimCompletes(p, s);
      case SettleStep(g, r, expired) => SettleCompletes(p, s, g, r, expired);
      case ReconcileStep(expired) => ReconcileCompletes(p, s, expired);
      case ReviewStep =>
    }
  }

  /** In every run, of any plan: each attempt has exactly one reservation in the
      ledger, which is what its generator reserves, and exactly one settlement
      once it has ended and none before; no other entry is there. */
  lemma LedgerIsComplete(p: Plan, steps: seq<Step>, g: nat, n: nat, kind: Kind)
    ensures var s := Reach(p, steps);
            && (Listed(s.ledger, g, n, kind) <==>
                  && g < |s.history| && 1 <= n <= |s.history[g]|
                  && (kind == Settlement ==> !IsLive(s.history[g][n - 1])))
            && (forall i, j | 0 <= i < j < |s.ledger| ::
                  !(IsEntry(s.ledger[i], g, n, kind) && IsEntry(s.ledger[j], g, n, kind)))
            && forall e | e in s.ledger && IsEntry(e, g, n, kind) :: Truthful(s.history, e)
  {
    hide Reach;
    AlwaysComplete(p, steps);
    var s := Reach(p, steps);
    if Listed(s.ledger, g, n, kind) { ListedTruthful(s.history, s.ledger, g, n, kind); }
  }
}
