/** Container cleanup after a lease ends: fence, then check health. */
module Cleaner {
  import opened Text

  type Id = string

  /** A container's labels; `token` is the fencing label, if it reads as a number. */
  datatype Labels = Labels(managed: bool, resource: string, token: Option<int>)

  datatype Removal = Removed | NoSuchContainer | RemoveFailed

  /** Docker and the device over time. Each command is issued at its own
      moment; `state` is what exists then, the rest is what commands answer. */
  datatype World = World(
    state: nat -> map<Id, Labels>, list: (nat, string) -> Option<seq<Id>>, inspect: (nat, Id) -> Option<Labels>,
    remove: (nat, Id) -> Removal, deviceOk: nat -> bool)

  const LIST_FAILED: Id := "<docker-list-failed>"

  predicate Owned(labels: Labels, resource: string) { labels.managed && labels.resource == resource }

  predicate Exists(w: World, t: nat, id: Id) { id in w.state(t) }

  predicate Complete(w: World, t: nat, resource: string) {
    w.list(t, resource).Some? ==>
      forall id | id in w.state(t) :: Owned(w.state(t)[id], resource) ==> id in w.list(t, resource).value
  }

  predicate Truthful(w: World, t: nat, id: Id) {
    && (w.inspect(t, id).Some? ==> Exists(w, t, id) && w.state(t)[id] == w.inspect(t, id).value)
    && (w.remove(t, id) != RemoveFailed ==> !Exists(w, t + 1, id))
  }

  /** What can be relied on: a listing is complete, an inspection tells the
      labels of a container that is there, a removal (or its absence) takes
      effect, labels never change, and an identity is not used again. No
      container bears the sentinel's name. */
  ghost predicate Faithful(w: World) {
    && (forall t: nat, r :: Complete(w, t, r))
    && (forall t: nat, id :: Truthful(w, t, id))
    && (forall t: nat, u: nat, id | Exists(w, t, id) && Exists(w, u, id) :: w.state(t)[id] == w.state(u)[id])
    && (forall s: nat, t: nat, u: nat, id | Exists(w, s, id) && !Exists(w, t, id) && Exists(w, u, id) ::
          s < t ==> u < t)
    && forall t: nat :: !Exists(w, t, LIST_FAILED)
  }

  function ManagedIds(w: World, now: nat, resource: string): seq<Id> {
    if w.list(now, resource).Some? then w.list(now, resource).value else [LIST_FAILED]
  }

  datatype FenceReport = FenceReport(removed: seq<Id>, skippedNewer: seq<Id>, failures: seq<Id>)

  /** Where one container's verdict goes, and when the next command is issued. */
  datatype Verdict = Gone | Newer | Failure

  function FenceOne(w: World, now: nat, id: Id, token: int): (Verdict, nat) {
    var labels := w.inspect(now, id);
    if labels.None? || labels.value.token.None? then (Failure, now + 1)
    else if labels.value.token.value > token then (Newer, now + 1)
    else if w.remove(now + 1, id) != RemoveFailed then (Gone, now + 2)
    else (Failure, now + 2)
  }

  /** The moment at which the `k`-th container is inspected. */
  function MomentOf(w: World, start: nat, ids: seq<Id>, token: int, k: nat): nat
    requires k <= |ids|
  {
    if k == 0 then start
    else FenceOne(w, MomentOf(w, start, ids, token, k - 1), ids[k - 1], token).1
  }

  function VerdictOf(w: World, start: nat, ids: seq<Id>, token: int, k: nat): Verdict
    requires k < |ids|
  {
    FenceOne(w, MomentOf(w, start, ids, token, k), ids[k], token).0
  }

  /** The containers among the first `k` with one verdict, in order. */
  function With(w: World, start: nat, ids: seq<Id>, token: int, k: nat, v: Verdict): seq<Id>
    requires k <= |ids|
  {
    if k == 0 then []
    else With(w, start, ids, token, k - 1, v)
         + if VerdictOf(w, start, ids, token, k - 1) == v then [ids[k - 1]] else []
  }

  method Fence(w: World, now: nat, resource: string, token: int) returns (report: FenceReport, end: nat)
    ensures var ids := ManagedIds(w, now, resource);
            && report.removed == With(w, now + 1, ids, token, |ids|, Gone)
            && report.skippedNewer == With(w, now + 1, ids, token, |ids|, Newer)
            && report.failures == With(w, now + 1, ids, token, |ids|, Failure)
            && end == MomentOf(w, now + 1, ids, token, |ids|)
  {
    var ids := ManagedIds(w, now, resource);
    var removed: seq<Id>, skipped: seq<Id>, failures: seq<Id> := [], [], [];
    var clock := now + 1;
    for k := 0 to |ids|
      invariant clock == MomentOf(w, now + 1, ids, token, k)
      invariant removed == With(w, now + 1, ids, token, k, Gone)
      invariant skipped == With(w, now + 1, ids, token, k, Newer)
      invariant failures == With(w, now + 1, ids, token, k, Failure)
    {
      var id := ids[k];
      var labels := w.inspect(clock, id);
      clock := clock + 1;
      if labels.None? || labels.value.token.None? {
        failures := failures + [id];
      } else if labels.value.token.value > token {
        skipped := skipped + [id];
      } else {
        var result := w.remove(clock, id);
        clock := clock + 1;
        if result == Removed || result == NoSuchContainer {
          removed := removed + [id];
        } else {
          failures := failures + [id];
        }
      }
    }
    return FenceReport(removed, skipped, failures), clock;
  }

  datatype Evidence = Evidence(fence: FenceReport, residual: seq<Id>, deviceOk: bool)

  /** `cleanup`: fence, then the health check. */
  method Cleanup(w: World, now: nat, resource: string, token: int) returns (e: Evidence, checked: nat)
    ensures e == CleanupEvidence(w, now, resource, token) && checked == CheckMoment(w, now, resource, token)
  {
    var report, end := Fence(w, now, resource, token);
    var residual := ManagedIds(w, end, resource);
    return Evidence(report, residual, w.deviceOk(end + 1)), end;
  }

  function CheckMoment(w: World, now: nat, resource: string, token: int): nat {
    var ids := ManagedIds(w, now, resource);
    MomentOf(w, now + 1, ids, token, |ids|)
  }

  function CleanupEvidence(w: World, now: nat, resource: string, token: int): Evidence {
    var ids := ManagedIds(w, now, resource);
    var n, at := |ids|, CheckMoment(w, now, resource, token);
    Evidence(
      FenceReport(With(w, now + 1, ids, token, n, Gone), With(w, now + 1, ids, token, n, Newer),
                  With(w, now + 1, ids, token, n, Failure)),
      ManagedIds(w, at, resource), w.deviceOk(at + 1))
  }

  /** `cleanup_is_healthy`. */
  predicate IsHealthy(e: Evidence) { e.fence.failures == [] && e.deviceOk && e.residual == [] }

  lemma {:induction false} WithMembers(w: World, start: nat, ids: seq<Id>, token: int, k: nat, v: Verdict)
    requires k <= |ids|
    ensures forall j | 0 <= j < k && VerdictOf(w, start, ids, token, j) == v ::
              ids[j] in With(w, start, ids, token, k, v)
    ensures forall id | id in With(w, start, ids, token, k, v) ::
              exists j :: 0 <= j < k && ids[j] == id && VerdictOf(w, start, ids, token, j) == v
  {
    hide VerdictOf;
    if k > 0 { WithMembers(w, start, ids, token, k - 1, v); }
  }

  lemma {:induction false} MomentsGrow(w: World, start: nat, ids: seq<Id>, token: int, j: nat, k: nat)
    requires j <= k <= |ids|
    ensures MomentOf(w, start, ids, token, j) <= MomentOf(w, start, ids, token, k)
    ensures j < k ==>
              FenceOne(w, MomentOf(w, start, ids, token, j), ids[j], token).1 <= MomentOf(w, start, ids, token, k)
    decreases k
  {
    if j < k { MomentsGrow(w, start, ids, token, j, k - 1); }
  }

  /** Whatever the fence removed bore a token no greater than its own. */
  lemma RemovesNoNewer(w: World, now: nat, resource: string, token: int, id: Id)
    requires Faithful(w) && id in CleanupEvidence(w, now, resource, token).fence.removed
    ensures exists t: nat :: Exists(w, t, id) && w.state(t)[id].token.Some? && w.state(t)[id].token.value <= token
  {
    var ids := ManagedIds(w, now, resource);
    WithMembers(w, now + 1, ids, token, |ids|, Gone);
    hide With;
    var j :| 0 <= j < |ids| && ids[j] == id && VerdictOf(w, now + 1, ids, token, j) == Gone;
    var t := MomentOf(w, now + 1, ids, token, j);
    assert Truthful(w, t, id) && Exists(w, t, id);
  }

  /** A listing that failed, at the fence or at the check, is never healthy. */
  lemma FailedListingUnhealthy(w: World, now: nat, resource: string, token: int)
    requires Faithful(w)
    requires w.list(now, resource).None? || w.list(CheckMoment(w, now, resource, token), resource).None?
    ensures !IsHealthy(CleanupEvidence(w, now, resource, token))
    ensures w.list(now, resource).None? ==>
              CleanupEvidence(w, now, resource, token).fence.failures == ["<docker-list-failed>"]
  {
    var ids := ManagedIds(w, now, resource);
    if w.list(now, resource).None? {
      assert Truthful(w, now + 1, LIST_FAILED) && !Exists(w, now + 1, LIST_FAILED);
      assert VerdictOf(w, now + 1, ids, token, 0) == Failure;
      assert With(w, now + 1, ids, token, 0, Failure) == [];
      assert With(w, now + 1, ids, token, 1, Failure) == [] + [LIST_FAILED];
    }
  }

  /** Healthy cleanup is trustworthy: both listings succeeded, at the check the
      resource had no owned container at all, and every one that was there at
      the fence is gone for good. */
  lemma HealthyIsTrustworthy(w: World, now: nat, resource: string, token: int)
    requires Faithful(w) && IsHealthy(CleanupEvidence(w, now, resource, token))
    ensures var at := CheckMoment(w, now, resource, token);
            && w.list(now, resource).Some? && w.list(at, resource) == Some([])
            && (forall id | Exists(w, at, id) :: !(w.state(at)[id].managed && w.state(at)[id].resource == resource))
            && forall id, u: nat | Exists(w, now, id) && w.state(now)[id].managed && w.state(now)[id].resource == resource
                                   && u >= at :: !Exists(w, u, id)
  {
    var at := CheckMoment(w, now, resource, token);
    var ids := ManagedIds(w, now, resource);
    if w.list(now, resource).None? || w.list(at, resource).None? { FailedListingUnhealthy(w, now, resource, token); }
    NoneOwned(w, at, resource);
    MomentsGrow(w, now + 1, ids, token, 0, |ids|);
    forall id, u: nat | Exists(w, now, id) && Owned(w.state(now)[id], resource) && u >= at ensures !Exists(w, u, id) {
      assert !Exists(w, at, id);
    }
  }

  lemma NoneOwned(w: World, at: nat, resource: string)
    requires Faithful(w) && w.list(at, resource) == Some([])
    ensures forall id | Exists(w, at, id) :: !Owned(w.state(at)[id], resource)
  {
    assert Complete(w, at, resource);
  }

  // ---------- what the report says of each container

  /** The fencing label as an inspection reads it. */
  function TokenOf(w: World, t: nat, id: Id): Option<int> {
    if w.inspect(t, id).Some? then w.inspect(t, id).value.token else None
  }

  /** The container is not newer than the cleanup, so its removal is tried. */
  predicate Due(w: World, t: nat, id: Id, token: int) { TokenOf(w, t, id).Some? && TokenOf(w, t, id).value <= token }

  /** When the `k`-th container is inspected: one command for each container
      before it, and one more for each removal. */
  function Inspected(w: World, start: nat, ids: seq<Id>, token: int, k: nat): nat
    requires k <= |ids|
  {
    if k == 0 then start
    else
      var t := Inspected(w, start, ids, token, k - 1);
      t + if Due(w, t, ids[k - 1], token) then 2 else 1
  }

  lemma {:induction false} MomentIs(w: World, start: nat, ids: seq<Id>, token: int, k: nat)
    requires k <= |ids|
    ensures MomentOf(w, start, ids, token, k) == Inspected(w, start, ids, token, k)
  {
    if k > 0 { MomentIs(w, start, ids, token, k - 1); }
  }

  /** The container at position `k` was seen with this token at its moment. */
  ghost predicate Preserved(w: World, now: nat, resource: string, token: int, k: nat)
    requires k < |ManagedIds(w, now, resource)|
  {
    var ids := ManagedIds(w, now, resource);
    var seen := TokenOf(w, Inspected(w, now + 1, ids, token, k), ids[k]);
    seen.Some? && seen.value > token
  }

  ghost predicate Cleared(w: World, now: nat, resource: string, token: int, k: nat)
    requires k < |ManagedIds(w, now, resource)|
  {
    var ids := ManagedIds(w, now, resource);
    var t := Inspected(w, now + 1, ids, token, k);
    Due(w, t, ids[k], token) && w.remove(t + 1, ids[k]) != RemoveFailed
  }

  /** Every listed container is preserved exactly when it bears a token greater
      than the cleanup's, removed exactly when it does not and its removal did
      not fail, and otherwise reported as a failure. */
  lemma ReportIs(w: World, now: nat, resource: string, token: int)
    ensures var ids := ManagedIds(w, now, resource);
            var f := CleanupEvidence(w, now, resource, token).fence;
            && (forall id :: id in f.skippedNewer <==>
                  exists k :: 0 <= k < |ids| && ids[k] == id && Preserved(w, now, resource, token, k))
            && (forall id :: id in f.removed <==>
                  exists k :: 0 <= k < |ids| && ids[k] == id && Cleared(w, now, resource, token, k))
            && (forall id :: id in f.failures <==>
                  exists k :: 0 <= k < |ids| && ids[k] == id
                              && !Preserved(w, now, resource, token, k) && !Cleared(w, now, resource, token, k))
  {
    hide With, Preserved, Cleared;
    var ids := ManagedIds(w, now, resource);
    WithMembers(w, now + 1, ids, token, |ids|, Gone);
    WithMembers(w, now + 1, ids, token, |ids|, Newer);
    WithMembers(w, now + 1, ids, token, |ids|, Failure);
    forall k | 0 <= k < |ids|
      ensures Preserved(w, now, resource, token, k) <==> VerdictOf(w, now + 1, ids, token, k) == Newer
      ensures Cleared(w, now, resource, token, k) <==> VerdictOf(w, now + 1, ids, token, k) == Gone
    {
      VerdictIs(w, now, resource, token, k);
    }
  }

  lemma VerdictIs(w: World, now: nat, resource: string, token: int, k: nat)
    requires k < |ManagedIds(w, now, resource)|
    ensures var v := VerdictOf(w, now + 1, ManagedIds(w, now, resource), token, k);
            && (Preserved(w, now, resource, token, k) <==> v == Newer)
            && (Cleared(w, now, resource, token, k) <==> v == Gone)
  {
    MomentIs(w, now + 1, ManagedIds(w, now, resource), token, k);
  }

  /** The containers stand in the report in the order in which they were listed. */
  lemma {:induction false} ReportOrder(w: World, start: nat, ids: seq<Id>, token: int, j: nat, k: nat, v: Verdict)
    requires j <= k <= |ids|
    ensures With(w, start, ids, token, j, v) <= With(w, start, ids, token, k, v)
    ensures j < k && VerdictOf(w, start, ids, token, j) == v ==>
              With(w, start, ids, token, j, v) + [ids[j]] <= With(w, start, ids, token, k, v)
    decreases k
  {
    hide VerdictOf;
    if j < k { ReportOrder(w, start, ids, token, j, k - 1, v); }
  }

  // ---------- when a cleanup is healthy

  /** Healthy means exactly: both listings succeeded, every container listed at
      the fence was newer or was removed, the device answered, and the second
      listing was empty. */
  lemma HealthyIff(w: World, now: nat, resource: string, token: int)
    requires Faithful(w)
    ensures var ids := ManagedIds(w, now, resource);
            var at := Inspected(w, now + 1, ids, token, |ids|);
            IsHealthy(CleanupEvidence(w, now, resource, token)) <==>
              && w.list(now, resource).Some? && w.list(at, resource) == Some([]) && w.deviceOk(at + 1)
              && forall k | 0 <= k < |ids| ::
                   Preserved(w, now, resource, token, k) || Cleared(w, now, resource, token, k)
  {
    hide With, Preserved, Cleared, Faithful;
    var ids := ManagedIds(w, now, resource);
    MomentIs(w, now + 1, ids, token, |ids|);
    ReportIs(w, now, resource, token);
    if w.list(now, resource).None? || w.list(CheckMoment(w, now, resource, token), resource).None? {
      FailedListingUnhealthy(w, now, resource, token);
    }
    var failures := CleanupEvidence(w, now, resource, token).fence.failures;
    if failures != [] { assert failures[0] in failures; }
    forall k | 0 <= k < |ids| && !Preserved(w, now, resource, token, k) && !Cleared(w, now, resource, token, k)
      ensures failures != []
    {
      assert ids[k] in failures;
    }
  }

  /** The second listing names only owned containers that are there. */
  predicate Exact(w: World, t: nat, resource: string) {
    w.list(t, resource).Some? ==>
      forall id | id in w.list(t, resource).value :: Exists(w, t, id) && Owned(w.state(t)[id], resource)
  }

  /** The normal cleanup is healthy: when every command answers, no listed
      container bears a greater token, and none appears meanwhile, all of them
      are removed and the resource is free. */
  lemma CleanupSucceeds(w: World, now: nat, resource: string, token: int)
    requires Faithful(w) && w.list(now, resource).Some?
    requires var ids := ManagedIds(w, now, resource);
             var at := Inspected(w, now + 1, ids, token, |ids|);
             && (forall k | 0 <= k < |ids| :: Cleared(w, now, resource, token, k))
             && w.list(at, resource).Some? && Exact(w, at, resource) && w.deviceOk(at + 1)
             && forall id | Exists(w, at, id) && Owned(w.state(at)[id], resource) :: Exists(w, now, id)
    ensures IsHealthy(CleanupEvidence(w, now, resource, token))
    ensures forall id | id in ManagedIds(w, now, resource) :: id in CleanupEvidence(w, now, resource, token).fence.removed
  {
    hide With, IsHealthy;
    HealthyIff(w, now, resource, token);
    ReportIs(w, now, resource, token);
    var ids := ManagedIds(w, now, resource);
    var at := Inspected(w, now + 1, ids, token, |ids|);
    var left := w.list(at, resource).value;
    if left != [] {
      var id := left[0];
      assert Exists(w, at, id) && Exists(w, now, id);
      assert Complete(w, now, resource);
      var k :| 0 <= k < |ids| && ids[k] == id;
      RemovedByThen(w, now, resource, token, k);
      assert false;
    }
  }

  lemma RemovedByThen(w: World, now: nat, resource: string, token: int, k: nat)
    requires Faithful(w) && k < |ManagedIds(w, now, resource)| && Cleared(w, now, resource, token, k)
    requires Exists(w, now, ManagedIds(w, now, resource)[k])
    ensures var ids := ManagedIds(w, now, resource);
            !Exists(w, Inspected(w, now + 1, ids, token, |ids|), ids[k])
  {
    var ids := ManagedIds(w, now, resource);
    var t, at := Inspected(w, now + 1, ids, token, k), Inspected(w, now + 1, ids, token, |ids|);
    InspectedGrows(w, now + 1, ids, token, k, |ids|);
    InspectedGrows(w, now + 1, ids, token, 0, k);
    assert Truthful(w, t + 1, ids[k]);
    assert !Exists(w, t + 2, ids[k]);
  }

  lemma {:induction false} InspectedGrows(w: World, start: nat, ids: seq<Id>, token: int, j: nat, k: nat)
    requires j <= k <= |ids|
    ensures Inspected(w, start, ids, token, j) <= Inspected(w, start, ids, token, k)
    ensures j < k && Due(w, Inspected(w, start, ids, token, j), ids[j], token) ==>
              Inspected(w, start, ids, token, j) + 2 <= Inspected(w, start, ids, token, k)
    decreases k
  {
    hide Due;
    if j < k { InspectedGrows(w, start, ids, token, j, k - 1); }
  }
}
