/** Leases hand out growing tokens; the guard lets only the newest one through. */
module Fencing {
  import opened Lease

  // ---------- The guard

  function Mark(tokens: map<string, int>, resource: string): int { if resource in tokens then tokens[resource] else 0 }

  class FencingGuard {
    var tokens: map<string, int>

    constructor ()
      ensures tokens == map[]
    {
      tokens := map[];
    }

    method BeforeExecute(resource: string, token: int) returns (ok: bool)
      modifies this
      ensures ok <==> Passes(old(tokens), Admit(resource, token))
      ensures tokens == Advance(old(tokens), Admit(resource, token))
    {
      var current := if resource in tokens then tokens[resource] else 0;
      if token < current { return false; }
      tokens := tokens[resource := token];
      ok := true;
    }

    method BeforeResult(resource: string, token: int) returns (ok: bool)
      ensures ok <==> Passes(tokens, Release(resource, token))
    {
      ok := resource in tokens && tokens[resource] == token;
    }
  }

  // ---------- Whole runs

  /** The calls in the order the locks were taken. An execution is admitted
      under the token of its lease and asks again before it releases its result. */
  datatype Event =
    | Acquired(resource: string)
    | Admit(resource: string, token: int)
    | Release(resource: string, token: int)

  predicate Passes(tokens: map<string, int>, e: Event) {
    match e
    case Acquired(_) => true
    case Admit(r, t) => t >= Mark(tokens, r)
    case Release(r, t) => r in tokens && tokens[r] == t
  }

  function Advance(tokens: map<string, int>, e: Event): map<string, int> {
    if e.Admit? && Passes(tokens, e) then tokens[e.resource := e.token] else tokens
  }

  function Tokens(events: seq<Event>): map<string, int> {
    if events == [] then map[] else Advance(Tokens(events[..|events| - 1]), events[|events| - 1])
  }

  /** The `k`-th call got through. */
  predicate Through(events: seq<Event>, k: nat)
    requires k < |events|
  {
    Passes(Tokens(events[..k]), events[k])
  }

  predicate Admitted(events: seq<Event>, k: nat, resource: string) {
    k < |events| && events[k].Admit? && events[k].resource == resource && Through(events, k)
  }

  /** The mark is the greatest token admitted, and zero before any. */
  predicate Greatest(events: seq<Event>, resource: string, mark: int) {
    && (forall k: nat | k < |events| && Admitted(events, k, resource) :: events[k].token <= mark)
    && (mark == 0 || exists k: nat :: k < |events| && Admitted(events, k, resource) && events[k].token == mark)
    && mark >= 0
  }

  lemma ThroughPrefix(events: seq<Event>, n: nat, k: nat)
    requires k < n <= |events|
    ensures Through(events[..n], k) == Through(events, k) && events[..n][k] == events[k]
  {
    assert events[..n][..k] == events[..k];
  }

  /** How the last call changes the mark. */
  lemma TokensStep(events: seq<Event>, resource: string)
    requires events != []
    ensures var n := |events| - 1;
            var before, after := Tokens(events[..n]), Tokens(events);
            if Admitted(events, n, resource) then
              resource in after && Mark(after, resource) == events[n].token >= Mark(before, resource)
            else Mark(after, resource) == Mark(before, resource) && (resource in after <==> resource in before)
  {
    LastThrough(events);
    hide Through;
  }

  lemma {:induction false} MarkIsGreatest(events: seq<Event>, resource: string)
    ensures Greatest(events, resource, Mark(Tokens(events), resource))
    ensures resource in Tokens(events) <==> exists k: nat :: k < |events| && Admitted(events, k, resource)
  {
    hide Through;
    if events != [] {
      var n := |events| - 1;
      var before := events[..n];
      MarkIsGreatest(before, resource);
      TokensStep(events, resource);
      AdmittedBefore(events, n, resource);
      hide Tokens, Mark;
      var mark := Mark(Tokens(before), resource);
      forall k: nat | k < |events| && Admitted(events, k, resource)
        ensures events[k].token <= Mark(Tokens(events), resource)
      {
        if k < n { assert Admitted(before, k, resource) && before[k].token <= mark; }
      }
      if !Admitted(events, n, resource) {
        if mark != 0 {
          var k: nat :| k < |before| && Admitted(before, k, resource) && before[k].token == mark;
          assert Admitted(events, k, resource) && events[k].token == mark;
        }
        if resource in Tokens(events) {
          var k: nat :| k < |before| && Admitted(before, k, resource);
          assert Admitted(events, k, resource);
        }
      }
    }
  }

  lemma LastThrough(events: seq<Event>)
    requires events != []
    ensures Through(events, |events| - 1) == Passes(Tokens(events[..|events| - 1]), events[|events| - 1])
  {
  }

  lemma AdmittedBefore(events: seq<Event>, k: nat, resource: string)
    requires k < |events|
    ensures forall j: nat | j < k :: Admitted(events[..k], j, resource) == Admitted(events, j, resource)
                                     && events[..k][j] == events[j]
  {
    forall j: nat | j < k
      ensures Admitted(events[..k], j, resource) == Admitted(events, j, resource) && events[..k][j] == events[j]
    {
      ThroughPrefix(events, k, j);
    }
  }

  /** A call is admitted exactly when its token is at least every token admitted
      before it on that resource, and not negative. */
  lemma AdmitIff(events: seq<Event>, k: nat)
    requires k < |events| && events[k].Admit?
    ensures Through(events, k) <==>
            events[k].token >= 0
            && forall j: nat | j < k && Admitted(events, j, events[k].resource) :: events[j].token <= events[k].token
  {
    hide Tokens;
    var r := events[k].resource;
    MarkIsGreatest(events[..k], r);
    AdmittedBefore(events, k, r);
    var mark := Mark(Tokens(events[..k]), r);
    if mark != 0 {
      var j: nat :| j < k && Admitted(events[..k], j, r) && events[..k][j].token == mark;
      assert Admitted(events, j, r);
    }
    forall j: nat | j < k && Admitted(events, j, r) ensures events[j].token <= mark {
      assert Admitted(events[..k], j, r);
    }
  }

  /** A result is released exactly when its token was admitted and is the
      greatest admitted so far on that resource. */
  lemma ReleaseIff(events: seq<Event>, k: nat)
    requires k < |events| && events[k].Release?
    ensures Through(events, k) <==>
            && (exists j: nat :: j < k && Admitted(events, j, events[k].resource) && events[j].token == events[k].token)
            && forall j: nat | j < k && Admitted(events, j, events[k].resource) :: events[j].token <= events[k].token
  {
    hide Tokens;
    var r := events[k].resource;
    MarkIsGreatest(events[..k], r);
    AdmittedBefore(events, k, r);
    var mark := Mark(Tokens(events[..k]), r);
    forall j: nat | j < k && Admitted(events, j, r) ensures events[j].token <= mark && r in Tokens(events[..k]) {
      assert Admitted(events[..k], j, r);
    }
    if r in Tokens(events[..k]) {
      MarkAdmitted(events[..k], r);
      var j: nat :| j < k && Admitted(events[..k], j, r) && events[..k][j].token == mark;
      assert Admitted(events, j, r) && events[j].token == mark;
    }
  }

  lemma MarkAdmitted(events: seq<Event>, resource: string)
    requires resource in Tokens(events)
    ensures exists j: nat :: j < |events| && Admitted(events, j, resource)
                             && events[j].token == Mark(Tokens(events), resource)
  {
    hide Tokens, Through;
    MarkIsGreatest(events, resource);
    var mark := Mark(Tokens(events), resource);
    if mark == 0 {
      var j: nat :| j < |events| && Admitted(events, j, resource);
      NotNegative(events, j);
    }
  }

  lemma NotNegative(events: seq<Event>, j: nat)
    requires j < |events| && events[j].Admit? && Through(events, j)
    ensures events[j].token >= 0
  {
    hide Tokens, Through;
    AdmitIff(events, j);
  }

  /** Once a token is admitted, no smaller one is admitted or released on that
      resource ever again. */
  lemma NoneSmallerAfter(events: seq<Event>, j: nat, k: nat)
    requires j < k < |events| && Admitted(events, j, events[k].resource) && !events[k].Acquired?
    requires events[k].token < events[j].token
    ensures !Through(events, k)
  {
    hide Tokens;
    if events[k].Admit? { AdmitIff(events, k); } else { ReleaseIff(events, k); }
  }

  // ---------- Tokens from the lease

  /** The token of the `i`-th event's lease: one more than the leases before it. */
  function LeaseCount(events: seq<Event>, resource: string): nat {
    if events == [] then 0
    else
      LeaseCount(events[..|events| - 1], resource)
      + if events[|events| - 1] == Acquired(resource) then 1 else 0
  }

  predicate Leased(events: seq<Event>, i: nat, resource: string, token: int) {
    i < |events| && events[i] == Acquired(resource) && token == LeaseCount(events[..i], resource) + 1
  }

  lemma {:induction false} LeaseCountGrows(events: seq<Event>, resource: string, i: nat, j: nat)
    requires i <= j <= |events|
    ensures LeaseCount(events[..i], resource) <= LeaseCount(events[..j], resource)
    ensures i < j && events[i] == Acquired(resource) ==>
              LeaseCount(events[..i], resource) < LeaseCount(events[..j], resource)
    decreases j
  {
    if i < j {
      assert events[..j][..j - 1] == events[..j - 1];
      LeaseCountGrows(events, resource, i, j - 1);
    }
  }

  /** What happens on one host: an operation on the lease of `resource`, or any
      guard call, or the acquisition of another resource. */
  datatype Call = OnLease(op: LeaseOp) | Other(event: Event)

  predicate Foreign(calls: seq<Call>, resource: string) {
    forall c | c in calls && c.Other? :: c.event != Acquired(resource)
  }

  lemma LeaseCountSnoc(events: seq<Event>, e: Event, resource: string)
    ensures LeaseCount(events + [e], resource) == LeaseCount(events, resource) + if e == Acquired(resource) then 1 else 0
  {
    assert (events + [e])[..|events|] == events;
  }

  lemma LeasedStays(events: seq<Event>, e: Event, i: nat, resource: string, token: int)
    requires Leased(events, i, resource, token)
    ensures Leased(events + [e], i, resource, token)
  {
    assert (events + [e])[..i] == events[..i];
  }

  function LeaseOps(calls: seq<Call>): seq<LeaseOp> {
    if calls == [] then []
    else
      LeaseOps(calls[..|calls| - 1])
      + match calls[|calls| - 1] case OnLease(op) => [op] case Other(_) => []
  }

  /** The events of the calls: those of others, and the lease's own grants. */
  function EventsOf(resource: string, calls: seq<Call>): seq<Event> {
    if calls == [] then []
    else
      var before := calls[..|calls| - 1];
      EventsOf(resource, before)
      + match calls[|calls| - 1]
        case Other(e) => [e]
        case OnLease(op) =>
          if op.Acquire? && Succeeds(Lease.After(LeaseOps(before)), op) then [Acquired(resource)] else []
  }

  lemma OneMoreCall(resource: string, calls: seq<Call>, k: nat)
    requires k < |calls|
    ensures match calls[k]
            case Other(e) =>
              && LeaseOps(calls[..k + 1]) == LeaseOps(calls[..k])
              && EventsOf(resource, calls[..k + 1]) == EventsOf(resource, calls[..k]) + [e]
            case OnLease(op) =>
              var v := Lease.After(LeaseOps(calls[..k]));
              && Lease.After(LeaseOps(calls[..k + 1])) == LeaseStep(v, op)
              && EventsOf(resource, calls[..k + 1]) ==
                   EventsOf(resource, calls[..k]) + if op.Acquire? && Succeeds(v, op) then [Acquired(resource)] else []
  {
    hide LeaseStep, Succeeds;
    assert calls[..k + 1][..k] == calls[..k];
    if calls[k].OnLease? {
      var ops := LeaseOps(calls[..k]) + [calls[k].op];
      assert ops[..|ops| - 1] == LeaseOps(calls[..k]);
    }
  }

  lemma NoLeases(resource: string)
    ensures LeaseCount([], resource) == 0 && EventsOf(resource, []) == [] && Lease.After(LeaseOps([])) == NEW
  {
  }

  /** A new lease under any calls: every token it hands out is the one counted
      from the events, so results released later can be traced to it. */
  method RunLease(resource: string, calls: seq<Call>)
    returns (events: seq<Event>, grants: seq<(nat, nat)>)
    requires Foreign(calls, resource)
    ensures events == EventsOf(resource, calls)
    ensures forall g | g in grants :: Leased(events, g.0, resource, g.1)
    ensures forall i: nat | i < |events| && events[i] == Acquired(resource) :: exists g | g in grants :: g.0 == i
    ensures forall n: nat | n < |grants| :: grants[n].1 == n + 1
  {
    hide LeaseCount, LeaseStep, Succeeds, LeaseOps, EventsOf;
    events, grants := [], [];
    NoLeases(resource);
    assert calls[..0] == [] && calls[..|calls|] == calls;
    var lease := new ResourceLease();
    for k := 0 to |calls|
      invariant fresh(lease) && lease.Now() == Lease.After(LeaseOps(calls[..k]))
      invariant events == EventsOf(resource, calls[..k])
      invariant lease.fencingToken == |grants| == LeaseCount(events, resource)
      invariant forall g | g in grants :: Leased(events, g.0, resource, g.1)
      invariant forall i: nat | i < |events| && events[i] == Acquired(resource) :: exists g | g in grants :: g.0 == i
      invariant forall n: nat | n < |grants| :: grants[n].1 == n + 1
    {
      OneMoreCall(resource, calls, k);
      match calls[k]
      case Other(e) =>
        LeaseCountSnoc(events, e, resource);
        forall g | g in grants ensures Leased(events + [e], g.0, resource, g.1) {
          LeasedStays(events, e, g.0, resource, g.1);
        }
        events := events + [e];
      case OnLease(op) =>
        var token := lease.Operate(op);
        OneToken(Lease.After(LeaseOps(calls[..k])), op);
        if token.Some? {
          LeaseCountSnoc(events, Acquired(resource), resource);
          assert (events + [Acquired(resource)])[..|events|] == events;
          forall g | g in grants ensures Leased(events + [Acquired(resource)], g.0, resource, g.1) {
            LeasedStays(events, Acquired(resource), g.0, resource, g.1);
          }
          grants := grants + [(|events|, token.value)];
          events := events + [Acquired(resource)];
        }
    }
  }

  /** Released results belong to the newest lease admitted on the resource: no
      lease acquired later had been admitted by then, and two leases never
      share a token. */
  lemma ReleaseIsNewestLease(events: seq<Event>, k: nat, i: nat, n: nat, j: nat)
    requires k < |events| && events[k].Release? && Through(events, k)
    requires Leased(events, i, events[k].resource, events[k].token)
    requires j < k && Admitted(events, j, events[k].resource)
    requires Leased(events, n, events[k].resource, events[j].token)
    ensures n <= i && (n == i <==> events[j].token == events[k].token)
  {
    hide Tokens, LeaseCount;
    ReleaseIff(events, k);
    var r := events[k].resource;
    if i <= n { LeaseCountGrows(events, r, i, n); } else { LeaseCountGrows(events, r, n, i); }
  }
}
