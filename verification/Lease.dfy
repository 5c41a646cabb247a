/** The lease of one resource: who may hold it, and under which token. */
module Lease {
  import opened Text

  datatype LeaseState =
    | Available | Active | Releasing | Expired | WorkerLost | FencingOff | HealthCheck | Quarantined

  /** The table of legal changes, where quarantine has no way out. */
  predicate Legal(before: LeaseState, after: LeaseState) {
    match before
    case Available => after == Active
    case Active => after == Releasing || after == Expired || after == WorkerLost
    case Releasing => after == FencingOff
    case Expired => after == FencingOff
    case WorkerLost => after == FencingOff
    case FencingOff => after == HealthCheck
    case HealthCheck => after == Available || after == Quarantined
    case Quarantined => false
  }

  datatype LeaseOp =
    | Acquire(ownerId: string) | BeginRelease(token: nat) | MarkExpired | StartFencing | FinishCleanup
    | CompleteHealthCheck(healthy: bool)

  datatype View = View(state: LeaseState, token: nat, owner: Option<string>)

  const NEW := View(Available, 0, None)

  predicate Succeeds(v: View, op: LeaseOp) {
    match op
    case Acquire(_) => Legal(v.state, Active)
    case BeginRelease(t) => t == v.token && Legal(v.state, Releasing)
    case MarkExpired => Legal(v.state, Expired)
    case StartFencing => Legal(v.state, FencingOff)
    case FinishCleanup => Legal(v.state, HealthCheck)
    case CompleteHealthCheck(healthy) => Legal(v.state, if healthy then Available else Quarantined)
  }

  /** A refused operation changes nothing. */
  function LeaseStep(v: View, op: LeaseOp): View {
    if !Succeeds(v, op) then v
    else
      match op
      case Acquire(ownerId) => View(Active, v.token + 1, Some(ownerId))
      case BeginRelease(_) => v.(state := Releasing)
      case MarkExpired => v.(state := Expired)
      case StartFencing => v.(state := FencingOff)
      case FinishCleanup => v.(state := HealthCheck)
      case CompleteHealthCheck(healthy) => if healthy then View(Available, v.token, None) else v.(state := Quarantined)
  }

  class ResourceLease {
    var state: LeaseState
    var fencingToken: nat
    var owner: Option<string>

    constructor ()
      ensures Now() == NEW
    {
      state, fencingToken, owner := Available, 0, None;
    }

    function Now(): View
      reads this
    {
      View(state, fencingToken, owner)
    }

    method Acquire(ownerId: string) returns (token: Option<nat>)
      modifies this
      ensures Now() == LeaseStep(old(Now()), LeaseOp.Acquire(ownerId))
      ensures token == if Succeeds(old(Now()), LeaseOp.Acquire(ownerId)) then Some(old(fencingToken) + 1) else None
    {
      if !Legal(state, Active) { return None; }
      state := Active;
      fencingToken := fencingToken + 1;
      owner := Some(ownerId);
      token := Some(fencingToken);
    }

    method BeginRelease(token: nat) returns (ok: bool)
      modifies this
      ensures Now() == LeaseStep(old(Now()), LeaseOp.BeginRelease(token))
      ensures ok <==> Succeeds(old(Now()), LeaseOp.BeginRelease(token))
    {
      if token != fencingToken || !Legal(state, Releasing) { return false; }
      state := Releasing;
      ok := true;
    }

    /** `mark_expired`, `start_fencing` and `finish_cleanup`: the change of state alone. */
    method Move(target: LeaseState) returns (ok: bool)
      modifies this
      ensures ok <==> Legal(old(state), target)
      ensures Now() == if ok then old(Now()).(state := target) else old(Now())
    {
      ok := Legal(state, target);
      if ok { state := target; }
    }

    method CompleteHealthCheck(healthy: bool) returns (ok: bool)
      modifies this
      ensures Now() == LeaseStep(old(Now()), LeaseOp.CompleteHealthCheck(healthy))
      ensures ok <==> Succeeds(old(Now()), LeaseOp.CompleteHealthCheck(healthy))
    {
      var target := if healthy then Available else Quarantined;
      if !Legal(state, target) { return false; }
      state := target;
      if healthy { owner := None; }
      ok := true;
    }

    /** Any operation; a token is returned by a successful acquisition only. */
    method Operate(op: LeaseOp) returns (token: Option<nat>)
      modifies this
      ensures Now() == LeaseStep(old(Now()), op)
      ensures token == if op.Acquire? && Succeeds(old(Now()), op) then Some(old(fencingToken) + 1) else None
    {
      var ok: bool;
      token := None;
      match op
      case Acquire(ownerId) => token := Acquire(ownerId);
      case BeginRelease(t) => ok := BeginRelease(t);
      case MarkExpired => ok := Move(Expired);
      case StartFencing => ok := Move(FencingOff);
      case FinishCleanup => ok := Move(HealthCheck);
      case CompleteHealthCheck(healthy) => ok := CompleteHealthCheck(healthy);
    }
  }

  // ---------- Whole lives of a lease

  function After(ops: seq<LeaseOp>): View {
    if ops == [] then NEW else LeaseStep(After(ops[..|ops| - 1]), ops[|ops| - 1])
  }

  /** Operation `k` succeeds. */
  predicate Done(ops: seq<LeaseOp>, k: nat)
    requires k < |ops|
  {
    Succeeds(After(ops[..k]), ops[k])
  }

  /** Operation `k` hands out `token`. */
  predicate Grants(ops: seq<LeaseOp>, k: nat, token: nat) {
    k < |ops| && ops[k].Acquire? && Done(ops, k) && token == After(ops[..k]).token + 1
  }

  lemma AfterStep(ops: seq<LeaseOp>, k: nat)
    requires k < |ops|
    ensures After(ops[..k + 1]) == LeaseStep(After(ops[..k]), ops[k])
  {
    assert ops[..k + 1][..k] == ops[..k];
  }

  /** Tokens never fall, and rise by one with each grant. */
  lemma {:induction false} TokenGrows(ops: seq<LeaseOp>, i: nat, j: nat)
    requires i <= j <= |ops|
    ensures After(ops[..i]).token <= After(ops[..j]).token
    ensures After(ops[..i]).token < After(ops[..j]).token <==>
              exists k, t :: i <= k < j && Grants(ops, k, t)
    decreases j
  {
    hide LeaseStep, Succeeds;
    if i < j {
      TokenGrows(ops, i, j - 1);
      AfterStep(ops, j - 1);
      OneToken(After(ops[..j - 1]), ops[j - 1]);
      if Done(ops, j - 1) && ops[j - 1].Acquire? { assert Grants(ops, j - 1, After(ops[..j - 1]).token + 1); }
    }
  }

  lemma OneToken(v: View, op: LeaseOp)
    ensures LeaseStep(v, op).token == v.token + if op.Acquire? && Succeeds(v, op) then 1 else 0
  {
  }

  /** A state that does not hold at `i` and holds at `j` was entered in between. */
  lemma {:induction false} Entered(ops: seq<LeaseOp>, i: nat, j: nat, s: LeaseState) returns (k: nat)
    requires i <= j <= |ops| && After(ops[..i]).state != s && After(ops[..j]).state == s
    ensures i <= k < j && Done(ops, k) && After(ops[..k]).state != s && After(ops[..k + 1]).state == s
    decreases j
  {
    hide LeaseStep, Succeeds;
    AfterStep(ops, j - 1);
    if After(ops[..j - 1]).state == s {
      k := Entered(ops, i, j - 1, s);
    } else {
      k := j - 1;
      Refused(After(ops[..k]), ops[k]);
    }
  }

  lemma Refused(v: View, op: LeaseOp)
    ensures !Succeeds(v, op) ==> LeaseStep(v, op) == v
  {
  }

  /** Which operation leads where, and from where. */
  lemma Comes(v: View, op: LeaseOp)
    requires Succeeds(v, op)
    ensures match LeaseStep(v, op).state
            case Active => op.Acquire? && v.state == Available
            case Available => op == CompleteHealthCheck(true) && v.state == HealthCheck
            case HealthCheck => op == FinishCleanup && v.state == FencingOff
            case FencingOff => op == StartFencing && (v.state == Releasing || v.state == Expired || v.state == WorkerLost)
            case Releasing => op == BeginRelease(v.token) && v.state == Active
            case Expired => op == MarkExpired && v.state == Active
            case WorkerLost => false
            case Quarantined => op == CompleteHealthCheck(false) && v.state == HealthCheck
  {
  }

  /** Between two grants the lease was given up or expired, was fenced, was
      cleaned, and passed its health check, in this order. */
  lemma RegrantNeedsCleaning(ops: seq<LeaseOp>, i: nat, t: nat, j: nat, u: nat) returns (a: nat, b: nat, c: nat, d: nat)
    requires i < j && Grants(ops, i, t) && Grants(ops, j, u)
    ensures i < a < b < c < d < j && Done(ops, a) && Done(ops, b) && Done(ops, c) && Done(ops, d)
    ensures ops[a].BeginRelease? || ops[a] == MarkExpired
    ensures ops[b] == StartFencing && ops[c] == FinishCleanup && ops[d] == CompleteHealthCheck(true)
  {
    hide LeaseStep, Succeeds;
    AfterStep(ops, i);
    AcquiredState(After(ops[..i]), ops[i]);
    AcquiredFrom(After(ops[..j]), ops[j]);
    d := Entered(ops, i + 1, j, Available);
    AfterStep(ops, d);
    Comes(After(ops[..d]), ops[d]);
    c := Entered(ops, i + 1, d, HealthCheck);
    AfterStep(ops, c);
    Comes(After(ops[..c]), ops[c]);
    b := Entered(ops, i + 1, c, FencingOff);
    AfterStep(ops, b);
    Comes(After(ops[..b]), ops[b]);
    a := Entered(ops, i + 1, b, After(ops[..b]).state);
    AfterStep(ops, a);
    Comes(After(ops[..a]), ops[a]);
  }

  lemma AcquiredState(v: View, op: LeaseOp)
    requires op.Acquire? && Succeeds(v, op)
    ensures LeaseStep(v, op).state == Active
  {
  }

  lemma AcquiredFrom(v: View, op: LeaseOp)
    requires op.Acquire? && Succeeds(v, op)
    ensures v.state == Available
  {
  }

  /** Quarantine is final: no operation succeeds any more. */
  lemma {:induction false} QuarantineIsFinal(ops: seq<LeaseOp>, i: nat, j: nat)
    requires i <= j < |ops| && After(ops[..i]).state == Quarantined
    ensures After(ops[..j]).state == Quarantined && !Done(ops, j)
    decreases j
  {
    if i < j {
      QuarantineIsFinal(ops, i, j - 1);
      AfterStep(ops, j - 1);
    }
  }

  /** Only the newest grant can be released, and two grants never share a token. */
  lemma ReleaseIsNewestGrant(ops: seq<LeaseOp>, k: nat, i: nat, t: nat)
    requires k < |ops| && ops[k].BeginRelease? && Done(ops, k) && Grants(ops, i, t) && i < k
    ensures t <= ops[k].token
    ensures t == ops[k].token <==> forall j, u :: i < j < k ==> !Grants(ops, j, u)
  {
    hide LeaseStep;
    AfterStep(ops, i);
    OneToken(After(ops[..i]), ops[i]);
    TokenGrows(ops, i + 1, k);
  }

  // ---------- what can be done

  /** From where each operation succeeds, and where it leads. */
  lemma SucceedsIff(v: View, op: LeaseOp)
    ensures var u := LeaseStep(v, op);
            match op
            case Acquire(o) =>
              (Succeeds(v, op) <==> v.state == Available) && (Succeeds(v, op) ==> u == View(Active, v.token + 1, Some(o)))
            case BeginRelease(t) =>
              && (Succeeds(v, op) <==> v.state == Active && t == v.token)
              && (Succeeds(v, op) ==> u == View(Releasing, v.token, v.owner))
            case MarkExpired =>
              (Succeeds(v, op) <==> v.state == Active) && (Succeeds(v, op) ==> u == View(Expired, v.token, v.owner))
            case StartFencing =>
              && (Succeeds(v, op) <==> v.state == Releasing || v.state == Expired || v.state == WorkerLost)
              && (Succeeds(v, op) ==> u == View(FencingOff, v.token, v.owner))
            case FinishCleanup =>
              && (Succeeds(v, op) <==> v.state == FencingOff)
              && (Succeeds(v, op) ==> u == View(HealthCheck, v.token, v.owner))
            case CompleteHealthCheck(healthy) =>
              && (Succeeds(v, op) <==> v.state == HealthCheck)
              && (Succeeds(v, op) ==>
                    u == if healthy then View(Available, v.token, None) else View(Quarantined, v.token, v.owner))
  {
  }

  /** The way from a state to the next grant. */
  function Way(v: View, o: string): seq<LeaseOp> {
    match v.state
    case Available => [Acquire(o)]
    case Active => [BeginRelease(v.token), StartFencing, FinishCleanup, CompleteHealthCheck(true), Acquire(o)]
    case HealthCheck => [CompleteHealthCheck(true), Acquire(o)]
    case FencingOff => [FinishCleanup, CompleteHealthCheck(true), Acquire(o)]
    case Quarantined => []
    case _ => [StartFencing, FinishCleanup, CompleteHealthCheck(true), Acquire(o)]
  }

  function Steps(v: View, ops: seq<LeaseOp>): View
    decreases |ops|
  {
    if ops == [] then v else Steps(LeaseStep(v, ops[0]), ops[1..])
  }

  lemma {:induction false} StepsAfter(ops: seq<LeaseOp>, more: seq<LeaseOp>)
    ensures After(ops + more) == Steps(After(ops), more)
    decreases |more|
  {
    hide LeaseStep;
    if more == [] {
      assert ops + more == ops;
    } else {
      StepsAfter(ops + [more[0]], more[1..]);
      assert ops + [more[0]] + more[1..] == ops + more;
      assert (ops + [more[0]])[..|ops|] == ops;
      AfterStep(ops + [more[0]], |ops|);
      assert (ops + [more[0]])[..|ops| + 1] == ops + [more[0]];
    }
  }

  lemma StepsCons(v: View, op: LeaseOp, rest: seq<LeaseOp>)
    ensures Steps(v, [op] + rest) == Steps(LeaseStep(v, op), rest) && Steps(v, []) == v
  {
    hide LeaseStep;
    assert ([op] + rest)[1..] == rest;
  }

  lemma WayLeads(v: View, o: string)
    requires v.state != Quarantined
    ensures Steps(v, Way(v, o)) == View(Active, v.token + 1, Some(o))
    decreases match v.state case Available => 0 case HealthCheck => 1 case FencingOff => 2 case Active => 4 case _ => 3
  {
    hide LeaseStep, Succeeds;
    var way := Way(v, o);
    assert way == [way[0]] + way[1..];
    SucceedsIff(v, way[0]);
    StepsCons(v, way[0], way[1..]);
    var u := LeaseStep(v, way[0]);
    if v.state == Available {
      StepsCons(u, way[0], []);
    } else {
      assert Way(u, o) == way[1..];
      WayLeads(u, o);
    }
  }

  lemma {:induction false} Stuck(v: View, more: seq<LeaseOp>)
    requires v.state == Quarantined
    ensures Steps(v, more) == v
    decreases |more|
  {
    hide LeaseStep, Succeeds;
    if more != [] {
      SucceedsIff(v, more[0]);
      Refused(v, more[0]);
      Stuck(v, more[1..]);
    }
  }

  /** After any operations the resource can be granted again, to anybody and
      under the next token, exactly when it is not quarantined. */
  lemma RegrantableIff(ops: seq<LeaseOp>, o: string)
    ensures (exists more :: After(ops + more) == View(Active, After(ops).token + 1, Some(o))) <==>
            After(ops).state != Quarantined
  {
    hide LeaseStep, Succeeds, Way, Steps;
    var v := After(ops);
    if v.state != Quarantined {
      WayLeads(v, o);
      StepsAfter(ops, Way(v, o));
    } else {
      forall more ensures After(ops + more) == v {
        StepsAfter(ops, more);
        Stuck(v, more);
      }
    }
  }
}
