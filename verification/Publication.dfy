/** Write-once publication by concurrent publishers that may crash: look, write
    a temporary file, link it into place, or compare with what is there. */
module Publication {
  import opened Octets

  datatype Space = ReviewKeys | Reviews | PromotionKeys | Promotions | Evidence

  datatype Path = Path(space: Space, name: nat)

  type Disk = map<Path, Bytes>

  /** One publication: a final path and the bytes meant for it. */
  datatype Item = Item(path: Path, payload: Bytes)

  /** `Writing(n)`: the private temporary file holds the first `n` bytes. */
  datatype Phase = Checking | Writing(written: nat) | Comparing

  datatype Fate = Working | Completed | Refused | Crashed

  /** A caller that publishes several items, one after the other. */
  datatype Job = Job(items: seq<Item>, at: nat, phase: Phase, fate: Fate)

  datatype State = State(disk: Disk, jobs: seq<Job>)

  datatype Step =
    | Start(items: seq<Item>)
    | Look(job: nat)
    | WriteMore(job: nat, bytes: nat)
    | Link(job: nat)
    | Compare(job: nat)
    | Crash(job: nat)

  function Begin(items: seq<Item>): Job { Job(items, 0, Checking, if items == [] then Completed else Working) }

  function Advance(j: Job): Job {
    j.(at := j.at + 1, phase := Checking, fate := if j.at + 1 >= |j.items| then Completed else Working)
  }

  predicate Works(s: State, i: nat) {
    i < |s.jobs| && s.jobs[i].fate == Working && s.jobs[i].at < |s.jobs[i].items|
  }

  function Current(s: State, i: nat): Item
    requires Works(s, i)
  {
    s.jobs[i].items[s.jobs[i].at]
  }

  function SetJob(s: State, i: nat, j: Job): State
    requires i < |s.jobs|
  {
    s.(jobs := s.jobs[i := j])
  }

  /** `path.exists()`. */
  function LookStep(s: State, i: nat): State {
    if !Works(s, i) || s.jobs[i].phase != Checking then s
    else SetJob(s, i, s.jobs[i].(phase := if Current(s, i).path in s.disk then Comparing else Writing(0)))
  }

  function WriteStep(s: State, i: nat, bytes: nat): State {
    if !Works(s, i) || !s.jobs[i].phase.Writing? || s.jobs[i].phase.written + bytes > |Current(s, i).payload| then s
    else SetJob(s, i, s.jobs[i].(phase := Writing(s.jobs[i].phase.written + bytes)))
  }

  /** What the temporary file holds. */
  function Temporary(s: State, i: nat): Bytes
    requires Works(s, i) && s.jobs[i].phase.Writing? && s.jobs[i].phase.written <= |Current(s, i).payload|
  {
    Current(s, i).payload[..s.jobs[i].phase.written]
  }

  /** `os.link`, once everything is written; it never replaces a file. */
  function LinkStep(s: State, i: nat): State {
    if !Works(s, i) || !s.jobs[i].phase.Writing? || s.jobs[i].phase.written != |Current(s, i).payload| then s
    else if Current(s, i).path in s.disk then SetJob(s, i, s.jobs[i].(phase := Comparing))
    else SetJob(s.(disk := s.disk[Current(s, i).path := Temporary(s, i)]), i, Advance(s.jobs[i]))
  }

  function CompareStep(s: State, i: nat): State {
    if !Works(s, i) || s.jobs[i].phase != Comparing || Current(s, i).path !in s.disk then s
    else if s.disk[Current(s, i).path] == Current(s, i).payload then SetJob(s, i, Advance(s.jobs[i]))
    else SetJob(s, i, s.jobs[i].(fate := Refused))
  }

  function CrashStep(s: State, i: nat): State {
    if Works(s, i) then SetJob(s, i, s.jobs[i].(fate := Crashed)) else s
  }

  function Apply(s: State, step: Step): State {
    match step
    case Start(items) => s.(jobs := s.jobs + [Begin(items)])
    case Look(i) => LookStep(s, i)
    case WriteMore(i, bytes) => WriteStep(s, i, bytes)
    case Link(i) => LinkStep(s, i)
    case Compare(i) => CompareStep(s, i)
    case Crash(i) => CrashStep(s, i)
  }

  function Run(s: State, steps: seq<Step>): State
    decreases |steps|
  {
    if steps == [] then s else Run(Apply(s, steps[0]), steps[1..])
  }

  const EMPTY := State(map[], [])

  // ---------- The invariant

  predicate OnDisk(d: Disk, item: Item) { item.path in d && d[item.path] == item.payload }

  predicate JobOk(d: Disk, j: Job) {
    && j.at <= |j.items|
    && (forall k | 0 <= k < j.at :: OnDisk(d, j.items[k]))
    && (j.fate == Completed ==> j.at == |j.items|)
    && (j.fate == Refused ==>
          j.at < |j.items| && j.items[j.at].path in d && d[j.items[j.at].path] != j.items[j.at].payload)
    && (j.fate == Working ==> j.at < |j.items|)
    && (j.fate == Working && j.phase.Writing? ==> j.phase.written <= |j.items[j.at].payload|)
    && (j.fate == Working && j.phase == Comparing ==> j.items[j.at].path in d)
  }

  /** Some job published exactly these bytes here. */
  predicate Authored(s: State, p: Path)
    requires p in s.disk
  {
    exists i, k :: 0 <= i < |s.jobs| && 0 <= k < s.jobs[i].at && k < |s.jobs[i].items|
                && s.jobs[i].items[k] == Item(p, s.disk[p])
  }

  predicate Inv(s: State) {
    && (forall i | 0 <= i < |s.jobs| :: JobOk(s.disk, s.jobs[i]))
    && forall p | p in s.disk :: Authored(s, p)
  }

  predicate Extends(d: Disk, e: Disk) { forall p | p in d :: p in e && e[p] == d[p] }

  lemma JobOkExtends(d: Disk, e: Disk, j: Job)
    requires JobOk(d, j) && Extends(d, e)
    ensures JobOk(e, j)
  {
  }

  /** A job may change its own entry and extend the disk by what it published. */
  lemma SetJobKeeps(s: State, i: nat, j: Job, t: State)
    requires Inv(s) && i < |s.jobs| && t.jobs == s.jobs[i := j] && Extends(s.disk, t.disk) && JobOk(t.disk, j)
    requires j.items == s.jobs[i].items && j.at >= s.jobs[i].at
    requires forall p | p in t.disk && p !in s.disk ::
      exists k :: 0 <= k < j.at && k < |j.items| && j.items[k] == Item(p, t.disk[p])
    ensures Inv(t)
  {
    hide JobOk;
    forall n | 0 <= n < |t.jobs| ensures JobOk(t.disk, t.jobs[n]) {
      if n != i { JobOkExtends(s.disk, t.disk, s.jobs[n]); }
    }
    AuthorsKept(s, i, j, t);
  }

  lemma AuthorsKept(s: State, i: nat, j: Job, t: State)
    requires forall p | p in s.disk :: Authored(s, p)
    requires i < |s.jobs| && t.jobs == s.jobs[i := j] && Extends(s.disk, t.disk)
    requires j.items == s.jobs[i].items && j.at >= s.jobs[i].at
    requires forall p | p in t.disk && p !in s.disk ::
      exists k :: 0 <= k < j.at && k < |j.items| && j.items[k] == Item(p, t.disk[p])
    ensures forall p | p in t.disk :: Authored(t, p)
  {
    forall p | p in t.disk ensures Authored(t, p) {
      if p in s.disk {
        var n, k :| 0 <= n < |s.jobs| && 0 <= k < s.jobs[n].at && k < |s.jobs[n].items|
                    && s.jobs[n].items[k] == Item(p, s.disk[p]);
        assert t.jobs[n].items[k] == Item(p, t.disk[p]);
      } else {
        var k :| 0 <= k < j.at && k < |j.items| && j.items[k] == Item(p, t.disk[p]);
        assert t.jobs[i].items[k] == Item(p, t.disk[p]);
      }
    }
  }

  lemma StartKeeps(s: State, items: seq<Item>)
    requires Inv(s)
    ensures Inv(Apply(s, Start(items)))
  {
    hide JobOk;
    var t := Apply(s, Start(items));
    BeginOk(s.disk, items);
    forall p | p in t.disk ensures Authored(t, p) {
      var n, k :| 0 <= n < |s.jobs| && 0 <= k < s.jobs[n].at && k < |s.jobs[n].items|
                  && s.jobs[n].items[k] == Item(p, s.disk[p]);
      assert t.jobs[n].items[k] == Item(p, t.disk[p]);
    }
  }

  lemma BeginOk(d: Disk, items: seq<Item>)
    ensures JobOk(d, Begin(items))
  {
  }

  lemma AdvanceOk(d: Disk, j: Job)
    requires JobOk(d, j) && j.fate == Working && OnDisk(d, j.items[j.at])
    ensures JobOk(d, Advance(j))
  {
  }

  lemma LinkKeeps(s: State, i: nat)
    requires Inv(s)
    ensures Inv(LinkStep(s, i)) && Extends(s.disk, LinkStep(s, i).disk)
  {
    var t := LinkStep(s, i);
    if Works(s, i) && s.jobs[i].phase.Writing? && s.jobs[i].phase.written == |Current(s, i).payload| {
      if Current(s, i).path !in s.disk {
        assert Temporary(s, i) == Current(s, i).payload;
        JobOkExtends(s.disk, t.disk, s.jobs[i]);
        AdvanceOk(t.disk, s.jobs[i]);
      }
      hide JobOk;
      SetJobKeeps(s, i, t.jobs[i], t);
    }
  }

  lemma LookKeeps(s: State, i: nat)
    requires Inv(s)
    ensures Inv(LookStep(s, i))
  {
    if Works(s, i) && s.jobs[i].phase == Checking {
      SetJobKeeps(s, i, LookStep(s, i).jobs[i], LookStep(s, i));
    }
  }

  lemma WriteKeeps(s: State, i: nat, bytes: nat)
    requires Inv(s)
    ensures Inv(WriteStep(s, i, bytes))
  {
    var t := WriteStep(s, i, bytes);
    if t != s { SetJobKeeps(s, i, t.jobs[i], t); }
  }

  lemma CompareKeeps(s: State, i: nat)
    requires Inv(s)
    ensures Inv(CompareStep(s, i))
  {
    var t := CompareStep(s, i);
    if t != s {
      if s.disk[Current(s, i).path] == Current(s, i).payload { AdvanceOk(s.disk, s.jobs[i]); }
      SetJobKeeps(s, i, t.jobs[i], t);
    }
  }

  lemma CrashKeeps(s: State, i: nat)
    requires Inv(s)
    ensures Inv(CrashStep(s, i))
  {
    if Works(s, i) { SetJobKeeps(s, i, CrashStep(s, i).jobs[i], CrashStep(s, i)); }
  }

  lemma ApplyKeeps(s: State, step: Step)
    requires Inv(s)
    ensures Inv(Apply(s, step)) && Extends(s.disk, Apply(s, step).disk)
  {
    hide Inv, LinkStep;
    match step
    case Start(items) => StartKeeps(s, items);
    case Look(i) => LookKeeps(s, i);
    case WriteMore(i, bytes) => WriteKeeps(s, i, bytes);
    case Link(i) => LinkKeeps(s, i);
    case Compare(i) => CompareKeeps(s, i);
    case Crash(i) => CrashKeeps(s, i);
  }

  lemma ExtendsTransitive(a: Disk, b: Disk, c: Disk)
    requires Extends(a, b) && Extends(b, c)
    ensures Extends(a, c)
  {
  }

  lemma {:induction false} RunKeeps(s: State, steps: seq<Step>)
    requires Inv(s)
    ensures Inv(Run(s, steps)) && Extends(s.disk, Run(s, steps).disk)
    decreases |steps|
  {
    hide Inv, Apply;
    if steps != [] {
      ApplyKeeps(s, steps[0]);
      RunKeeps(Apply(s, steps[0]), steps[1..]);
      ExtendsTransitive(s.disk, Apply(s, steps[0]).disk, Run(s, steps).disk);
    }
  }

  lemma {:induction false} RunConcat(s: State, a: seq<Step>, b: seq<Step>)
    ensures Run(s, a + b) == Run(Run(s, a), b)
    decreases |a|
  {
    hide Apply;
    if a == [] {
      assert a + b == b;
    } else {
      assert (a + b)[0] == a[0] && (a + b)[1..] == a[1..] + b;
      RunConcat(Apply(s, a[0]), a[1..], b);
    }
  }

  lemma EmptyInv()
    ensures Inv(EMPTY)
  {
  }

  // ---------- What every run keeps

  /** Under any interleaving and any crashes, a path shows nothing or the whole
      payload of some publisher, and what it shows never changes. */
  lemma WriteOnce(steps: seq<Step>, more: seq<Step>)
    ensures var s := Run(EMPTY, steps);
            forall p | p in s.disk :: Authored(s, p) && p in Run(EMPTY, steps + more).disk
                                      && Run(EMPTY, steps + more).disk[p] == s.disk[p]
  {
    hide Run, Apply, Authored, JobOk;
    EmptyInv();
    RunKeeps(EMPTY, steps);
    RunConcat(EMPTY, steps, more);
    RunKeeps(Run(EMPTY, steps), more);
  }

  predicate Published(j: Job, item: Item) { j.fate == Completed && item in j.items }

  /** Two publishers that both succeeded at one path meant the same bytes, and
      a refused one met different bytes. */
  lemma SuccessesAgree(steps: seq<Step>, i: nat, j: nat, a: Item, b: Item)
    requires i < |Run(EMPTY, steps).jobs| && j < |Run(EMPTY, steps).jobs| && a.path == b.path
    requires Published(Run(EMPTY, steps).jobs[i], a) && Published(Run(EMPTY, steps).jobs[j], b)
    ensures a.payload == b.payload
  {
    hide Run, Apply;
    EmptyInv();
    RunKeeps(EMPTY, steps);
    var s := Run(EMPTY, steps);
    PublishedOnDisk(s, i, a);
    PublishedOnDisk(s, j, b);
  }

  lemma PublishedOnDisk(s: State, i: nat, item: Item)
    requires Inv(s) && i < |s.jobs| && Published(s.jobs[i], item)
    ensures OnDisk(s.disk, item)
  {
    var k :| 0 <= k < |s.jobs[i].items| && s.jobs[i].items[k] == item;
  }

  // ---------- A replay completes

  /** What is on the disk, or earlier in the list, does not contradict an item. */
  predicate Consistent(d: Disk, items: seq<Item>) {
    && (forall k | 0 <= k < |items| :: items[k].path in d ==> d[items[k].path] == items[k].payload)
    && forall j, k | 0 <= j < k < |items| :: items[j].path == items[k].path ==> items[j].payload == items[k].payload
  }

  function SoloItem(d: Disk, i: nat, item: Item): seq<Step> {
    if item.path in d then [Look(i), Compare(i)] else [Look(i), WriteMore(i, |item.payload|), Link(i)]
  }

  /** The publisher's own steps, when nobody else moves. */
  function Solo(d: Disk, i: nat, items: seq<Item>): seq<Step>
    decreases |items|
  {
    if items == [] then [] else SoloItem(d, i, items[0]) + Solo(d[items[0].path := items[0].payload], i, items[1..])
  }

  lemma SoloItemRuns(s: State, i: nat)
    requires Inv(s) && Works(s, i) && s.jobs[i].phase == Checking
    requires Current(s, i).path in s.disk ==> OnDisk(s.disk, Current(s, i))
    ensures var t := Run(s, SoloItem(s.disk, i, Current(s, i)));
            && t.disk == s.disk[Current(s, i).path := Current(s, i).payload]
            && t.jobs == s.jobs[i := Advance(s.jobs[i])]
  {
    hide Inv, JobOk;
    var item := Current(s, i);
    if item.path in s.disk {
      var a := LookStep(s, i);
      RunTwo(s, Look(i), Compare(i));
      assert s.disk == s.disk[item.path := item.payload];
    } else {
      var a := LookStep(s, i);
      var b := WriteStep(a, i, |item.payload|);
      assert b.jobs[i].phase == Writing(|item.payload|) && Temporary(b, i) == item.payload;
      RunThree(s, Look(i), WriteMore(i, |item.payload|), Link(i));
    }
  }

  lemma RunTwo(s: State, a: Step, b: Step)
    ensures Run(s, [a, b]) == Apply(Apply(s, a), b)
  {
    hide Apply;
    assert [a, b][1..] == [b] && [b][1..] == [];
    assert Run(Apply(s, a), [b]) == Run(Apply(Apply(s, a), b), []);
  }

  lemma RunThree(s: State, a: Step, b: Step, c: Step)
    ensures Run(s, [a, b, c]) == Apply(Apply(Apply(s, a), b), c)
  {
    hide Apply;
    assert [a, b, c][1..] == [b, c];
    RunTwo(Apply(s, a), b, c);
  }

  lemma {:induction false} SoloRuns(s: State, i: nat)
    requires Inv(s) && Works(s, i) && s.jobs[i].phase == Checking
    requires Consistent(s.disk, s.jobs[i].items[s.jobs[i].at..])
    ensures var t := Run(s, Solo(s.disk, i, s.jobs[i].items[s.jobs[i].at..]));
            i < |t.jobs| && t.jobs[i].fate == Completed && t.jobs[i].items == s.jobs[i].items
    decreases |s.jobs[i].items| - s.jobs[i].at
  {
    hide JobOk, Authored, SoloItem, Run, Apply;
    var items := s.jobs[i].items[s.jobs[i].at..];
    var item := Current(s, i);
    assert items[0] == item;
    SoloItemRuns(s, i);
    RunKeeps(s, SoloItem(s.disk, i, item));
    var t := Run(s, SoloItem(s.disk, i, item));
    RunConcat(s, SoloItem(s.disk, i, item), Solo(t.disk, i, items[1..]));
    if |items| > 1 {
      assert t.jobs[i].items[t.jobs[i].at..] == items[1..];
      ConsistentRest(s.disk, items);
      SoloRuns(t, i);
    } else {
      SoloNone(t, i, items[1..]);
    }
  }

  lemma SoloNone(t: State, i: nat, items: seq<Item>)
    requires items == []
    ensures Run(t, Solo(t.disk, i, items)) == t
  {
  }

  lemma ConsistentRest(d: Disk, items: seq<Item>)
    requires Consistent(d, items) && items != []
    ensures Consistent(d[items[0].path := items[0].payload], items[1..])
  {
    var rest := items[1..];
    assert forall k | 0 <= k < |rest| :: rest[k] == items[k + 1];
  }

  /** From any reachable state, a new publisher whose items contradict nothing
      on the disk completes when left alone; one that contradicts the disk
      completes in no continuation at all. */
  lemma ReplayCompletes(steps: seq<Step>, items: seq<Item>)
    requires Consistent(Run(EMPTY, steps).disk, items) && items != []
    ensures var s := Run(EMPTY, steps);
            var t := Run(EMPTY, steps + ([Start(items)] + Solo(s.disk, |s.jobs|, items)));
            |s.jobs| < |t.jobs| && t.jobs[|s.jobs|].fate == Completed && t.jobs[|s.jobs|].items == items
  {
    hide JobOk, Authored, Solo, Consistent;
    EmptyInv();
    RunKeeps(EMPTY, steps);
    var s := Run(EMPTY, steps);
    var i := |s.jobs|;
    var solo := Solo(s.disk, i, items);
    RunConcat(EMPTY, steps, [Start(items)] + solo);
    assert ([Start(items)] + solo)[1..] == solo;
    ApplyKeeps(s, Start(items));
    var u := Apply(s, Start(items));
    assert u.jobs[i].items[0..] == items;
    SoloRuns(u, i);
  }

  lemma ContradictionNeverCompletes(steps: seq<Step>, more: seq<Step>, i: nat, item: Item)
    requires item.path in Run(EMPTY, steps).disk && Run(EMPTY, steps).disk[item.path] != item.payload
    requires i < |Run(EMPTY, steps + more).jobs|
    ensures !Published(Run(EMPTY, steps + more).jobs[i], item)
  {
    hide Run, Apply;
    EmptyInv();
    RunKeeps(EMPTY, steps);
    RunConcat(EMPTY, steps, more);
    RunKeeps(Run(EMPTY, steps), more);
    if Published(Run(EMPTY, steps + more).jobs[i], item) {
      PublishedOnDisk(Run(EMPTY, steps + more), i, item);
    }
  }

  lemma EndedStep(s: State, i: nat, step: Step)
    requires i < |s.jobs| && s.jobs[i].fate != Working
    ensures i < |Apply(s, step).jobs| && Apply(s, step).jobs[i] == s.jobs[i]
  {
  }

  lemma {:induction false} EndedStays(s: State, i: nat, more: seq<Step>)
    requires i < |s.jobs| && s.jobs[i].fate != Working
    ensures i < |Run(s, more).jobs| && Run(s, more).jobs[i] == s.jobs[i]
    decreases |more|
  {
    hide Apply;
    if more != [] {
      EndedStep(s, i, more[0]);
      EndedStays(Apply(s, more[0]), i, more[1..]);
    }
  }

  /** A crash stops a publisher where it stands, for good, and leaves the disk. */
  lemma CrashEnds(s: State, i: nat, more: seq<Step>)
    requires Works(s, i)
    ensures var t := Apply(s, Crash(i));
            && t.disk == s.disk && i < |Run(t, more).jobs|
            && Run(t, more).jobs[i] == Job(s.jobs[i].items, s.jobs[i].at, s.jobs[i].phase, Crashed)
  {
    EndedStays(Apply(s, Crash(i)), i, more);
  }

  /** A publisher that finds other bytes at its path is refused when left alone,
      and the disk is as it was. */
  lemma ContradictionRefused(s: State, i: nat)
    requires Works(s, i) && s.jobs[i].phase == Checking && Current(s, i).path in s.disk
    requires s.disk[Current(s, i).path] != Current(s, i).payload
    ensures var t := Run(s, [Look(i), Compare(i)]);
            && t.disk == s.disk && i < |t.jobs| && t.jobs[i].fate == Refused && t.jobs[i].at == s.jobs[i].at
  {
    RunTwo(s, Look(i), Compare(i));
  }
}
