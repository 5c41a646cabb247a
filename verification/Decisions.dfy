/** The decision store: an idempotency binding first, then the record. */
module Decisions {
  import opened Octets
  import opened Publication

  datatype Kind = Review | Promotion

  /** A review or promotion record: its key, and everything else it says. */
  datatype Decision = Decision(kind: Kind, key: nat, body: Bytes)

  /** The content-bound identity, the binding's bytes and the record's bytes. */
  datatype Codec = Codec(identity: Decision -> nat, binding: Decision -> Bytes, record: Decision -> Bytes)

  /** The identity is a digest of the whole record, and the binding states it. */
  ghost predicate Sound(c: Codec) {
    && (forall a, b :: c.identity(a) == c.identity(b) ==> a == b)
    && forall a, b :: c.binding(a) == c.binding(b) ==> a == b
  }

  function Keys(k: Kind): Space { if k == Review then ReviewKeys else PromotionKeys }

  function Records(k: Kind): Space { if k == Review then Reviews else Promotions }

  function KeyItem(c: Codec, d: Decision): Item { Item(Path(Keys(d.kind), d.key), c.binding(d)) }

  function RecordItem(c: Codec, d: Decision): Item { Item(Path(Records(d.kind), c.identity(d)), c.record(d)) }

  /** What `publish_review` and `publish_receipt` publish, in this order. */
  function ItemsOf(c: Codec, d: Decision): seq<Item> { [KeyItem(c, d), RecordItem(c, d)] }

  /** The store's callers publish decisions this way, or other evidence elsewhere. */
  ghost predicate OrderlyItems(c: Codec, items: seq<Item>) {
    (exists d :: items == ItemsOf(c, d)) || forall item | item in items :: item.path.space == Evidence
  }

  ghost predicate Orderly(c: Codec, steps: seq<Step>) {
    forall n | 0 <= n < |steps| && steps[n].Start? :: OrderlyItems(c, steps[n].items)
  }

  ghost predicate OrderlyJobs(c: Codec, s: State) {
    forall i | 0 <= i < |s.jobs| :: OrderlyItems(c, s.jobs[i].items)
  }

  lemma ApplyOrderly(c: Codec, s: State, step: Step)
    requires OrderlyJobs(c, s) && (step.Start? ==> OrderlyItems(c, step.items))
    ensures OrderlyJobs(c, Apply(s, step))
  {
    hide OrderlyItems;
    var t := Apply(s, step);
    assert forall i | 0 <= i < |s.jobs| :: t.jobs[i].items == s.jobs[i].items;
  }

  lemma {:induction false} RunOrderly(c: Codec, s: State, steps: seq<Step>)
    requires OrderlyJobs(c, s) && Orderly(c, steps)
    ensures OrderlyJobs(c, Run(s, steps))
    decreases |steps|
  {
    hide OrderlyItems, OrderlyJobs, Apply;
    if steps != [] {
      ApplyOrderly(c, s, steps[0]);
      RunOrderly(c, Apply(s, steps[0]), steps[1..]);
    }
  }

  predicate Recorded(c: Codec, d: Disk, x: Decision) { OnDisk(d, RecordItem(c, x)) }

  predicate Bound(c: Codec, d: Disk, x: Decision) { OnDisk(d, KeyItem(c, x)) }

  /** Whatever stands at a record path is that record, and its key is bound to it. */
  lemma RecordsAreBound(c: Codec, s: State, x: Decision)
    requires Sound(c) && Inv(s) && OrderlyJobs(c, s) && RecordItem(c, x).path in s.disk
    ensures Recorded(c, s.disk, x) && Bound(c, s.disk, x)
  {
    hide JobOk;
    var p := RecordItem(c, x).path;
    assert Authored(s, p);
    var i, k :| 0 <= i < |s.jobs| && 0 <= k < s.jobs[i].at && k < |s.jobs[i].items|
                && s.jobs[i].items[k] == Item(p, s.disk[p]);
    var j := s.jobs[i];
    assert OrderlyItems(c, j.items) && j.items[k] in j.items;
    var d :| j.items == ItemsOf(c, d);
    assert k == 1 && c.identity(d) == c.identity(x);
    DoneOnDisk(s.disk, j, 0);
    DoneOnDisk(s.disk, j, 1);
  }

  lemma DoneOnDisk(d: Disk, j: Job, k: nat)
    requires JobOk(d, j) && k < j.at
    ensures OnDisk(d, j.items[k])
  {
  }

  /** In every run, one idempotency key has at most one recorded decision of its
      kind. */
  lemma OneDecisionPerKey(c: Codec, steps: seq<Step>, x: Decision, y: Decision)
    requires Sound(c) && Orderly(c, steps) && x.kind == y.kind && x.key == y.key
    requires Recorded(c, Run(EMPTY, steps).disk, x) && Recorded(c, Run(EMPTY, steps).disk, y)
    ensures x == y
  {
    hide Run, JobOk, Inv, OrderlyJobs, Orderly;
    Reached(c, steps);
    RecordsAreBound(c, Run(EMPTY, steps), x);
    RecordsAreBound(c, Run(EMPTY, steps), y);
  }

  lemma Reached(c: Codec, steps: seq<Step>)
    requires Orderly(c, steps)
    ensures Inv(Run(EMPTY, steps)) && OrderlyJobs(c, Run(EMPTY, steps))
  {
    hide Orderly;
    EmptyInv();
    RunKeeps(EMPTY, steps);
    RunOrderly(c, EMPTY, steps);
  }

  /** After any run, crashes included, a decision can still be published exactly
      when its key is free or already bound to it: if so, the same call left
      alone completes; if not, no call for it ever completes. */
  lemma ReplayIffUnclaimed(c: Codec, steps: seq<Step>, x: Decision)
    requires Sound(c) && Orderly(c, steps)
    ensures var s := Run(EMPTY, steps);
            var free := KeyItem(c, x).path in s.disk ==> Bound(c, s.disk, x);
            && (free ==>
                  var t := Run(EMPTY, steps + ([Start(ItemsOf(c, x))] + Solo(s.disk, |s.jobs|, ItemsOf(c, x))));
                  |s.jobs| < |t.jobs| && t.jobs[|s.jobs|].fate == Completed && t.jobs[|s.jobs|].items == ItemsOf(c, x))
            && (!free ==>
                  forall more, i | 0 <= i < |Run(EMPTY, steps + more).jobs| ::
                    !Published(Run(EMPTY, steps + more).jobs[i], KeyItem(c, x)))
  {
    hide Run, JobOk, Inv, OrderlyJobs, Orderly, Solo, Published;
    Reached(c, steps);
    var s := Run(EMPTY, steps);
    if KeyItem(c, x).path in s.disk ==> Bound(c, s.disk, x) {
      if RecordItem(c, x).path in s.disk { RecordsAreBound(c, s, x); }
      assert Consistent(s.disk, ItemsOf(c, x));
      ReplayCompletes(steps, ItemsOf(c, x));
    } else {
      forall more, i | 0 <= i < |Run(EMPTY, steps + more).jobs|
        ensures !Published(Run(EMPTY, steps + more).jobs[i], KeyItem(c, x))
      {
        ContradictionNeverCompletes(steps, more, i, KeyItem(c, x));
      }
    }
  }
}
