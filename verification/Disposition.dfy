/** `finalize_proposal_dispositions`: one retained proposal for each patch
    identity. Hashes and identities are numbers ordered as the program orders
    them. */
module Disposition {
  import opened Text

  datatype Verdict = Pending | Retained | Duplicate

  datatype Ref = Ref(
    id: nat, hash: nat, normalized: nat, generator: nat, ordinal: nat,
    verdict: Verdict, duplicateOf: Option<nat>)

  /** Plan order: generator, then proposal ordinal, then hash, then identity. */
  predicate Before(a: Ref, b: Ref) {
    a.generator < b.generator || (a.generator == b.generator && (
      a.ordinal < b.ordinal || (a.ordinal == b.ordinal && (
        a.hash < b.hash || (a.hash == b.hash && a.id < b.id)))))
  }

  /** The two sort keys: by patch identity first, or by plan order alone. */
  predicate Less(byPatch: bool, a: Ref, b: Ref) {
    if byPatch then a.normalized < b.normalized || (a.normalized == b.normalized && Before(a, b))
    else Before(a, b)
  }

  function Insert(byPatch: bool, r: Ref, rs: seq<Ref>): seq<Ref> {
    if rs == [] || !Less(byPatch, rs[0], r) then [r] + rs else [rs[0]] + Insert(byPatch, r, rs[1..])
  }

  /** Python's stable `sorted`. */
  function Sort(byPatch: bool, rs: seq<Ref>): seq<Ref> {
    if rs == [] then [] else Insert(byPatch, rs[0], Sort(byPatch, rs[1..]))
  }

  function Keep(r: Ref): Ref { r.(verdict := Retained, duplicateOf := None) }

  function Repeat(r: Ref, leader: nat): Ref { r.(verdict := Duplicate, duplicateOf := Some(leader)) }

  function Assign(ordered: seq<Ref>, kept: map<nat, nat>): seq<Ref> {
    if ordered == [] then []
    else
      var r := ordered[0];
      if r.normalized in kept then [Repeat(r, kept[r.normalized])] + Assign(ordered[1..], kept)
      else [Keep(r)] + Assign(ordered[1..], kept[r.normalized := r.id])
  }

  function Finalize(proposals: seq<Ref>): seq<Ref> { Sort(false, Assign(Sort(true, proposals), map[])) }

  method FinalizeProposalDispositions(proposals: seq<Ref>) returns (result: seq<Ref>)
    ensures result == Finalize(proposals)
  {
    hide Sort;
    var ordered := Sort(true, proposals);
    var kept: map<nat, nat> := map[];
    var finalized: seq<Ref> := [];
    for i := 0 to |ordered|
      invariant finalized + Assign(ordered[i..], kept) == Assign(ordered, map[])
    {
      var r := ordered[i];
      ghost var rest := ordered[i + 1..];
      assert ordered[i..][0] == r && ordered[i..][1..] == rest;
      if r.normalized in kept {
        Assoc(finalized, [Repeat(r, kept[r.normalized])], Assign(rest, kept));
        finalized := finalized + [Repeat(r, kept[r.normalized])];
      } else {
        Assoc(finalized, [Keep(r)], Assign(rest, kept[r.normalized := r.id]));
        kept := kept[r.normalized := r.id];
        finalized := finalized + [Keep(r)];
      }
    }
    assert finalized + [] == finalized;
    result := Sort(false, finalized);
  }

  // ---------- Sorting

  predicate DistinctIds(rs: seq<Ref>) { forall i, j | 0 <= i < j < |rs| :: rs[i].id != rs[j].id }

  predicate Sorted(byPatch: bool, rs: seq<Ref>) {
    forall i, j | 0 <= i < j < |rs| :: Less(byPatch, rs[i], rs[j])
  }

  lemma LessOrder(byPatch: bool, a: Ref, b: Ref, c: Ref)
    ensures a.id != b.id ==> Less(byPatch, a, b) || Less(byPatch, b, a)
    ensures !(Less(byPatch, a, b) && Less(byPatch, b, a))
    ensures Less(byPatch, a, b) && Less(byPatch, b, c) ==> Less(byPatch, a, c)
  {
  }

  lemma {:induction false} InsertMembers(byPatch: bool, r: Ref, rs: seq<Ref>)
    ensures multiset(Insert(byPatch, r, rs)) == multiset(rs) + multiset{r}
  {
    hide Less;
    if rs != [] {
      assert rs == [rs[0]] + rs[1..];
      InsertMembers(byPatch, r, rs[1..]);
    }
  }

  lemma {:induction false} SortMembers(byPatch: bool, rs: seq<Ref>)
    ensures multiset(Sort(byPatch, rs)) == multiset(rs)
  {
    hide Insert;
    if rs != [] {
      assert rs == [rs[0]] + rs[1..];
      SortMembers(byPatch, rs[1..]);
      InsertMembers(byPatch, rs[0], Sort(byPatch, rs[1..]));
    }
  }

  lemma SortedCons(byPatch: bool, r: Ref, rs: seq<Ref>)
    requires Sorted(byPatch, rs) && forall x | x in rs :: Less(byPatch, r, x)
    ensures Sorted(byPatch, [r] + rs)
  {
    hide Less;
  }

  lemma SortedTail(byPatch: bool, rs: seq<Ref>)
    requires Sorted(byPatch, rs) && rs != []
    ensures Sorted(byPatch, rs[1..]) && forall x | x in rs[1..] :: Less(byPatch, rs[0], x)
  {
    hide Less;
    var rest := rs[1..];
    assert forall i | 0 <= i < |rest| :: rest[i] == rs[i + 1];
  }

  lemma {:induction false} InsertSorted(byPatch: bool, r: Ref, rs: seq<Ref>)
    requires Sorted(byPatch, rs) && forall x | x in rs :: x.id != r.id
    ensures Sorted(byPatch, Insert(byPatch, r, rs))
  {
    hide Less, Sorted;
    if rs == [] {
      OneSorted(byPatch, r);
      assert [r] + rs == [r];
    } else {
      SortedTail(byPatch, rs);
      assert rs == [rs[0]] + rs[1..];
      LessOrder(byPatch, rs[0], r, r);
      if Less(byPatch, rs[0], r) {
        InsertSorted(byPatch, r, rs[1..]);
        InsertMembers(byPatch, r, rs[1..]);
        forall x | x in Insert(byPatch, r, rs[1..]) ensures Less(byPatch, rs[0], x) {
          assert x in multiset(rs[1..]) + multiset{r};
        }
        SortedCons(byPatch, rs[0], Insert(byPatch, r, rs[1..]));
      } else {
        forall x | x in rs ensures Less(byPatch, r, x) { LessOrder(byPatch, r, rs[0], x); }
        SortedCons(byPatch, r, rs);
      }
    }
  }

  lemma OneSorted(byPatch: bool, r: Ref)
    ensures Sorted(byPatch, [r])
  {
  }

  lemma DistinctTail(rs: seq<Ref>)
    requires DistinctIds(rs) && rs != []
    ensures DistinctIds(rs[1..]) && forall x | x in rs[1..] :: x.id != rs[0].id
  {
    var rest := rs[1..];
    assert forall i | 0 <= i < |rest| :: rest[i] == rs[i + 1];
  }

  lemma {:induction false} SortSorted(byPatch: bool, rs: seq<Ref>)
    requires DistinctIds(rs)
    ensures Sorted(byPatch, Sort(byPatch, rs))
  {
    hide Less, Sorted, Insert, DistinctIds;
    if rs == [] {
      NoneSorted(byPatch);
    } else {
      DistinctTail(rs);
      SortSorted(byPatch, rs[1..]);
      SortMembers(byPatch, rs[1..]);
      forall x | x in Sort(byPatch, rs[1..]) ensures x.id != rs[0].id { assert x in multiset(rs[1..]); }
      InsertSorted(byPatch, rs[0], Sort(byPatch, rs[1..]));
    }
  }

  lemma NoneSorted(byPatch: bool)
    ensures Sorted(byPatch, [])
  {
  }

  ghost predicate SameMembers(a: seq<Ref>, b: seq<Ref>) { forall x :: x in a <==> x in b }

  lemma NoMembers(a: seq<Ref>, b: seq<Ref>)
    requires SameMembers(a, b) && (a == [] || b == [])
    ensures a == b
  {
    Empty(a);
    Empty(b);
  }

  lemma Empty(a: seq<Ref>)
    ensures a == [] || exists x :: x in a
  {
    assert a != [] ==> a[0] in a;
  }

  /** A strictly sorted sequence is determined by its members. */
  lemma {:induction false} SortedUnique(byPatch: bool, a: seq<Ref>, b: seq<Ref>)
    requires Sorted(byPatch, a) && Sorted(byPatch, b) && SameMembers(a, b)
    ensures a == b
  {
    hide Less, Sorted;
    if a == [] || b == [] {
      NoMembers(a, b);
    } else {
      SortedTail(byPatch, a);
      SortedTail(byPatch, b);
      assert a == [a[0]] + a[1..] && b == [b[0]] + b[1..];
      assert a[0] in b && b[0] in a;
      LessOrder(byPatch, a[0], b[0], a[0]);
      forall x ensures x in a[1..] <==> x in b[1..] {
        LessOrder(byPatch, a[0], x, x);
        assert x in a <==> x in b;
      }
      SortedUnique(byPatch, a[1..], b[1..]);
    }
  }

  // ---------- The leader of a group

  /** `l` comes first in plan order among the proposals with patch identity `h`. */
  predicate Leads(l: Ref, rs: seq<Ref>, h: nat) {
    l in rs && l.normalized == h && forall x | x in rs && x.normalized == h :: x == l || Before(l, x)
  }

  function Leader(rs: seq<Ref>, h: nat): Option<Ref> {
    if rs == [] then None
    else
      var t := Leader(rs[1..], h);
      if rs[0].normalized != h then t
      else if t.None? || Before(rs[0], t.value) then Some(rs[0])
      else t
  }

  lemma {:induction false} LeaderNone(rs: seq<Ref>, h: nat)
    ensures Leader(rs, h).None? <==> forall x | x in rs :: x.normalized != h
  {
    hide Before;
    if rs != [] {
      LeaderNone(rs[1..], h);
      assert rs == [rs[0]] + rs[1..];
    }
  }

  lemma {:induction false} LeaderLeads(rs: seq<Ref>, h: nat)
    requires DistinctIds(rs)
    ensures Leader(rs, h).Some? ==> Leads(Leader(rs, h).value, rs, h)
  {
    hide Before, DistinctIds;
    if rs != [] {
      DistinctTail(rs);
      LeaderLeads(rs[1..], h);
      LeaderNone(rs[1..], h);
      assert rs == [rs[0]] + rs[1..];
      var t := Leader(rs[1..], h);
      if rs[0].normalized == h && t.Some? {
        LessOrder(false, rs[0], t.value, t.value);
        forall x | x in rs && x.normalized == h && Before(rs[0], t.value) ensures x == rs[0] || Before(rs[0], x) {
          LessOrder(false, rs[0], t.value, x);
        }
      }
    }
  }

  lemma LeadsUnique(l: Ref, m: Ref, rs: seq<Ref>, h: nat)
    requires Leads(l, rs, h) && Leads(m, rs, h)
    ensures l == m
  {
    LessOrder(false, l, m, l);
  }

  /** What the leader decides for every proposal: the reference definition. */
  function Settle(r: Ref, rs: seq<Ref>): Ref {
    var l := Leader(rs, r.normalized);
    if l == Some(r) || l.None? then Keep(r) else Repeat(r, l.value.id)
  }

  function SettleAll(ordered: seq<Ref>, rs: seq<Ref>): (s: seq<Ref>)
    ensures |s| == |ordered| && forall i | 0 <= i < |s| :: s[i] == Settle(ordered[i], rs)
  {
    if ordered == [] then [] else [Settle(ordered[0], rs)] + SettleAll(ordered[1..], rs)
  }

  /** The dictionary built so far holds the leader of every group already met. */
  predicate Knows(kept: map<nat, nat>, done: seq<Ref>, all: seq<Ref>) {
    && (forall h | h in kept :: (exists x :: x in done && x.normalized == h) && Leader(all, h).Some?
                                && kept[h] == Leader(all, h).value.id)
    && forall x | x in done :: x.normalized in kept
  }

  lemma {:induction false} AssignSettles(done: seq<Ref>, ordered: seq<Ref>, kept: map<nat, nat>)
    requires Sorted(true, done + ordered) && DistinctIds(done + ordered) && Knows(kept, done, done + ordered)
    ensures Assign(ordered, kept) == SettleAll(ordered, done + ordered)
    decreases |ordered|
  {
    hide Sorted, DistinctIds, Knows, Less, Before, Leader, Settle, Keep, Repeat, Leads;
    if ordered != [] {
      var all, r := done + ordered, ordered[0];
      var more := done + [r];
      assert more + ordered[1..] == all;
      if r.normalized in kept {
        MetGroup(done, ordered, kept);
        AssignSettles(more, ordered[1..], kept);
      } else {
        NewGroup(done, ordered, kept);
        AssignSettles(more, ordered[1..], kept[r.normalized := r.id]);
      }
    }
  }

  lemma MetGroup(done: seq<Ref>, ordered: seq<Ref>, kept: map<nat, nat>)
    requires ordered != [] && ordered[0].normalized in kept
    requires Sorted(true, done + ordered) && DistinctIds(done + ordered) && Knows(kept, done, done + ordered)
    ensures Settle(ordered[0], done + ordered) == Repeat(ordered[0], kept[ordered[0].normalized])
    ensures Knows(kept, done + [ordered[0]], done + ordered)
  {
    hide Before, Leader, DistinctIds, Sorted;
    var all, r := done + ordered, ordered[0];
    LeaderLeads(all, r.normalized);
    var x :| x in done && x.normalized == r.normalized;
    SortedPair(done, ordered, x);
    LessOrder(false, x, r, x);
    assert x in all;
  }

  lemma SortedPair(done: seq<Ref>, ordered: seq<Ref>, x: Ref)
    requires Sorted(true, done + ordered) && ordered != [] && x in done
    ensures Less(true, x, ordered[0])
  {
    hide Less;
    var all := done + ordered;
    var i :| 0 <= i < |done| && done[i] == x;
    assert all[i] == x && all[|done|] == ordered[0];
  }

  lemma NewGroup(done: seq<Ref>, ordered: seq<Ref>, kept: map<nat, nat>)
    requires ordered != [] && ordered[0].normalized !in kept
    requires Sorted(true, done + ordered) && DistinctIds(done + ordered) && Knows(kept, done, done + ordered)
    ensures Settle(ordered[0], done + ordered) == Keep(ordered[0])
    ensures Knows(kept[ordered[0].normalized := ordered[0].id], done + [ordered[0]], done + ordered)
  {
    hide Before, Leader, DistinctIds, Sorted;
    var all, r := done + ordered, ordered[0];
    assert all[|done|] == r;
    LeaderLeads(all, r.normalized);
    LeaderNone(all, r.normalized);
    SortedSuffix(done, ordered);
    forall x | x in all && x.normalized == r.normalized ensures x == r || Before(r, x) {
      assert x !in done;
      assert x in ordered && ordered == [r] + ordered[1..];
    }
    assert Leads(r, all, r.normalized);
    LeadsUnique(r, Leader(all, r.normalized).value, all, r.normalized);
    assert r in done + [r];
  }

  lemma SortedSuffix(done: seq<Ref>, ordered: seq<Ref>)
    requires Sorted(true, done + ordered) && ordered != []
    ensures forall x | x in ordered[1..] :: Less(true, ordered[0], x)
  {
    hide Less;
    var all := done + ordered;
    forall x | x in ordered[1..] ensures Less(true, ordered[0], x) {
      var i :| 0 <= i < |ordered[1..]| && ordered[1..][i] == x;
      assert all[|done|] == ordered[0] && all[|done| + i + 1] == x;
    }
  }

  // ---------- The outcome, by its members

  lemma SameIdSame(rs: seq<Ref>, x: Ref, y: Ref)
    requires DistinctIds(rs) && x in rs && y in rs && x.id == y.id
    ensures x == y
  {
  }

  lemma DistinctSorted(byPatch: bool, a: seq<Ref>, b: seq<Ref>)
    requires DistinctIds(a) && Sorted(byPatch, b) && SameMembers(a, b)
    ensures DistinctIds(b)
  {
    hide Less;
    forall i, j | 0 <= i < j < |b| ensures b[i].id != b[j].id {
      assert b[i] in a && b[j] in a;
      if b[i].id == b[j].id { SameIdSame(a, b[i], b[j]); }
      LessOrder(byPatch, b[i], b[j], b[i]);
    }
  }

  lemma LeaderReordered(a: seq<Ref>, b: seq<Ref>)
    requires DistinctIds(a) && DistinctIds(b) && SameMembers(a, b)
    ensures forall h :: Leader(a, h) == Leader(b, h)
    ensures forall r :: Settle(r, a) == Settle(r, b)
  {
    hide Leader, Before, DistinctIds;
    forall h ensures Leader(a, h) == Leader(b, h) {
      LeaderNone(a, h);
      LeaderNone(b, h);
      LeaderLeads(a, h);
      LeaderLeads(b, h);
      if Leader(a, h).Some? {
        assert Leader(b, h).Some?;
        LeadsUnique(Leader(a, h).value, Leader(b, h).value, a, h);
      }
    }
  }

  lemma SettledDistinct(ordered: seq<Ref>)
    requires DistinctIds(ordered)
    ensures DistinctIds(SettleAll(ordered, ordered))
  {
    hide Leader;
    var s := SettleAll(ordered, ordered);
    assert forall i | 0 <= i < |s| :: s[i].id == ordered[i].id;
  }

  lemma SettledMembers(ordered: seq<Ref>, rs: seq<Ref>)
    requires SameMembers(ordered, rs) && forall r :: Settle(r, ordered) == Settle(r, rs)
    ensures forall x :: x in SettleAll(ordered, ordered) <==> exists r :: r in rs && x == Settle(r, rs)
  {
    hide Settle;
    var s := SettleAll(ordered, ordered);
    forall x | x in s ensures exists r :: r in rs && x == Settle(r, rs) {
      var i :| 0 <= i < |s| && s[i] == x;
      assert ordered[i] in rs;
    }
    forall r | r in rs ensures Settle(r, rs) in s {
      assert r in ordered;
      var i :| 0 <= i < |ordered| && ordered[i] == r;
      assert s[i] == Settle(r, rs);
    }
  }

  /** The outcome is sorted in plan order and holds each proposal once, settled
      by the leader of its group. */
  lemma FinalizeMembers(rs: seq<Ref>)
    requires DistinctIds(rs)
    ensures Sorted(false, Finalize(rs)) && DistinctIds(Finalize(rs))
    ensures forall x :: x in Finalize(rs) <==> exists r :: r in rs && x == Settle(r, rs)
    ensures |Finalize(rs)| == |rs|
  {
    hide Sort, Sorted, Assign, SettleAll, Settle, Leader, DistinctIds;
    var ordered := Sort(true, rs);
    SortSorted(true, rs);
    SortMembers(true, rs);
    MultisetSame(ordered, rs);
    DistinctSorted(true, rs, ordered);
    LeaderReordered(ordered, rs);
    NothingKnown(ordered);
    assert [] + ordered == ordered;
    AssignSettles([], ordered, map[]);
    var settled := SettleAll(ordered, ordered);
    SettledDistinct(ordered);
    SortSorted(false, settled);
    SortMembers(false, settled);
    MultisetSame(Sort(false, settled), settled);
    DistinctSorted(false, settled, Sort(false, settled));
    SettledMembers(ordered, rs);
  }

  lemma MultisetSame(a: seq<Ref>, b: seq<Ref>)
    requires multiset(a) == multiset(b)
    ensures SameMembers(a, b) && |a| == |b|
  {
    forall x ensures x in a <==> x in b { assert x in multiset(a) <==> x in multiset(b); }
    assert |multiset(a)| == |a| && |multiset(b)| == |b|;
  }

  lemma NothingKnown(all: seq<Ref>)
    ensures Knows(map[], [], all)
  {
  }

  // ---------- What the outcome promises

  /** Every permutation of the input gives the same output. */
  lemma OrderIndependent(a: seq<Ref>, b: seq<Ref>)
    requires DistinctIds(a) && DistinctIds(b) && SameMembers(a, b)
    ensures Finalize(a) == Finalize(b)
  {
    hide Finalize, Sorted, DistinctIds, Settle, Leader;
    FinalizeMembers(a);
    FinalizeMembers(b);
    LeaderReordered(a, b);
    forall x ensures x in Finalize(a) <==> x in Finalize(b) {
      assert forall r :: r in a && x == Settle(r, a) <==> r in b && x == Settle(r, b);
    }
    SortedUnique(false, Finalize(a), Finalize(b));
  }

  predicate KeptFor(x: Ref, out: seq<Ref>, h: nat) { x in out && x.verdict == Retained && x.normalized == h }

  /** A proposal is either the retained one of its group, or comes after it in
      plan order and points straight at it. */
  predicate Resolved(r: Ref, x: Ref) {
    r == x || (Before(x, r) && r.verdict == Duplicate && r.duplicateOf == Some(x.id) && r.id != x.id)
  }

  lemma LeaderSettled(rs: seq<Ref>, r: Ref)
    requires DistinctIds(rs) && r in rs
    ensures Leader(rs, r.normalized).Some?
    ensures var l := Leader(rs, r.normalized).value;
            && Leads(l, rs, r.normalized) && Settle(l, rs) == Keep(l) && Resolved(Settle(r, rs), Keep(l))
  {
    hide Leader, DistinctIds;
    LeaderNone(rs, r.normalized);
    LeaderLeads(rs, r.normalized);
    var l := Leader(rs, r.normalized).value;
    if r.id == l.id { SameIdSame(rs, r, l); }
  }

  /** Each patch identity keeps exactly one proposal, the least in plan order;
      every other one points directly at it and never at itself. */
  lemma OneRetainedEach(rs: seq<Ref>)
    requires DistinctIds(rs)
    ensures forall r | r in Finalize(rs) :: exists x :: KeptFor(x, Finalize(rs), r.normalized) && Resolved(r, x)
    ensures forall x, y, h | KeptFor(x, Finalize(rs), h) && KeptFor(y, Finalize(rs), h) :: x == y
  {
    hide Finalize, Sorted, DistinctIds, Settle, Leader, Leads, Before;
    FinalizeMembers(rs);
    var out := Finalize(rs);
    forall r | r in out ensures exists x :: KeptFor(x, out, r.normalized) && Resolved(r, x) {
      var p :| p in rs && r == Settle(p, rs);
      SettledGroup(rs, p);
      assert KeptFor(Keep(Leader(rs, p.normalized).value), out, r.normalized);
    }
    forall x, y, h | KeptFor(x, out, h) && KeptFor(y, out, h) ensures x == y {
      var p :| p in rs && x == Settle(p, rs);
      var q :| q in rs && y == Settle(q, rs);
      SettledGroup(rs, p);
      SettledGroup(rs, q);
    }
  }

  lemma SettledGroup(rs: seq<Ref>, p: Ref)
    requires DistinctIds(rs) && p in rs
    ensures Leader(rs, p.normalized).Some?
    ensures var l := Leader(rs, p.normalized).value;
            && l in rs && l.normalized == p.normalized && Settle(l, rs) == Keep(l)
            && Resolved(Settle(p, rs), Keep(l)) && Settle(p, rs).normalized == p.normalized
            && (Settle(p, rs).verdict == Retained ==> Settle(p, rs) == Keep(l))
  {
    hide DistinctIds;
    LeaderSettled(rs, p);
  }

  /** What settled the duplicate `r`: the proposal it comes from, and the
      retained one of the same group that it points at. */
  predicate SettledBy(rs: seq<Ref>, r: Ref, p: Ref, l: Ref) {
    && p in rs && p.id == r.id && p.normalized == r.normalized
    && l in rs && l.normalized == r.normalized && r.duplicateOf == Some(l.id) && l.id != r.id
    && KeptFor(Keep(l), Finalize(rs), r.normalized)
  }

  /** A duplicate comes from one proposal, points at another of the same group,
      and that one is retained. */
  lemma DuplicateSource(rs: seq<Ref>, r: Ref)
    requires DistinctIds(rs) && r in Finalize(rs) && r.verdict == Duplicate
    ensures exists p, l :: SettledBy(rs, r, p, l)
  {
    hide Finalize, Sorted, DistinctIds, Settle, Leader, Leads, Before;
    FinalizeMembers(rs);
    var p :| p in rs && r == Settle(p, rs);
    SettledGroup(rs, p);
    SettledId(rs, p);
    assert SettledBy(rs, r, p, Leader(rs, p.normalized).value);
  }

  lemma SettledId(rs: seq<Ref>, p: Ref)
    ensures Settle(p, rs).id == p.id
  {
    hide Leader;
  }

  lemma SettleAgain(rs: seq<Ref>, out: seq<Ref>, r: Ref)
    requires DistinctIds(rs) && DistinctIds(out) && r in rs
    requires forall x :: x in out <==> exists p :: p in rs && x == Settle(p, rs)
    ensures Settle(Settle(r, rs), out) == Settle(r, rs)
  {
    hide DistinctIds, Leader, Sorted;
    LeaderSettled(rs, r);
    var h, l := r.normalized, Leader(rs, r.normalized).value;
    assert Keep(l) in out;
    forall x | x in out && x.normalized == h ensures x == Keep(l) || Before(Keep(l), x) {
      var p :| p in rs && x == Settle(p, rs);
      LeaderSettled(rs, p);
    }
    assert Leads(Keep(l), out, h);
    LeaderNone(out, h);
    LeaderLeads(out, h);
    LeadsUnique(Keep(l), Leader(out, h).value, out, h);
  }

  /** Running the finalization again changes nothing. */
  lemma FinalizeIdempotent(rs: seq<Ref>)
    requires DistinctIds(rs)
    ensures Finalize(Finalize(rs)) == Finalize(rs)
  {
    hide Finalize, Sorted, DistinctIds, Settle, Leader, Leads, Before;
    FinalizeMembers(rs);
    var out := Finalize(rs);
    FinalizeMembers(out);
    forall x ensures x in Finalize(out) <==> x in out {
      if x in Finalize(out) {
        var y :| y in out && x == Settle(y, out);
        var r :| r in rs && y == Settle(r, rs);
        SettleAgain(rs, out, r);
      }
      if x in out {
        var r :| r in rs && x == Settle(r, rs);
        SettleAgain(rs, out, r);
      }
    }
    SortedUnique(false, Finalize(out), out);
  }

  // ---------- How many are retained

  lemma {:induction false} AssignLength(ordered: seq<Ref>, kept: map<nat, nat>)
    ensures |Assign(ordered, kept)| == |ordered|
  {
    if ordered != [] {
      AssignLength(ordered[1..], if ordered[0].normalized in kept then kept
                                 else kept[ordered[0].normalized := ordered[0].id]);
    }
  }

  lemma FinalizeLength(rs: seq<Ref>)
    ensures |Finalize(rs)| == |rs|
  {
    hide Sort, Assign;
    SortMembers(true, rs);
    MultisetSame(Sort(true, rs), rs);
    AssignLength(Sort(true, rs), map[]);
    SortMembers(false, Assign(Sort(true, rs), map[]));
    MultisetSame(Finalize(rs), Assign(Sort(true, rs), map[]));
  }

  lemma {:induction false} RetainedCountBound(rs: seq<Ref>)
    ensures RetainedCount(rs) <= |rs|
  {
    if rs != [] { RetainedCountBound(rs[1..]); }
  }

  function RetainedCount(rs: seq<Ref>): nat {
    if rs == [] then 0 else (if rs[0].verdict == Retained then 1 else 0) + RetainedCount(rs[1..])
  }

  function Hashes(rs: seq<Ref>): set<nat> { set r | r in rs :: r.normalized }

  lemma {:induction false} InsertCount(byPatch: bool, r: Ref, rs: seq<Ref>)
    ensures RetainedCount(Insert(byPatch, r, rs)) == RetainedCount([r] + rs)
  {
    hide Less;
    assert ([r] + rs)[1..] == rs;
    if rs != [] {
      InsertCount(byPatch, r, rs[1..]);
      assert ([r] + rs[1..])[1..] == rs[1..];
    }
  }

  lemma {:induction false} SortCount(byPatch: bool, rs: seq<Ref>)
    ensures RetainedCount(Sort(byPatch, rs)) == RetainedCount(rs)
  {
    hide Insert;
    if rs != [] {
      SortCount(byPatch, rs[1..]);
      var sorted := Sort(byPatch, rs[1..]);
      InsertCount(byPatch, rs[0], sorted);
      assert ([rs[0]] + sorted)[1..] == sorted;
    }
  }

  lemma HashesCons(r: Ref, rest: seq<Ref>)
    ensures Hashes([r] + rest) == {r.normalized} + Hashes(rest)
  {
  }

  lemma CountMet(h: nat, rest: set<nat>, keys: set<nat>)
    requires h in keys
    ensures |({h} + rest) - keys| == |rest - keys|
  {
    assert ({h} + rest) - keys == rest - keys;
  }

  lemma CountNew(h: nat, rest: set<nat>, keys: set<nat>)
    requires h !in keys
    ensures |({h} + rest) - keys| == 1 + |rest - (keys + {h})|
  {
    assert ({h} + rest) - keys == {h} + (rest - (keys + {h}));
  }

  lemma CountNone(kept: map<nat, nat>)
    ensures RetainedCount(Assign([], kept)) == |Hashes([]) - kept.Keys|
  {
    assert Hashes([]) - kept.Keys == {};
  }

  lemma CountStep(r: Ref, rest: seq<Ref>, kept: map<nat, nat>)
    ensures RetainedCount(Assign([r] + rest, kept)) ==
              if r.normalized in kept then RetainedCount(Assign(rest, kept))
              else 1 + RetainedCount(Assign(rest, kept[r.normalized := r.id]))
  {
    assert ([r] + rest)[1..] == rest;
    if r.normalized in kept {
      PeelCount(Repeat(r, kept[r.normalized]), Assign(rest, kept));
    } else {
      PeelCount(Keep(r), Assign(rest, kept[r.normalized := r.id]));
    }
  }

  lemma {:induction false} AssignCount(ordered: seq<Ref>, kept: map<nat, nat>)
    ensures RetainedCount(Assign(ordered, kept)) == |Hashes(ordered) - kept.Keys|
  {
    hide *;
    if ordered == [] {
      CountNone(kept);
    } else {
      var r, rest := ordered[0], ordered[1..];
      assert ordered == [r] + rest;
      HashesCons(r, rest);
      CountStep(r, rest, kept);
      if r.normalized in kept {
        AssignCount(rest, kept);
        CountMet(r.normalized, Hashes(rest), kept.Keys);
      } else {
        var more := kept[r.normalized := r.id];
        AssignCount(rest, more);
        CountNew(r.normalized, Hashes(rest), kept.Keys);
        KeysMore(kept, r.normalized, r.id);
      }
    }
  }

  lemma KeysMore(kept: map<nat, nat>, k: nat, v: nat)
    ensures kept[k := v].Keys == kept.Keys + {k}
  {
  }

  lemma PeelCount(r: Ref, rest: seq<Ref>)
    ensures RetainedCount([r] + rest) == (if r.verdict == Retained then 1 else 0) + RetainedCount(rest)
  {
    assert ([r] + rest)[1..] == rest;
  }

  /** As many proposals are retained as there are different patch identities. */
  lemma RetainedCountIsHashes(rs: seq<Ref>)
    ensures RetainedCount(Finalize(rs)) == |Hashes(rs)|
  {
    hide Sort, Assign, RetainedCount;
    var ordered := Sort(true, rs);
    SortMembers(true, rs);
    MultisetSame(ordered, rs);
    var none: map<nat, nat> := map[];
    AssignCount(ordered, none);
    SortCount(false, Assign(ordered, map[]));
    assert Hashes(ordered) - none.Keys == Hashes(rs);
  }

  // ---------- plan order, spelled out

  /** What plan order compares, the most significant part first. */
  function Rank(r: Ref): (k: seq<nat>)
    ensures |k| == 4
  {
    [r.generator, r.ordinal, r.hash, r.id]
  }

  /** The first difference decides. */
  ghost predicate Precedes(a: seq<nat>, b: seq<nat>) {
    exists k :: 0 <= k < |a| && k < |b| && a[k] < b[k] && a[..k] == b[..k]
  }

  lemma PrecedesAt(a: seq<nat>, b: seq<nat>, k: nat)
    requires k < |a| && k < |b| && a[k] < b[k] && forall j | 0 <= j < k :: a[j] == b[j]
    ensures Precedes(a, b)
  {
    assert a[..k] == b[..k];
  }

  lemma BeforeIs(a: Ref, b: Ref)
    ensures Before(a, b) <==> Precedes(Rank(a), Rank(b))
  {
    var x, y := Rank(a), Rank(b);
    if Before(a, b) {
      PrecedesAt(x, y, if x[0] < y[0] then 0 else if x[1] < y[1] then 1 else if x[2] < y[2] then 2 else 3);
    }
    if Precedes(x, y) {
      var k :| 0 <= k < |x| && k < |y| && x[k] < y[k] && x[..k] == y[..k];
      forall j | 0 <= j < k ensures x[j] == y[j] { assert x[..k][j] == y[..k][j]; }
      assert k == 0 || x[0] == y[0];
      assert k <= 1 || x[1] == y[1];
      assert k <= 2 || x[2] == y[2];
    }
  }

  /** The outcome stands in plan order, and what is retained comes before all
      that it stands for. */
  lemma FinalOrder(rs: seq<Ref>)
    requires DistinctIds(rs)
    ensures var out := Finalize(rs);
            && (forall i, j | 0 <= i < j < |out| :: Precedes(Rank(out[i]), Rank(out[j])))
            && forall x, y | x in out && y in out && y.verdict == Duplicate && y.duplicateOf == Some(x.id) ::
                 x.normalized == y.normalized && Precedes(Rank(x), Rank(y))
  {
    hide Finalize, DistinctIds, Before, KeptFor, Rank, Precedes;
    FinalizeMembers(rs);
    OneRetainedEach(rs);
    var out := Finalize(rs);
    forall i, j | 0 <= i < j < |out| ensures Precedes(Rank(out[i]), Rank(out[j])) { BeforeIs(out[i], out[j]); }
    forall x, y | x in out && y in out && y.verdict == Duplicate && y.duplicateOf == Some(x.id)
      ensures x.normalized == y.normalized && Precedes(Rank(x), Rank(y))
    {
      var z :| KeptFor(z, out, y.normalized) && Resolved(y, z);
      KeptParts(z, out, y.normalized);
      SameIdSame(out, x, z);
      BeforeIs(z, y);
    }
  }

  lemma KeptParts(x: Ref, rs: seq<Ref>, h: nat)
    requires KeptFor(x, rs, h)
    ensures x in rs && x.normalized == h && x.verdict == Retained
  {
  }
}
