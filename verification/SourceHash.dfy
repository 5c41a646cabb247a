/** The stream is injective on trees and blind to listing order; the hashing
    walk produces it. */
module SourceHash {
  import opened Octets
  import opened SourceTree

  // ---------- Meaning of listings

  lemma {:induction false} DenoteAt(es: seq<Entry>)
    requires Distinct(es)
    ensures forall e | e in es :: e.name in Denote(es) && Denote(es)[e.name] == DenoteNode(e.node)
    ensures forall n | n in Denote(es) :: exists e :: e in es && e.name == n
  {
    if es != [] {
      var rest := es[1..];
      DenoteAt(rest);
      forall e | e in es ensures e.name in Denote(es) && Denote(es)[e.name] == DenoteNode(e.node) {
        var i :| 0 <= i < |es| && es[i] == e;
        if i > 0 { assert rest[i - 1] == e; assert es[0].name != es[i].name; }
      }
      forall n | n in Denote(es) ensures exists e :: e in es && e.name == n {
        if n == es[0].name {
          assert es[0] in es;
        } else {
          var e :| e in rest && e.name == n;
          assert e in es;
        }
      }
    }
  }

  /** Listing order does not matter. */
  lemma DenoteReordered(a: seq<Entry>, b: seq<Entry>)
    requires Distinct(a) && Distinct(b) && multiset(a) == multiset(b)
    ensures Denote(a) == Denote(b)
  {
    hide Denote, DenoteNode;
    DenoteAt(a);
    DenoteAt(b);
    assert forall e :: e in a <==> e in b by {
      forall e ensures e in a <==> e in b { assert e in multiset(a) <==> e in multiset(b); }
    }
    forall n | n in Denote(a) ensures n in Denote(b) && Denote(b)[n] == Denote(a)[n] {
      var e :| e in a && e.name == n;
      assert e in b;
    }
    forall n | n in Denote(b) ensures n in Denote(a) {
      var e :| e in b && e.name == n;
      assert e in a;
    }
  }

  lemma OrderedDistinct(es: seq<Entry>)
    requires Ordered(es)
    ensures Distinct(es)
  {
    forall i, j | 0 <= i < j < |es| ensures es[i].name != es[j].name {
      LexTotal(es[i].name, es[j].name);
    }
  }

  lemma {:induction false} CanonicalMeaning(es: seq<Entry>)
    requires ValidTree(es)
    ensures Denote(Canonical(es)) == Denote(es) && CanonicalTree(Canonical(es))
    decreases es, 1
  {
    hide Denote, DenoteNode;
    var each := CanonicalEach(es);
    CanonicalEachMeaning(es);
    SortMembers(each);
    SortOrdered(each);
    OrderedDistinct(Sort(each));
    DenoteReordered(Sort(each), each);
    SoundMembers(each, Sort(each));
  }

  predicate Sound(e: Entry) {
    && e.name != [] && SLASH !in e.name
    && (e.node.Directory? ==> CanonicalTree(e.node.entries))
  }

  lemma SoundMembers(each: seq<Entry>, sorted: seq<Entry>)
    requires (forall e | e in each :: Sound(e)) && multiset(sorted) == multiset(each) && Ordered(sorted)
    ensures CanonicalTree(sorted)
  {
    forall e | e in sorted ensures Sound(e) {
      assert e in multiset(each);
    }
  }

  lemma ValidTail(es: seq<Entry>)
    requires ValidTree(es) && es != []
    ensures ValidEntry(es[0]) && ValidTree(es[1..])
  {
    assert es[0] in es && forall e | e in es[1..] :: e in es;
    assert forall i | 0 <= i < |es[1..]| :: es[1..][i] == es[i + 1];
  }

  lemma {:induction false} CanonicalEachMeaning(es: seq<Entry>)
    requires ValidTree(es)
    ensures Denote(CanonicalEach(es)) == Denote(es) && Distinct(CanonicalEach(es))
    ensures forall e | e in CanonicalEach(es) :: Sound(e)
    decreases es, 0
  {
    hide Sound, CanonicalTree, ValidEntry, Canonical;
    if es != [] {
      ValidTail(es);
      CanonicalEachMeaning(es[1..]);
      CanonicalEntryMeaning(es[0]);
      DenoteCons(CanonicalEntry(es[0]), CanonicalEach(es[1..]));
    }
  }

  lemma DenoteCons(e: Entry, es: seq<Entry>)
    ensures Denote([e] + es) == Denote(es)[e.name := DenoteNode(e.node)]
  {
    assert ([e] + es)[1..] == es;
  }

  lemma {:induction false} CanonicalEntryMeaning(e: Entry)
    requires ValidEntry(e)
    ensures DenoteNode(CanonicalEntry(e).node) == DenoteNode(e.node) && Sound(CanonicalEntry(e))
    decreases e
  {
    if e.node.Directory? { CanonicalMeaning(e.node.entries); }
  }

  // ---------- One canonical form for each meaning

  lemma CanonicalTail(es: seq<Entry>)
    requires CanonicalTree(es) && es != []
    ensures Sound(es[0]) && CanonicalTree(es[1..])
    ensures forall e | e in es[1..] :: LexLess(es[0].name, e.name)
  {
    var rest := es[1..];
    assert es[0] in es && forall e | e in rest :: e in es;
    assert forall i | 0 <= i < |rest| :: rest[i] == es[i + 1];
  }

  lemma CanonicalPeel(es: seq<Entry>)
    requires CanonicalTree(es) && es != []
    ensures Sound(es[0]) && CanonicalTree(es[1..])
    ensures es[0].name !in Denote(es[1..])
    ensures Denote(es) == Denote(es[1..])[es[0].name := DenoteNode(es[0].node)]
    ensures forall n | n in Denote(es) :: n == es[0].name || LexLess(es[0].name, n)
  {
    hide Denote, DenoteNode, LexLess, Sound;
    var rest := es[1..];
    CanonicalTail(es);
    assert es == [es[0]] + rest;
    DenoteCons(es[0], rest);
    OrderedDistinct(rest);
    DenoteAt(rest);
    forall n | n in Denote(rest) ensures LexLess(es[0].name, n) {
      var e :| e in rest && e.name == n;
    }
    LexTotal(es[0].name, es[0].name);
  }

  lemma {:induction false} CanonicalUnique(a: seq<Entry>, b: seq<Entry>)
    requires CanonicalTree(a) && CanonicalTree(b) && Denote(a) == Denote(b)
    ensures a == b
    decreases a, 1
  {
    hide Denote, DenoteNode, Sound, CanonicalTree;
    if a == [] || b == [] {
      if a != [] { CanonicalPeel(a); assert a[0].name in Denote(b); NoNames(); }
      if b != [] { CanonicalPeel(b); assert b[0].name in Denote(a); NoNames(); }
    } else {
      CanonicalPeel(a);
      CanonicalPeel(b);
      assert a[0].name in Denote(b) && b[0].name in Denote(a);
      LexTotal(a[0].name, b[0].name);
      var n := a[0].name;
      assert DenoteNode(a[0].node) == Denote(a)[n] == DenoteNode(b[0].node);
      assert Denote(a[1..]) == Denote(a) - {n} && Denote(b[1..]) == Denote(b) - {n};
      CanonicalUnique(a[1..], b[1..]);
      NodeUnique(a[0].node, b[0].node, a[0], b[0]);
      assert a == [a[0]] + a[1..] && b == [b[0]] + b[1..];
    }
  }

  lemma NoNames()
    ensures Denote([]) == map[]
  {
  }

  lemma {:induction false} NodeUnique(m: Node, n: Node, d: Entry, e: Entry)
    requires d.node == m && e.node == n && Sound(d) && Sound(e) && DenoteNode(m) == DenoteNode(n)
    ensures m == n
    decreases d, 0
  {
    hide Denote, CanonicalTree;
    if m.Directory? { CanonicalUnique(m.entries, n.entries); }
  }

  // ---------- The walk is injective

  function Lead(relative: Bytes): Bytes { if relative == [] then [] else relative + [SLASH] }

  lemma PathOfLead(relative: Bytes, name: Bytes)
    ensures PathOf(relative, name) == Lead(relative) + name
  {
  }

  /** `path` names something inside the directory `dir`. */
  predicate Inside(path: Bytes, dir: Bytes) { dir + [SLASH] <= path }

  function UntilSlash(s: Bytes): Bytes {
    if s == [] || s[0] == SLASH then [] else [s[0]] + UntilSlash(s[1..])
  }

  lemma {:induction false} FirstComponent(a: Bytes, s: Bytes)
    requires SLASH !in a && (s == a || a + [SLASH] <= s)
    ensures UntilSlash(s) == a
  {
    if a != [] {
      assert a == [a[0]] + a[1..];
      assert s[0] == a[0] && a[0] in a;
      assert s == a || s[1..][..|a|] == a[1..] + [SLASH];
      FirstComponent(a[1..], s[1..]);
    }
  }

  /** A path lies below at most one name of a directory. */
  lemma ComponentUnique(lead: Bytes, a: Bytes, b: Bytes, path: Bytes)
    requires SLASH !in a && SLASH !in b
    requires path == lead + a || Inside(path, lead + a)
    requires path == lead + b || Inside(path, lead + b)
    ensures a == b
  {
    Below(lead, a, path);
    Below(lead, b, path);
    FirstComponent(a, path[|lead|..]);
    FirstComponent(b, path[|lead|..]);
  }

  lemma Below(lead: Bytes, a: Bytes, path: Bytes)
    requires path == lead + a || Inside(path, lead + a)
    ensures |lead| <= |path|
    ensures path[|lead|..] == a || a + [SLASH] <= path[|lead|..]
  {
    if Inside(path, lead + a) {
      assert lead + a + [SLASH] == lead + (a + [SLASH]);
      assert path[..|lead + a| + 1] == lead + (a + [SLASH]);
      assert path[|lead|..][..|a| + 1] == a + [SLASH];
    }
  }

  /** Every record of a walk is at, or inside, one of the entries. */
  lemma {:induction false} WalkPaths(relative: Bytes, es: seq<Entry>)
    requires CanonicalTree(es)
    ensures forall r | r in Walk(relative, es) ::
              exists e :: e in es && (r.path == Lead(relative) + e.name || Inside(r.path, Lead(relative) + e.name))
    decreases es, 0
  {
    if es != [] {
      CanonicalPeel(es);
      WalkPaths(relative, es[1..]);
      EntryPaths(relative, es[0]);
      hide Walk, WalkEntry, Inside, CanonicalTree, Sound;
      assert es[0] in es && forall e | e in es[1..] :: e in es;
      WalkCons(relative, es);
    }
  }

  lemma WalkCons(relative: Bytes, es: seq<Entry>)
    requires es != []
    ensures Walk(relative, es) == WalkEntry(relative, es[0]) + Walk(relative, es[1..])
  {
  }

  lemma {:induction false} EntryPaths(relative: Bytes, e: Entry)
    requires Sound(e)
    ensures e.node.Special? <==> WalkEntry(relative, e) == []
    ensures !e.node.Special? ==>
              && WalkEntry(relative, e)[0].path == Lead(relative) + e.name
              && forall r | r in WalkEntry(relative, e)[1..] :: Inside(r.path, Lead(relative) + e.name)
    decreases e, 0
  {
    var path := PathOf(relative, e.name);
    PathOfLead(relative, e.name);
    if e.node.Directory? {
      var inner := Walk(path, e.node.entries);
      WalkPaths(path, e.node.entries);
      assert WalkEntry(relative, e)[1..] == inner;
      assert path != [];
      forall r | r in inner ensures Inside(r.path, path) {
        var x :| x in e.node.entries && (r.path == Lead(path) + x.name || Inside(r.path, Lead(path) + x.name));
        InsidePrefix(r.path, path, x.name);
      }
    }
  }

  lemma InsidePrefix(p: Bytes, dir: Bytes, name: Bytes)
    requires p == dir + [SLASH] + name || Inside(p, dir + [SLASH] + name)
    ensures Inside(p, dir)
  {
    if Inside(p, dir + [SLASH] + name) {
      assert p[..|dir + [SLASH] + name| + 1] == dir + [SLASH] + name + [SLASH];
      assert p[..|dir| + 1] == dir + [SLASH];
    }
  }

  predicate AllInside(rs: seq<Record>, dir: Bytes) { forall r | r in rs :: Inside(r.path, dir) }

  predicate NoneInside(rs: seq<Record>, dir: Bytes) { forall r | r in rs :: !Inside(r.path, dir) }

  function LeadingInside(rs: seq<Record>, dir: Bytes): seq<Record> {
    if rs == [] || !Inside(rs[0].path, dir) then [] else [rs[0]] + LeadingInside(rs[1..], dir)
  }

  lemma {:induction false} LeadingInsideIs(a: seq<Record>, b: seq<Record>, dir: Bytes)
    requires AllInside(a, dir) && NoneInside(b, dir)
    ensures LeadingInside(a + b, dir) == a
  {
    hide Inside;
    if a == [] {
      assert a + b == b;
      assert b != [] ==> b[0] in b;
    } else {
      assert a[0] in a && forall r | r in a[1..] :: r in a;
      LeadingInsideIs(a[1..], b, dir);
      assert (a + b)[0] == a[0] && (a + b)[1..] == a[1..] + b;
    }
  }

  /** A sequence splits in one way only into records inside `dir` and records
      outside it. */
  lemma SplitOnce(a: seq<Record>, b: seq<Record>, c: seq<Record>, d: seq<Record>, dir: Bytes)
    requires AllInside(a, dir) && NoneInside(b, dir) && AllInside(c, dir) && NoneInside(d, dir)
    requires a + b == c + d
    ensures a == c && b == d
  {
    hide *;
    LeadingInsideIs(a, b, dir);
    LeadingInsideIs(c, d, dir);
    assert (a + b)[|a|..] == b && (c + d)[|c|..] == d;
  }

  /** No record of the later entries lies inside the first one. */
  lemma LaterOutside(relative: Bytes, e: Entry, rest: seq<Entry>)
    requires CanonicalTree(rest) && SLASH !in e.name
    requires forall x | x in rest :: x.name != e.name && SLASH !in x.name
    ensures NoneInside(Walk(relative, rest), PathOf(relative, e.name))
  {
    hide Inside, CanonicalTree, Walk;
    PathOfLead(relative, e.name);
    WalkPaths(relative, rest);
    forall r | r in Walk(relative, rest) ensures !Inside(r.path, Lead(relative) + e.name) {
      var x :| x in rest && (r.path == Lead(relative) + x.name || Inside(r.path, Lead(relative) + x.name));
      if Inside(r.path, Lead(relative) + e.name) {
        ComponentUnique(Lead(relative), x.name, e.name, r.path);
      }
    }
  }

  lemma RestNames(es: seq<Entry>)
    requires CanonicalTree(es) && es != []
    ensures SLASH !in es[0].name && es[0].name != []
    ensures forall x | x in es[1..] :: x.name != es[0].name && SLASH !in x.name
  {
    CanonicalTail(es);
    assert forall x | x in es[1..] :: x in es;
    forall x | x in es[1..] ensures x.name != es[0].name { LexTotal(x.name, es[0].name); }
  }

  /** The walk determines the tree. */
  lemma {:induction false} WalkInjective(relative: Bytes, a: seq<Entry>, b: seq<Entry>)
    requires CanonicalTree(a) && CanonicalTree(b)
    requires Hashable(relative, a) && Hashable(relative, b)
    requires Walk(relative, a) == Walk(relative, b)
    ensures a == b
    decreases a, 1
  {
    hide Walk, WalkEntry, CanonicalTree, Sound, PathOf, HashableEntry;
    if a != [] { NotSpecial(relative, a[0]); }
    if b != [] { NotSpecial(relative, b[0]); }
    if a == [] || b == [] {
      NoRecords(relative);
      if a != [] { CanonicalTail(a); WalkCons(relative, a); EntryPaths(relative, a[0]); }
      if b != [] { CanonicalTail(b); WalkCons(relative, b); EntryPaths(relative, b[0]); }
    } else {
      CanonicalTail(a);
      CanonicalTail(b);
      WalkCons(relative, a);
      WalkCons(relative, b);
      EntryPaths(relative, a[0]);
      EntryPaths(relative, b[0]);
      RestNames(a);
      RestNames(b);
      assert Walk(relative, a)[0] == WalkEntry(relative, a[0])[0];
      assert Walk(relative, b)[0] == WalkEntry(relative, b[0])[0];
      SamePrefix(Lead(relative), a[0].name, b[0].name);
      LaterOutside(relative, a[0], a[1..]);
      LaterOutside(relative, b[0], b[1..]);
      EntryInjective(relative, a[0], Walk(relative, a[1..]), b[0], Walk(relative, b[1..]));
      WalkInjective(relative, a[1..], b[1..]);
      assert a == [a[0]] + a[1..] && b == [b[0]] + b[1..];
    }
  }

  lemma NotSpecial(relative: Bytes, e: Entry)
    requires HashableEntry(relative, e)
    ensures !e.node.Special?
  {
  }

  lemma NoRecords(relative: Bytes)
    ensures Walk(relative, []) == []
  {
  }

  lemma SamePrefix(lead: Bytes, a: Bytes, b: Bytes)
    requires lead + a == lead + b
    ensures a == b
  {
    assert (lead + a)[|lead|..] == a && (lead + b)[|lead|..] == b;
  }

  lemma {:induction false} EntryInjective(relative: Bytes, d: Entry, x: seq<Record>, e: Entry, y: seq<Record>)
    requires Sound(d) && Sound(e) && d.name == e.name
    requires HashableEntry(relative, d) && HashableEntry(relative, e)
    requires NoneInside(x, PathOf(relative, d.name)) && NoneInside(y, PathOf(relative, e.name))
    requires WalkEntry(relative, d) + x == WalkEntry(relative, e) + y
    ensures d == e && x == y
    decreases d, 0
  {
    hide CanonicalTree, Walk, PathOf, Inside;
    var s, t := WalkEntry(relative, d) + x, WalkEntry(relative, e) + y;
    assert s[0] == WalkEntry(relative, d)[0] && t[0] == WalkEntry(relative, e)[0];
    assert s[1..] == WalkEntry(relative, d)[1..] + x;
    assert t[1..] == WalkEntry(relative, e)[1..] + y;
    if d.node.Directory? {
      var path := PathOf(relative, d.name);
      EntryPaths(relative, d);
      EntryPaths(relative, e);
      PathOfLead(relative, d.name);
      assert WalkEntry(relative, d)[1..] == Walk(path, d.node.entries);
      assert WalkEntry(relative, e)[1..] == Walk(path, e.node.entries);
      SplitOnce(Walk(path, d.node.entries), x, Walk(path, e.node.entries), y, path);
      WalkInjective(path, d.node.entries, e.node.entries);
    }
  }

  // ---------- The root

  lemma {:induction false} VisibleMembers(es: seq<Entry>)
    ensures forall e | e in Visible(es) :: e in es && e.name != GIT
    ensures forall e | e in es && e.name != GIT :: e in Visible(es)
  {
    if es != [] {
      VisibleMembers(es[1..]);
      assert es == [es[0]] + es[1..];
    }
  }

  lemma OrderedTail(es: seq<Entry>)
    requires Ordered(es) && es != []
    ensures Ordered(es[1..])
    ensures forall x | x in es[1..] :: LexLess(es[0].name, x.name)
  {
    hide LexLess;
    var rest := es[1..];
    assert forall i | 0 <= i < |rest| :: rest[i] == es[i + 1];
  }

  lemma {:induction false} VisibleOrdered(es: seq<Entry>)
    requires Ordered(es)
    ensures Ordered(Visible(es))
  {
    hide LexLess, Ordered;
    if es == [] {
      assert Visible(es) == es;
    } else {
      OrderedTail(es);
      VisibleOrdered(es[1..]);
      VisibleMembers(es[1..]);
      OrderedCons(es[0], Visible(es[1..]));
      assert Visible(es) == Visible(es[1..]) || Visible(es) == [es[0]] + Visible(es[1..]);
    }
  }

  lemma VisibleMeaning(es: seq<Entry>)
    requires CanonicalTree(es)
    ensures CanonicalTree(Visible(es)) && Denote(Visible(es)) == Denote(es) - {GIT}
  {
    hide Denote, DenoteNode, Visible;
    VisibleMembers(es);
    VisibleOrdered(es);
    OrderedDistinct(es);
    OrderedDistinct(Visible(es));
    DenoteAt(es);
    DenoteAt(Visible(es));
    var m := Denote(es) - {GIT};
    forall n | n in m ensures n in Denote(Visible(es)) && Denote(Visible(es))[n] == m[n] {
      var e :| e in es && e.name == n;
    }
    forall n | n in Denote(Visible(es)) ensures n in m {
      var e :| e in Visible(es) && e.name == n;
    }
  }

  lemma {:induction false} HashableFits(relative: Bytes, es: seq<Entry>)
    requires Hashable(relative, es)
    ensures AllFit(Walk(relative, es))
    decreases es, 0
  {
    if es != [] {
      HashableFits(relative, es[1..]);
      HashableEntryFits(relative, es[0]);
    }
  }

  lemma {:induction false} HashableEntryFits(relative: Bytes, e: Entry)
    requires HashableEntry(relative, e)
    ensures AllFit(WalkEntry(relative, e))
    decreases e, 1
  {
    if e.node.Directory? { HashableFits(PathOf(relative, e.name), e.node.entries); }
  }

  /** Two trees the hash accepts feed it the same bytes exactly when they are
      the same tree: same names, kinds, executable bits, link targets, contents
      and empty directories, whatever order the listings came in, and whatever
      `.git` is at the root. */
  lemma StreamCharacterizesTree(a: seq<Entry>, b: seq<Entry>)
    requires ValidTree(a) && ValidTree(b) && Accepted(a) && Accepted(b)
    ensures Stream(a) == Stream(b) <==> Denote(a) - {GIT} == Denote(b) - {GIT}
  {
    hide ValidTree, Canonical, CanonicalTree, Denote, Walk, EncodeAll, Visible, AllFit, Hashable;
    CanonicalMeaning(a);
    CanonicalMeaning(b);
    VisibleMeaning(Canonical(a));
    VisibleMeaning(Canonical(b));
    if Stream(a) == Stream(b) {
      HashableFits([], Visible(Canonical(a)));
      HashableFits([], Visible(Canonical(b)));
      EncodeAllInjective(Records(a), Records(b));
      WalkInjective([], Visible(Canonical(a)), Visible(Canonical(b)));
    }
    if Denote(a) - {GIT} == Denote(b) - {GIT} {
      CanonicalUnique(Visible(Canonical(a)), Visible(Canonical(b)));
    }
  }

  /** Listing order and the root `.git` change neither the verdict nor the bytes. */
  lemma StreamOrderBlind(a: seq<Entry>, b: seq<Entry>)
    requires ValidTree(a) && ValidTree(b) && Denote(a) - {GIT} == Denote(b) - {GIT}
    ensures Accepted(a) == Accepted(b) && Stream(a) == Stream(b)
  {
    hide ValidTree, Canonical, CanonicalTree, Denote, Walk, EncodeAll, Visible, Hashable;
    CanonicalMeaning(a);
    CanonicalMeaning(b);
    VisibleMeaning(Canonical(a));
    VisibleMeaning(Canonical(b));
    CanonicalUnique(Visible(Canonical(a)), Visible(Canonical(b)));
  }
}
