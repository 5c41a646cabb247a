/** The hashing walk: one running hasher, fed by a recursive visit. */
module SourceWalk {
  import opened Octets
  import opened SourceTree
  import opened Text

  const CHUNK := 1024 * 1024

  /** The root directory alone hides its `.git`. */
  function Shown(relative: Bytes, es: seq<Entry>): seq<Entry> {
    if relative == [] then Visible(es) else es
  }

  class Hasher {
    var stream: Bytes

    constructor ()
      ensures stream == []
    {
      stream := [];
    }

    method Update(value: Bytes)
      modifies this
      ensures stream == old(stream) + value
    {
      stream := stream + value;
    }

    /** A length that does not fit in eight bytes is an error. */
    method UpdateFrame(value: Bytes) returns (ok: bool)
      modifies this
      ensures ok <==> |value| < FRAME_LIMIT
      ensures ok ==> stream == old(stream) + Frame(value)
    {
      ok := |value| < FRAME_LIMIT;
      if ok {
        Update(BigEndian(|value|, 8));
        Update(value);
      }
    }

    /** A file's content arrives in chunks. */
    method UpdateContent(content: Bytes)
      modifies this
      ensures stream == old(stream) + content
    {
      var rest := content;
      while rest != []
        invariant stream + rest == old(stream) + content
        decreases |rest|
      {
        var n := if |rest| < CHUNK then |rest| else CHUNK;
        assert rest == rest[..n] + rest[n..];
        Assoc(stream, rest[..n], rest[n..]);
        Update(rest[..n]);
        rest := rest[n..];
      }
      assert stream + [] == stream;
    }

    /** Tag and path, with which every record starts. */
    method UpdateLead(tag: Bytes, path: Bytes) returns (ok: bool)
      requires |tag| < FRAME_LIMIT
      modifies this
      ensures ok <==> |path| < FRAME_LIMIT
      ensures ok ==> stream == old(stream) + (Frame(tag) + Frame(path))
    {
      hide Frame;
      var _ := UpdateFrame(tag);
      ok := UpdateFrame(path);
      Assoc(old(stream), Frame(tag), Frame(path));
    }

    method UpdateFile(r: Record) returns (ok: bool)
      requires r.FileRecord?
      modifies this
      ensures ok <==> r.Fits()
      ensures ok ==> stream == old(stream) + Encode(r)
    {
      hide Frame, BigEndian;
      ok := UpdateLead(r.Tag(), r.path);
      if !ok { return; }
      if |r.content| >= FRAME_LIMIT { ok := false; return; }
      var size := BigEndian(|r.content|, 8);
      ok := UpdateFrame(size);
      UpdateContent(r.content);
      FileRegroup(old(stream), Frame(r.Tag()), Frame(r.path), Frame(size), r.content);
    }

    method UpdateLink(r: Record) returns (ok: bool)
      requires r.LinkRecord?
      modifies this
      ensures ok <==> r.Fits()
      ensures ok ==> stream == old(stream) + Encode(r)
    {
      hide Frame;
      ok := UpdateLead(r.Tag(), r.path);
      if !ok { return; }
      ok := UpdateFrame(r.target);
      LinkRegroup(old(stream), Frame(r.Tag()), Frame(r.path), Frame(r.target));
    }
  }

  lemma FileRegroup(s: Bytes, a: Bytes, b: Bytes, c: Bytes, d: Bytes)
    ensures s + (a + b) + c + d == s + (a + (b + (c + d)))
  {
  }

  lemma LinkRegroup(s: Bytes, a: Bytes, b: Bytes, c: Bytes)
    ensures s + (a + b) + c == s + (a + (b + c))
  {
  }

  // ---------- Sorting one level commutes with sorting the levels below

  lemma {:induction false} InsertCanonical(e: Entry, es: seq<Entry>)
    ensures CanonicalEach(Insert(e, es)) == Insert(CanonicalEntry(e), CanonicalEach(es))
  {
    hide LexLess, CanonicalEntry;
    if es == [] || LexLess(e.name, es[0].name) {
      assert ([e] + es)[1..] == es;
    } else {
      InsertCanonical(e, es[1..]);
      assert ([es[0]] + Insert(e, es[1..]))[1..] == Insert(e, es[1..]);
      assert ([CanonicalEntry(es[0])] + CanonicalEach(es[1..]))[1..] == CanonicalEach(es[1..]);
    }
  }

  lemma {:induction false} SortCanonical(es: seq<Entry>)
    ensures CanonicalEach(Sort(es)) == Sort(CanonicalEach(es))
  {
    hide LexLess, CanonicalEntry, Insert;
    if es != [] {
      SortCanonical(es[1..]);
      InsertCanonical(es[0], Sort(es[1..]));
      assert ([CanonicalEntry(es[0])] + CanonicalEach(es[1..]))[1..] == CanonicalEach(es[1..]);
    }
  }

  /** What is still to be visited: the canonical form of the remaining entries. */
  function Remaining(relative: Bytes, es: seq<Entry>): seq<Entry> { Shown(relative, CanonicalEach(es)) }

  lemma RemainingStep(relative: Bytes, es: seq<Entry>)
    requires es != []
    ensures relative == [] && es[0].name == GIT ==> Remaining(relative, es) == Remaining(relative, es[1..])
    ensures !(relative == [] && es[0].name == GIT) ==>
              Remaining(relative, es) == [CanonicalEntry(es[0])] + Remaining(relative, es[1..])
  {
    hide CanonicalEntry;
    var each := CanonicalEach(es);
    assert each == [CanonicalEntry(es[0])] + CanonicalEach(es[1..]);
    assert each[1..] == CanonicalEach(es[1..]);
  }

  lemma WalkStep(relative: Bytes, e: Entry, rest: seq<Entry>)
    ensures EncodeAll(Walk(relative, [e] + rest))
         == EncodeAll(WalkEntry(relative, e)) + EncodeAll(Walk(relative, rest))
    ensures Hashable(relative, [e] + rest) <==> HashableEntry(relative, e) && Hashable(relative, rest)
  {
    hide WalkEntry, HashableEntry, Encode, EncodeAll;
    assert ([e] + rest)[1..] == rest;
    EncodeConcat(WalkEntry(relative, e), Walk(relative, rest));
  }

  lemma {:induction false} EncodeConcat(rs: seq<Record>, ss: seq<Record>)
    ensures EncodeAll(rs + ss) == EncodeAll(rs) + EncodeAll(ss)
  {
    hide Encode;
    if rs == [] {
      assert rs + ss == ss;
    } else {
      EncodeConcat(rs[1..], ss);
      assert (rs + ss)[0] == rs[0] && (rs + ss)[1..] == rs[1..] + ss;
      Assoc(Encode(rs[0]), EncodeAll(rs[1..]), EncodeAll(ss));
    }
  }

  lemma EncodeOne(r: Record)
    ensures EncodeAll([r]) == Encode(r)
  {
    hide Encode;
    assert [r][1..] == [];
    assert EncodeAll([]) == [];
  }

  lemma DirectoryStep(s: Bytes, path: Bytes, inner: seq<Entry>)
    ensures s + (Frame(TAG_DIRECTORY) + Frame(path)) + EncodeAll(Walk(path, inner))
         == s + EncodeAll([DirectoryRecord(path)] + Walk(path, inner))
  {
    hide Frame, Walk, EncodeAll;
    var r := DirectoryRecord(path);
    EncodeConcat([r], Walk(path, inner));
    EncodeOne(r);
    Assoc(s, Encode(r), EncodeAll(Walk(path, inner)));
  }

  /** The nested `visit`: what it feeds the hasher is the encoding of the walk
      over the sorted tree, and it fails exactly when some entry cannot be
      hashed. */
  method Visit(hasher: Hasher, es: seq<Entry>, relative: Bytes) returns (ok: bool)
    requires ValidTree(es)
    modifies hasher
    ensures ok <==> Hashable(relative, Shown(relative, Canonical(es)))
    ensures ok ==> hasher.stream == old(hasher.stream) + EncodeAll(Walk(relative, Shown(relative, Canonical(es))))
    decreases es, 1
  {
    hide Sort, Walk, EncodeAll, CanonicalEach, CanonicalEntry, Hashable, Canonical, Remaining;
    var entries := Sort(es);
    ghost var plan := Shown(relative, Canonical(es));
    PlanIs(relative, es);
    SortMembers(es);
    var i := 0;
    ok := true;
    assert entries[0..] == entries;
    while i < |entries|
      invariant 0 <= i <= |entries|
      invariant Hashable(relative, plan) <==> Hashable(relative, Remaining(relative, entries[i..]))
      invariant hasher.stream + EncodeAll(Walk(relative, Remaining(relative, entries[i..])))
             == old(hasher.stream) + EncodeAll(Walk(relative, plan))
    {
      var e := entries[i];
      ghost var rest := Remaining(relative, entries[i + 1..]);
      ghost var before := hasher.stream;
      assert entries[i..][0] == e && entries[i..][1..] == entries[i + 1..];
      RemainingStep(relative, entries[i..]);
      if !(relative == [] && e.name == GIT) {
        WalkStep(relative, CanonicalEntry(e), rest);
        assert e in multiset(es);
        ok := VisitEntry(hasher, es, e, relative);
        if !ok { return; }
        Assoc(before, EncodeAll(WalkEntry(relative, CanonicalEntry(e))), EncodeAll(Walk(relative, rest)));
      }
      i := i + 1;
    }
    Done(relative, entries[i..]);
    assert hasher.stream + [] == hasher.stream;
  }

  lemma Done(relative: Bytes, es: seq<Entry>)
    requires es == []
    ensures Hashable(relative, Remaining(relative, es)) && EncodeAll(Walk(relative, Remaining(relative, es))) == []
  {
  }

  lemma PlanIs(relative: Bytes, es: seq<Entry>)
    ensures Remaining(relative, Sort(es)) == Shown(relative, Canonical(es))
  {
    SortCanonical(es);
  }

  /** The body of the loop, for one entry that is not skipped. */
  method VisitEntry(hasher: Hasher, ghost listing: seq<Entry>, e: Entry, relative: Bytes) returns (ok: bool)
    requires e in listing && ValidTree(listing)
    modifies hasher
    ensures ok <==> HashableEntry(relative, CanonicalEntry(e))
    ensures ok ==> hasher.stream == old(hasher.stream) + EncodeAll(WalkEntry(relative, CanonicalEntry(e)))
    decreases listing, 0
  {
    hide EncodeAll, Walk, Frame, Canonical, Hashable, Encode;
    var path := PathOf(relative, e.name);
    match e.node
    case Symlink(target) =>
      EncodeOne(LinkRecord(path, target));
      ok := hasher.UpdateLink(LinkRecord(path, target));
    case Directory(entries) =>
      assert path != [];
      ok := hasher.UpdateLead(TAG_DIRECTORY, path);
      if ok {
        DirectoryStep(old(hasher.stream), path, Canonical(entries));
        ok := Visit(hasher, entries, path);
      }
    case File(executable, content) =>
      EncodeOne(FileRecord(path, executable, content));
      ok := hasher.UpdateFile(FileRecord(path, executable, content));
    case Special =>
      ok := false;
  }

  /** `canonical_source_hash`, up to the digest of the collected bytes. */
  method HashedStream(root: Node) returns (r: Option<Bytes>)
    requires root.Directory? ==> ValidTree(root.entries)
    ensures r.Some? <==> root.Directory? && Accepted(root.entries)
    ensures r.Some? ==> r.value == Stream(root.entries)
  {
    if !root.Directory? { return None; }
    var hasher := new Hasher();
    var ok := Visit(hasher, root.entries, []);
    r := if ok then Some(hasher.stream) else None;
  }
}
