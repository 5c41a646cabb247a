/** The deterministic archive of a source tree. */
module Archive {
  import opened Octets
  import opened SourceTree
  import opened SourceHash
  import opened SourceWalk

  datatype EntryType = SymbolicLink | DirectoryType | RegularFile

  /** A tar header with everything the walk sets on it, and its data. */
  datatype TarEntry = TarEntry(
    name: Bytes, kind: EntryType, mode: nat, mtime: nat, uid: nat, gid: nat,
    uname: Bytes, gname: Bytes, linkname: Bytes, size: nat, content: Bytes)

  function Blank(name: Bytes): TarEntry {
    TarEntry(name, RegularFile, 0x1A4, 0, 0, 0, [], [], [], 0, [])
  }

  /** The archive's entry for a record of the hashed stream: modes 0777, 0755
      and 0644. */
  function Image(r: Record): TarEntry {
    match r
    case LinkRecord(path, target) => Blank(path).(kind := SymbolicLink, mode := 0x1FF, linkname := target)
    case DirectoryRecord(path) => Blank(path).(kind := DirectoryType, mode := 0x1ED)
    case FileRecord(path, executable, content) =>
      Blank(path).(mode := if executable then 0x1ED else 0x1A4, size := |content|, content := content)
  }

  function Images(rs: seq<Record>): (r: seq<TarEntry>)
    ensures |r| == |rs| && forall i | 0 <= i < |rs| :: r[i] == Image(rs[i])
  {
    seq(|rs|, i requires 0 <= i < |rs| => Image(rs[i]))
  }

  lemma ImagesConcat(a: seq<Record>, b: seq<Record>)
    ensures Images(a + b) == Images(a) + Images(b)
  {
  }

  lemma {:induction false} ImagesInjective(a: seq<Record>, b: seq<Record>)
    requires Images(a) == Images(b)
    ensures a == b
  {
    forall i | 0 <= i < |a| ensures a[i] == b[i] {
      assert Images(a)[i] == Images(b)[i];
    }
  }

  /** No special file where the walk looks. */
  predicate Plain(es: seq<Entry>)
    decreases es, 0
  {
    es == [] || (PlainEntry(es[0]) && Plain(es[1..]))
  }

  predicate PlainEntry(e: Entry)
    decreases e, 1
  {
    !e.node.Special? && (e.node.Directory? ==> Plain(e.node.entries))
  }

  lemma WalkStep(relative: Bytes, e: Entry, rest: seq<Entry>)
    ensures Images(Walk(relative, [e] + rest)) == Images(WalkEntry(relative, e)) + Images(Walk(relative, rest))
    ensures Plain([e] + rest) <==> PlainEntry(e) && Plain(rest)
  {
    hide WalkEntry, PlainEntry;
    assert ([e] + rest)[1..] == rest;
    ImagesConcat(WalkEntry(relative, e), Walk(relative, rest));
  }

  lemma Done(relative: Bytes, es: seq<Entry>)
    requires es == []
    ensures Plain(Remaining(relative, es)) && Images(Walk(relative, Remaining(relative, es))) == []
  {
  }

  class TarFile {
    var members: seq<TarEntry>

    constructor ()
      ensures members == []
    {
      members := [];
    }

    method AddFile(info: TarEntry)
      modifies this
      ensures members == old(members) + [info]
    {
      members := members + [info];
    }
  }

  /** `_add_directory`: a second walk of its own over the file system. */
  method AddDirectory(archive: TarFile, es: seq<Entry>, relative: Bytes) returns (ok: bool)
    requires ValidTree(es)
    modifies archive
    ensures ok <==> Plain(Shown(relative, Canonical(es)))
    ensures ok ==> archive.members == old(archive.members) + Images(Walk(relative, Shown(relative, Canonical(es))))
    decreases es, 1
  {
    hide Sort, Walk, Images, CanonicalEach, CanonicalEntry, Plain, Canonical, Remaining;
    var entries := Sort(es);
    ghost var plan := Shown(relative, Canonical(es));
    PlanIs(relative, es);
    SortMembers(es);
    var i := 0;
    ok := true;
    assert entries[0..] == entries;
    while i < |entries|
      invariant 0 <= i <= |entries|
      invariant Plain(plan) <==> Plain(Remaining(relative, entries[i..]))
      invariant archive.members + Images(Walk(relative, Remaining(relative, entries[i..])))
             == old(archive.members) + Images(Walk(relative, plan))
    {
      var e := entries[i];
      ghost var rest := Remaining(relative, entries[i + 1..]);
      ghost var before := archive.members;
      assert entries[i..][0] == e && entries[i..][1..] == entries[i + 1..];
      RemainingStep(relative, entries[i..]);
      if !(relative == [] && e.name == GIT) {
        WalkStep(relative, CanonicalEntry(e), rest);
        assert e in multiset(es);
        ok := AddEntry(archive, es, e, relative);
        if !ok { return; }
        assert before + Images(WalkEntry(relative, CanonicalEntry(e))) + Images(Walk(relative, rest))
            == before + (Images(WalkEntry(relative, CanonicalEntry(e))) + Images(Walk(relative, rest)));
      }
      i := i + 1;
    }
    Done(relative, entries[i..]);
    assert archive.members + [] == archive.members;
  }

  method AddEntry(archive: TarFile, ghost listing: seq<Entry>, e: Entry, relative: Bytes) returns (ok: bool)
    requires e in listing && ValidTree(listing)
    modifies archive
    ensures ok <==> PlainEntry(CanonicalEntry(e))
    ensures ok ==> archive.members == old(archive.members) + Images(WalkEntry(relative, CanonicalEntry(e)))
    decreases listing, 0
  {
    hide Walk, Canonical, Plain;
    var info := Blank(PathOf(relative, e.name));
    ok := true;
    match e.node
    case Symlink(target) =>
      archive.AddFile(info.(kind := SymbolicLink, mode := 0x1FF, linkname := target));
    case Directory(entries) =>
      archive.AddFile(info.(kind := DirectoryType, mode := 0x1ED));
      ImagesConcat([DirectoryRecord(info.name)], Walk(info.name, Canonical(entries)));
      assert info.name != [];
      ok := AddDirectory(archive, entries, info.name);
    case File(executable, content) =>
      archive.AddFile(info.(mode := if executable then 0x1ED else 0x1A4, size := |content|, content := content));
    case Special =>
      ok := false;
  }

  lemma {:induction false} HashablePlain(relative: Bytes, es: seq<Entry>)
    requires Hashable(relative, es)
    ensures Plain(es)
    decreases es, 0
  {
    if es != [] {
      HashablePlain(relative, es[1..]);
      HashablePlainEntry(relative, es[0]);
    }
  }

  lemma {:induction false} HashablePlainEntry(relative: Bytes, e: Entry)
    requires HashableEntry(relative, e)
    ensures PlainEntry(e)
    decreases e, 1
  {
    if e.node.Directory? { HashablePlain(PathOf(relative, e.name), e.node.entries); }
  }

  /** `_write_deterministic_tar`: for every tree the hash accepts, the archive
      is, entry for entry, the image of what was hashed. */
  method WriteDeterministicTar(root: seq<Entry>) returns (ok: bool, members: seq<TarEntry>)
    requires ValidTree(root)
    ensures Accepted(root) ==> ok
    ensures ok <==> Plain(Visible(Canonical(root)))
    ensures ok ==> members == Images(Records(root))
  {
    hide Walk, Canonical, Plain, Visible, Hashable, ValidTree, Images;
    var archive := new TarFile();
    ok := AddDirectory(archive, root, []);
    members := archive.members;
    if Accepted(root) { HashablePlain([], Visible(Canonical(root))); }
    assert [] + Images(Records(root)) == Images(Records(root));
  }

  /** Equal hashed streams and equal archives are the same thing. */
  lemma ArchiveMatchesStream(a: seq<Entry>, b: seq<Entry>)
    requires ValidTree(a) && ValidTree(b) && Accepted(a) && Accepted(b)
    ensures Images(Records(a)) == Images(Records(b)) <==> Stream(a) == Stream(b)
  {
    hide ValidTree, Canonical, Walk, EncodeAll, Visible, AllFit, Hashable, Images;
    if Images(Records(a)) == Images(Records(b)) {
      ImagesInjective(Records(a), Records(b));
    }
    if Stream(a) == Stream(b) {
      HashableFits([], Visible(Canonical(a)));
      HashableFits([], Visible(Canonical(b)));
      EncodeAllInjective(Records(a), Records(b));
    }
  }
}
