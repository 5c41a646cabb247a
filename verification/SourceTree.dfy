/** `canonical_source_hash`: the byte stream that stands for a source tree. */
module SourceTree {

  import opened Text
  import opened Octets

  /** A directory listing is a sequence of entries, in the order the file system gives them. */
  datatype Node =
    | Symlink(target: Bytes)
    | File(executable: bool, content: Bytes)
    | Directory(entries: seq<Entry>)
    | Special

  datatype Entry = Entry(name: Bytes, node: Node)

  const SLASH: byte := 47
  const GIT: Bytes := [46, 103, 105, 116]
  const TAG_SYMLINK: Bytes := [115, 121, 109, 108, 105, 110, 107]
  const TAG_DIRECTORY: Bytes := [100, 105, 114, 101, 99, 116, 111, 114, 121]
  const TAG_EXECUTABLE: Bytes := [101, 120, 101, 99, 117, 116, 97, 98, 108, 101]
  const TAG_FILE: Bytes := [102, 105, 108, 101]

  // ---------- Frames

  const FRAME_LIMIT := 0x1_0000_0000_0000_0000

  /** `n.to_bytes(k, "big")`, for numbers that fit. */
  function BigEndian(n: nat, k: nat): (s: Bytes)
    ensures |s| == k
  {
    if k == 0 then [] else BigEndian(n / 256, k - 1) + [(n % 256) as byte]
  }

  function Power256(k: nat): nat { if k == 0 then 1 else 256 * Power256(k - 1) }

  lemma {:induction false} BigEndianInjective(m: nat, n: nat, k: nat)
    requires m < Power256(k) && n < Power256(k)
    requires BigEndian(m, k) == BigEndian(n, k)
    ensures m == n
  {
    if k > 0 {
      var a, b := BigEndian(m, k), BigEndian(n, k);
      assert a[..k - 1] == BigEndian(m / 256, k - 1) && b[..k - 1] == BigEndian(n / 256, k - 1);
      assert a[k - 1] == b[k - 1];
      assert m / 256 < Power256(k - 1) && n / 256 < Power256(k - 1);
      BigEndianInjective(m / 256, n / 256, k - 1);
    }
  }

  lemma FrameLimitIsPower()
    ensures Power256(8) == FRAME_LIMIT
  {
    assert Power256(4) == 0x1_0000_0000;
    assert Power256(8) == 256 * (256 * (256 * (256 * Power256(4))));
  }

  function Frame(value: Bytes): Bytes { BigEndian(|value|, 8) + value }

  lemma FrameInjective(a: Bytes, x: Bytes, b: Bytes, y: Bytes)
    requires |a| < FRAME_LIMIT && |b| < FRAME_LIMIT
    requires Frame(a) + x == Frame(b) + y
    ensures a == b && x == y
  {
    var s, t := Frame(a) + x, Frame(b) + y;
    assert s[..8] == BigEndian(|a|, 8) && t[..8] == BigEndian(|b|, 8);
    FrameLimitIsPower();
    BigEndianInjective(|a|, |b|, 8);
    assert s[8..8 + |a|] == a && t[8..8 + |b|] == b;
    assert s[8 + |a|..] == x && t[8 + |b|..] == y;
  }

  // ---------- Records

  /** What one visited entry adds to the stream. */
  datatype Record =
    | LinkRecord(path: Bytes, target: Bytes)
    | DirectoryRecord(path: Bytes)
    | FileRecord(path: Bytes, executable: bool, content: Bytes)
  {
    predicate Fits() {
      && |path| < FRAME_LIMIT
      && (LinkRecord? ==> |target| < FRAME_LIMIT)
      && (FileRecord? ==> |content| < FRAME_LIMIT)
    }

    function Tag(): Bytes {
      match this
      case LinkRecord(_, _) => TAG_SYMLINK
      case DirectoryRecord(_) => TAG_DIRECTORY
      case FileRecord(_, executable, _) => if executable then TAG_EXECUTABLE else TAG_FILE
    }

    /** What follows the tag and the path. */
    function Payload(): Bytes {
      match this
      case LinkRecord(_, target) => Frame(target)
      case DirectoryRecord(_) => []
      case FileRecord(_, _, content) => Frame(BigEndian(|content|, 8)) + content
    }
  }

  function Encode(r: Record): Bytes { Frame(r.Tag()) + (Frame(r.path) + r.Payload()) }

  function EncodeAll(rs: seq<Record>): Bytes {
    if rs == [] then [] else Encode(rs[0]) + EncodeAll(rs[1..])
  }

  lemma PayloadInjective(r: Record, x: Bytes, s: Record, y: Bytes)
    requires r.Fits() && s.Fits() && r.Tag() == s.Tag() && r.path == s.path
    requires r.Payload() + x == s.Payload() + y
    ensures r == s && x == y
  {
    match r
    case LinkRecord(_, target) =>
      assert s.LinkRecord? by { TagKinds(r, s); }
      FrameInjective(target, x, s.target, y);
    case DirectoryRecord(_) =>
      assert s.DirectoryRecord? by { TagKinds(r, s); }
      assert x == [] + x && y == [] + y;
    case FileRecord(_, executable, content) =>
      assert s.FileRecord? && s.executable == executable by { TagKinds(r, s); }
      ContentInjective(content, x, s.content, y);
  }

  lemma ContentInjective(c: Bytes, x: Bytes, d: Bytes, y: Bytes)
    requires |c| < FRAME_LIMIT && |d| < FRAME_LIMIT
    requires Frame(BigEndian(|c|, 8)) + c + x == Frame(BigEndian(|d|, 8)) + d + y
    ensures c == d && x == y
  {
    hide Frame, BigEndian;
    var f, g := BigEndian(|c|, 8), BigEndian(|d|, 8);
    Assoc(Frame(f), c, x);
    Assoc(Frame(g), d, y);
    FrameInjective(f, c + x, g, d + y);
    FrameLimitIsPower();
    BigEndianInjective(|c|, |d|, 8);
    SameCut(c, x, d, y);
  }

  lemma SameCut(c: Bytes, x: Bytes, d: Bytes, y: Bytes)
    requires |c| == |d| && c + x == d + y
    ensures c == d && x == y
  {
    assert (c + x)[..|c|] == c && (d + y)[..|c|] == d;
    assert (c + x)[|c|..] == x && (d + y)[|c|..] == y;
  }

  /** The four tags differ. */
  lemma TagKinds(r: Record, s: Record)
    requires r.Tag() == s.Tag()
    ensures (r.LinkRecord? <==> s.LinkRecord?) && (r.DirectoryRecord? <==> s.DirectoryRecord?)
    ensures r.FileRecord? ==> s.FileRecord? && r.executable == s.executable
  {
    assert |TAG_SYMLINK| == 7 && |TAG_DIRECTORY| == 9 && |TAG_EXECUTABLE| == 10 && |TAG_FILE| == 4;
  }

  lemma EncodeInjective(r: Record, x: Bytes, s: Record, y: Bytes)
    requires r.Fits() && s.Fits() && Encode(r) + x == Encode(s) + y
    ensures r == s && x == y
  {
    hide Frame;
    Regroup(Frame(r.Tag()), Frame(r.path), r.Payload(), x);
    Regroup(Frame(s.Tag()), Frame(s.path), s.Payload(), y);
    FrameInjective(r.Tag(), Frame(r.path) + (r.Payload() + x), s.Tag(), Frame(s.path) + (s.Payload() + y));
    FrameInjective(r.path, r.Payload() + x, s.path, s.Payload() + y);
    PayloadInjective(r, x, s, y);
  }

  lemma Regroup(a: Bytes, b: Bytes, c: Bytes, d: Bytes)
    ensures (a + (b + c)) + d == a + (b + (c + d))
  {
  }

  predicate AllFit(rs: seq<Record>) { forall i | 0 <= i < |rs| :: rs[i].Fits() }

  /** The stream is uniquely decodable into records. */
  lemma {:induction false} EncodeAllInjective(rs: seq<Record>, ss: seq<Record>)
    requires AllFit(rs) && AllFit(ss) && EncodeAll(rs) == EncodeAll(ss)
    ensures rs == ss
    decreases |rs|
  {
    hide Frame, Encode;
    if rs == [] || ss == [] {
      if rs != [] { EncodeNotEmpty(rs[0]); }
      if ss != [] { EncodeNotEmpty(ss[0]); }
    } else {
      EncodeInjective(rs[0], EncodeAll(rs[1..]), ss[0], EncodeAll(ss[1..]));
      EncodeAllInjective(rs[1..], ss[1..]);
      assert rs == [rs[0]] + rs[1..] && ss == [ss[0]] + ss[1..];
    }
  }

  lemma EncodeNotEmpty(r: Record)
    ensures |Encode(r)| >= 8
  {
  }

  // ---------- Names and order

  predicate LexLess(a: Bytes, b: Bytes) {
    if b == [] then false
    else if a == [] then true
    else a[0] < b[0] || (a[0] == b[0] && LexLess(a[1..], b[1..]))
  }

  lemma {:induction false} LexTotal(a: Bytes, b: Bytes)
    ensures a == b || LexLess(a, b) || LexLess(b, a)
    ensures !(LexLess(a, b) && LexLess(b, a))
    ensures !LexLess(a, a)
  {
    if a != [] && b != [] {
      LexTotal(a[1..], b[1..]);
      assert a == [a[0]] + a[1..] && b == [b[0]] + b[1..];
    }
    if a != [] { LexTotal(a[1..], a[1..]); }
  }

  lemma {:induction false} LexTransitive(a: Bytes, b: Bytes, c: Bytes)
    requires LexLess(a, b) && LexLess(b, c)
    ensures LexLess(a, c)
  {
    if a != [] && a[0] == b[0] && b[0] == c[0] { LexTransitive(a[1..], b[1..], c[1..]); }
  }

  /** `sorted(..., key=name)`: a stable insertion. */
  function Insert(e: Entry, es: seq<Entry>): seq<Entry> {
    if es == [] || LexLess(e.name, es[0].name) then [e] + es else [es[0]] + Insert(e, es[1..])
  }

  function Sort(es: seq<Entry>): seq<Entry> {
    if es == [] then [] else Insert(es[0], Sort(es[1..]))
  }

  lemma {:induction false} InsertMembers(e: Entry, es: seq<Entry>)
    ensures multiset(Insert(e, es)) == multiset(es) + multiset{e}
  {
    if es == [] || LexLess(e.name, es[0].name) {
    } else {
      InsertMembers(e, es[1..]);
      assert es == [es[0]] + es[1..];
    }
  }

  lemma {:induction false} SortMembers(es: seq<Entry>)
    ensures multiset(Sort(es)) == multiset(es)
  {
    if es != [] {
      SortMembers(es[1..]);
      InsertMembers(es[0], Sort(es[1..]));
      assert es == [es[0]] + es[1..];
    }
  }

  predicate Distinct(es: seq<Entry>) {
    forall i, j | 0 <= i < j < |es| :: es[i].name != es[j].name
  }

  /** Strictly increasing names. */
  predicate Ordered(es: seq<Entry>) {
    forall i, j | 0 <= i < j < |es| :: LexLess(es[i].name, es[j].name)
  }

  lemma OrderedCons(e: Entry, es: seq<Entry>)
    requires Ordered(es) && forall x | x in es :: LexLess(e.name, x.name)
    ensures Ordered([e] + es)
  {
  }

  lemma {:induction false} InsertOrdered(e: Entry, es: seq<Entry>)
    requires Ordered(es) && forall x | x in es :: x.name != e.name
    ensures Ordered(Insert(e, es))
  {
    if es != [] {
      var rest := es[1..];
      assert forall x | x in rest :: x in es;
      if LexLess(e.name, es[0].name) {
        forall x | x in es ensures LexLess(e.name, x.name) {
          var i :| 0 <= i < |es| && es[i] == x;
          if i > 0 { LexTransitive(e.name, es[0].name, x.name); }
        }
        OrderedCons(e, es);
      } else {
        InsertOrdered(e, rest);
        InsertMembers(e, rest);
        LexTotal(e.name, es[0].name);
        forall x | x in Insert(e, rest) ensures LexLess(es[0].name, x.name) {
          assert x in multiset(rest) + multiset{e};
        }
        OrderedCons(es[0], Insert(e, rest));
      }
    }
  }

  lemma {:induction false} SortOrdered(es: seq<Entry>)
    requires Distinct(es)
    ensures Ordered(Sort(es))
  {
    if es != [] {
      var rest := es[1..];
      SortOrdered(rest);
      SortMembers(rest);
      forall x | x in Sort(rest) ensures x.name != es[0].name {
        assert x in multiset(rest);
        var i :| 0 <= i < |rest| && rest[i] == x;
        assert es[i + 1] == x;
      }
      InsertOrdered(es[0], Sort(rest));
    }
  }

  // ---------- The visiting order, at every level

  function Canonical(es: seq<Entry>): seq<Entry>
    decreases es, 1
  {
    Sort(CanonicalEach(es))
  }

  function CanonicalEach(es: seq<Entry>): (r: seq<Entry>)
    ensures |r| == |es| && forall i | 0 <= i < |es| :: r[i].name == es[i].name
    decreases es, 0
  {
    if es == [] then [] else [CanonicalEntry(es[0])] + CanonicalEach(es[1..])
  }

  function CanonicalEntry(e: Entry): (r: Entry)
    ensures r.name == e.name
    decreases e
  {
    if e.node.Directory? then Entry(e.name, Directory(Canonical(e.node.entries))) else e
  }

  /** What a file system guarantees: names are not empty, hold no slash, and
      differ within one directory. */
  predicate ValidTree(es: seq<Entry>)
    decreases es
  {
    Distinct(es) && forall e | e in es :: ValidEntry(e)
  }

  predicate ValidEntry(e: Entry)
    decreases e
  {
    && e.name != [] && SLASH !in e.name
    && (e.node.Directory? ==> ValidTree(e.node.entries))
  }

  predicate CanonicalTree(es: seq<Entry>)
    decreases es
  {
    Ordered(es) && forall e | e in es ::
      && e.name != [] && SLASH !in e.name
      && (e.node.Directory? ==> CanonicalTree(e.node.entries))
  }

  // ---------- What a tree is, whatever the listing order

  datatype Meaning =
    | LinkTo(target: Bytes)
    | FileOf(executable: bool, content: Bytes)
    | DirectoryOf(entries: map<Bytes, Meaning>)
    | Other

  function Denote(es: seq<Entry>): map<Bytes, Meaning>
    decreases es, 0
  {
    if es == [] then map[] else Denote(es[1..])[es[0].name := DenoteNode(es[0].node)]
  }

  function DenoteNode(node: Node): Meaning
    decreases node, 1
  {
    match node
    case Symlink(target) => LinkTo(target)
    case File(executable, content) => FileOf(executable, content)
    case Directory(entries) => DirectoryOf(Denote(entries))
    case Special => Other
  }

  // ---------- The walk

  function PathOf(relative: Bytes, name: Bytes): Bytes {
    if relative == [] then name else relative + [SLASH] + name
  }

  function Walk(relative: Bytes, es: seq<Entry>): seq<Record>
    decreases es, 0
  {
    if es == [] then [] else WalkEntry(relative, es[0]) + Walk(relative, es[1..])
  }

  function WalkEntry(relative: Bytes, e: Entry): seq<Record>
    decreases e, 1
  {
    var path := PathOf(relative, e.name);
    match e.node
    case Symlink(target) => [LinkRecord(path, target)]
    case File(executable, content) => [FileRecord(path, executable, content)]
    case Directory(entries) => [DirectoryRecord(path)] + Walk(path, entries)
    case Special => []
  }

  /** No special file, and every framed length fits in eight bytes. */
  predicate Hashable(relative: Bytes, es: seq<Entry>)
    decreases es, 0
  {
    es == [] || (HashableEntry(relative, es[0]) && Hashable(relative, es[1..]))
  }

  predicate HashableEntry(relative: Bytes, e: Entry)
    decreases e, 1
  {
    var path := PathOf(relative, e.name);
    |path| < FRAME_LIMIT && match e.node
      case Symlink(target) => |target| < FRAME_LIMIT
      case File(_, content) => |content| < FRAME_LIMIT
      case Directory(entries) => Hashable(path, entries)
      case Special => false
  }

  /** The root's `.git` entry is left out. */
  function Visible(es: seq<Entry>): seq<Entry> {
    if es == [] then []
    else (if es[0].name == GIT then [] else [es[0]]) + Visible(es[1..])
  }

  function Records(root: seq<Entry>): seq<Record> { Walk([], Visible(Canonical(root))) }

  /** The hashing walk over `root` meets no entry it refuses. */
  predicate Accepted(root: seq<Entry>) { Hashable([], Visible(Canonical(root))) }

  /** The bytes fed to the hash. */
  function Stream(root: seq<Entry>): Bytes { EncodeAll(Records(root)) }
}
