/** The hashed stream and the archive, byte for byte. */
module TreeBytes {
  import opened Octets
  import opened SourceTree
  import opened SourceHash
  import opened Archive

  function Ascii(s: string): (b: Bytes)
    requires forall c | c in s :: c < '\U{80}'
    ensures |b| == |s|
  {
    seq(|s|, i requires 0 <= i < |s| => assert s[i] in s; s[i] as byte)
  }

  /** The number that bytes stand for, the first one the most significant. */
  function Number(b: Bytes): nat { if b == [] then 0 else Number(b[..|b| - 1]) * 256 + b[|b| - 1] as nat }

  lemma {:induction false} BigEndianIs(n: nat, k: nat)
    requires n < Power256(k)
    ensures Number(BigEndian(n, k)) == n
  {
    if k > 0 {
      assert n / 256 < Power256(k - 1);
      BigEndianIs(n / 256, k - 1);
      assert BigEndian(n, k)[..k - 1] == BigEndian(n / 256, k - 1);
    }
  }

  lemma Names()
    ensures GIT == Ascii(".git") && [SLASH] == Ascii("/")
    ensures TAG_SYMLINK == Ascii("symlink") && TAG_DIRECTORY == Ascii("directory")
    ensures TAG_EXECUTABLE == Ascii("executable") && TAG_FILE == Ascii("file")
  {
  }

  /** A frame is the eight bytes of a length, the most significant first, and
      as many bytes. */
  lemma FrameIs(v: Bytes)
    requires |v| < 0x1_0000_0000_0000_0000
    ensures |Frame(v)| == 8 + |v| && Number(Frame(v)[..8]) == |v| && Frame(v)[8..] == v
  {
    FrameLimitIsPower();
    BigEndianIs(|v|, 8);
    assert Frame(v)[..8] == BigEndian(|v|, 8);
  }

  /** Every record is its kind, its path and what follows, each in a frame; a
      file's content follows its framed length. */
  lemma EncodeIs(r: Record)
    ensures match r
            case LinkRecord(path, target) => Encode(r) == Frame(Ascii("symlink")) + Frame(path) + Frame(target)
            case DirectoryRecord(path) => Encode(r) == Frame(Ascii("directory")) + Frame(path)
            case FileRecord(path, executable, content) =>
              Encode(r) == Frame(if executable then Ascii("executable") else Ascii("file")) + Frame(path)
                           + Frame(BigEndian(|content|, 8)) + content
  {
    hide Frame, Ascii, BigEndian;
    Names();
    Grouped(Frame(r.Tag()), Frame(r.path), r.Payload());
    if r.FileRecord? {
      Grouped(Frame(r.Tag()) + Frame(r.path), Frame(BigEndian(|r.content|, 8)), r.content);
    } else if r.DirectoryRecord? {
      NothingMore(Frame(r.Tag()) + Frame(r.path));
    }
  }

  lemma Grouped(a: Bytes, b: Bytes, c: Bytes)
    ensures a + (b + c) == a + b + c
  {
  }

  lemma NothingMore(a: Bytes)
    ensures a + [] == a
  {
  }

  /** An archived entry has the record's name, no owner and no time; a link has
      mode 0777 and its target, a directory and an executable 0755, a plain file
      0644, and a file its content. */
  lemma ImageIs(r: Record)
    ensures var e := Image(r);
            && e.name == r.path && e.mtime == 0 && e.uid == 0 && e.gid == 0 && e.uname == [] && e.gname == []
            && e.size == |e.content|
            && (match r
                case LinkRecord(_, target) =>
                  e.kind == SymbolicLink && e.mode == 7 * 64 + 7 * 8 + 7 && e.linkname == target && e.content == []
                case DirectoryRecord(_) =>
                  e.kind == DirectoryType && e.mode == 7 * 64 + 5 * 8 + 5 && e.linkname == [] && e.content == []
                case FileRecord(_, executable, content) =>
                  && e.kind == RegularFile && e.linkname == [] && e.content == content
                  && e.mode == if executable then 7 * 64 + 5 * 8 + 5 else 6 * 64 + 4 * 8 + 4)
  {
  }

  lemma SmallNumbers()
    ensures BigEndian(1, 8) == [0, 0, 0, 0, 0, 0, 0, 1] && BigEndian(4, 8) == [0, 0, 0, 0, 0, 0, 0, 4]
    ensures BigEndian(8, 8) == [0, 0, 0, 0, 0, 0, 0, 8]
  {
    Zeros(7);
  }

  lemma {:induction false} Zeros(k: nat)
    ensures BigEndian(0, k) == seq(k, i => 0 as byte)
  {
    if k > 0 { Zeros(k - 1); }
  }

  lemma OneFileWalk()
    ensures Walk([], [Entry([97], File(false, [120]))]) == [FileRecord([97], false, [120])]
  {
    assert [Entry([97], File(false, [120]))][1..] == [];
  }

  /** A tree of one file `a` that holds `x`. */
  lemma StreamSample()
    ensures EncodeAll(Walk([], [Entry([97], File(false, [120]))])) ==
              [0, 0, 0, 0, 0, 0, 0, 4, 102, 105, 108, 101, 0, 0, 0, 0, 0, 0, 0, 1, 97,
               0, 0, 0, 0, 0, 0, 0, 8, 0, 0, 0, 0, 0, 0, 0, 1, 120]
  {
    hide BigEndian, Walk, Encode, Ascii;
    SmallNumbers();
    OneFileWalk();
    Names();
    var r := FileRecord([97], false, [120]);
    EncodeIs(r);
    assert Frame(TAG_FILE) == [0, 0, 0, 0, 0, 0, 0, 4, 102, 105, 108, 101];
    assert Frame([97]) == [0, 0, 0, 0, 0, 0, 0, 1, 97];
    assert Frame(BigEndian(1, 8)) == [0, 0, 0, 0, 0, 0, 0, 8, 0, 0, 0, 0, 0, 0, 0, 1];
    hide Frame;
    assert EncodeAll([r]) == Encode(r) by {
      assert [r][1..] == [];
      NothingMore(Encode(r));
    }
  }
}
