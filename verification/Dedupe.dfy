/** Patches of one identity have one meaning: what dropping a duplicate loses. */
module Dedupe {
  import opened Text
  import opened Unified
  import opened Splice
  import opened Applier
  import opened Printer
  import opened PatchIdentity
  import opened HeaderNames
  import opened Inverse
  import Undo

  // ---------- Normal forms of lines

  /** A terminated line without its LF. */
  function Body(line: string): string {
    if line == "" then "" else line[..|line| - 1]
  }

  lemma {:induction false} RStripConcat(a: string, b: string)
    ensures RStrip(a + b) == if RStrip(b) == "" then RStrip(a) else a + RStrip(b)
    decreases |b|
  {
    if b == "" {
      assert a + b == a;
    } else {
      assert (a + b)[|a + b| - 1] == b[|b| - 1];
      if IsBlank(b[|b| - 1]) {
        assert (a + b)[..|a + b| - 1] == a + b[..|b| - 1];
        RStripConcat(a, b[..|b| - 1]);
      }
    }
  }

  lemma RStripSplit(s: string) returns (blanks: string)
    ensures s == RStrip(s) + blanks
    ensures forall i | 0 <= i < |blanks| :: IsBlank(blanks[i])
  {
    RStripShape(s);
    blanks := s[|RStrip(s)|..];
  }

  /** A hunk header line whose trailing blanks start with a tab is ignored by
      the applier, and read as a hunk header once normalized. */
  predicate TabbedHeader(line: string) {
    var r := ReadHeader(line);
    r.Some? && r.value.1 != "" && r.value.1[0] == '\t'
  }

  lemma SpanSpell(span: Span, tail: string, more: string)
    ensures span.Spell(tail + more) == span.Spell(tail) + more
  {
    if span.Single? {
      Assoc(span.start, tail, more);
    } else {
      Assoc(span.count, tail, more);
      Assoc(",", span.count + tail, more);
      Assoc(span.start, "," + (span.count + tail), more);
    }
  }

  /** A header followed by a tail is one fixed text followed by the tail. */
  lemma HeaderSpell(h: Header, tail: string)
    ensures h.Spell(tail) == h.Spell("") + tail
    ensures h.Spell("") != "" && h.Spell("")[|h.Spell("")| - 1] == '@'
  {
    hide Span.Spell;
    var s1, s2 := " @@" + "", " +" + h.after.Spell(" @@" + "");
    Assoc(" @@", "", tail);
    NoGap("", tail);
    SpanSpell(h.after, s1, tail);
    Assoc(" +", h.after.Spell(s1), tail);
    SpanSpell(h.before, s2, tail);
    Assoc("@@ -", h.before.Spell(s2), tail);
    SpellEnds(h.after, s1);
    SpellEnds(h.before, " +" + h.after.Spell(s1));
    assert s1[|s1| - 1] == '@';
    assert (" +" + h.after.Spell(s1))[|" +" + h.after.Spell(s1)| - 1] == '@';
    assert h.Spell("") == "@@ -" + h.before.Spell(" +" + h.after.Spell(s1));
  }

  lemma SpellEnds(span: Span, tail: string)
    requires tail != ""
    ensures span.Spell(tail) != "" && span.Spell(tail)[|span.Spell(tail)| - 1] == tail[|tail| - 1]
  {
  }

  /** A line is a hunk header exactly when its normal form is one, unless its
      trailing blanks start with a tab. */
  lemma HeaderOfNormal(line: string)
    requires Terminated(line) && !TabbedHeader(line)
    ensures HunkHeader(line) ==
              match NormalLine(Body(line)) case None => None case Some(n) => HunkHeader(n)
  {
    var n := RStrip(Body(line));
    hide HunkHeader, RStrip, UntilTab;
    assert n == "" || n[0] == line[0] by { RStripShape(Body(line)); }
    HeaderSurvives(line);
    if FileHeader(n) {
      CutHeader(n);
      NotAHunkHeader(UntilTab(n));
      NotAHunkHeader(n);
    } else if "index " <= n {
      NotAHunkHeader(n);
    }
  }

  lemma HeaderSurvives(line: string)
    requires Terminated(line) && !TabbedHeader(line)
    ensures HunkHeader(line) == HunkHeader(RStrip(Body(line)))
  {
    if HunkHeader(line).Some? { HeaderKept(line); }
    if HunkHeader(RStrip(Body(line))).Some? { HeaderBack(line); }
  }

  lemma HeaderKept(line: string)
    requires Terminated(line) && HunkHeader(line).Some?
    ensures HunkHeader(RStrip(Body(line))) == HunkHeader(line)
  {
    hide RStrip, Header.Spell, ReadHeader;
    var (h, tail) := ReadHeader(line).value;
    HeaderSpell(h, tail);
    var core := h.Spell("");
    assert tail != "" && tail[|tail| - 1] == '\n';
    var t := tail[..|tail| - 1];
    assert Body(line) == core + t;
    RStripConcat(core, t);
    RStripFixed(core);
    RStripShape(t);
    HeaderSpell(h, RStrip(t));
    assert RStrip(t) == "" ==> core + RStrip(t) == core;
    ReadHeaderOf(h, RStrip(t));
  }

  lemma HeaderBack(line: string)
    requires Terminated(line) && !TabbedHeader(line) && HunkHeader(RStrip(Body(line))).Some?
    ensures HunkHeader(line) == HunkHeader(RStrip(Body(line)))
  {
    hide RStrip, Header.Spell, ReadHeader;
    var (h, tail) := ReadHeader(RStrip(Body(line))).value;
    var blanks := RStripSplit(Body(line));
    var full := tail + blanks + "\n";
    HeaderSpell(h, tail);
    HeaderSpell(h, full);
    assert line == Body(line) + "\n";
    assert line == h.Spell("") + full;
    ReadHeaderOf(h, full);
    if tail != "" {
      assert full[0] == tail[0];
      RStripShape(Body(line));
      assert '\n' !in RStrip(Body(line));
      assert tail == RStrip(Body(line))[|h.Spell("")|..];
    } else if blanks != "" {
      assert full[0] == blanks[0];
    }
  }

  // ---------- Normal forms of whole patches

  function Norm(lines: seq<string>): seq<string> {
    if lines == [] then [] else Kept(Body(lines[0])) + Norm(lines[1..])
  }

  function Bodies(lines: seq<string>): seq<string> {
    if lines == [] then [] else [Body(lines[0])] + Bodies(lines[1..])
  }

  lemma {:induction false} PiecesOfText(lines: seq<string>)
    requires AllTerminated(lines)
    ensures Pieces(Join(lines)) == Bodies(lines) + [""]
  {
    if lines == [] {
      assert Pieces("") == [""];
    } else {
      hide Pieces;
      assert Terminated(lines[0]) && forall i | 0 <= i < |lines[1..]| :: lines[1..][i] == lines[i + 1];
      PiecesOfText(lines[1..]);
      PiecesOfLine(Body(lines[0]), Join(lines[1..]));
      assert lines[0] == Body(lines[0]) + "\n";
      Assoc(Body(lines[0]), "\n", Join(lines[1..]));
      Assoc([Body(lines[0])], Bodies(lines[1..]), [""]);
    }
  }

  lemma {:induction false} NormalLinesOfBodies(lines: seq<string>)
    ensures NormalLines(Bodies(lines)) == Norm(lines)
  {
    if lines != [] {
      hide Kept;
      NormalLinesOfBodies(lines[1..]);
      assert Bodies(lines)[1..] == Bodies(lines[1..]);
    }
  }

  lemma IdentityOfText(patch: string)
    requires LfTerminated(patch) && CrFree(patch)
    ensures Identity(patch) == PopBlank(Norm(Lines(patch)))
  {
    hide Pieces, NormalLines, PopBlank, Norm, Lines, Join, FoldCr, FoldCrLf, NormalLine;
    LinesOfTerminated(patch);
    JoinLines(patch);
    FoldFixed(patch);
    PiecesOfText(Lines(patch));
    NormalLinesSnoc(Bodies(Lines(patch)), "");
    BlankLine();
    NormalLinesOfBodies(Lines(patch));
    PopBlankStep(Norm(Lines(patch)) + [""]);
    assert (Norm(Lines(patch)) + [""])[..|Norm(Lines(patch))|] == Norm(Lines(patch));
  }

  /** Sequences that differ in blank lines at the end only. */
  function Nth(lines: seq<string>, i: nat): string { if i < |lines| then lines[i] else "" }

  ghost predicate SameTail(a: seq<string>, b: seq<string>) { forall i: nat :: Nth(a, i) == Nth(b, i) }

  lemma PoppedSame(a: seq<string>, b: seq<string>)
    requires PopBlank(a) == PopBlank(b)
    ensures SameTail(a, b)
  {
    hide PopBlank;
    PopBlankShape(a);
    PopBlankShape(b);
    forall i: nat ensures Nth(a, i) == Nth(b, i) {
      var kept := PopBlank(a);
      if i < |kept| { assert a[i] == kept[i] == b[i]; }
    }
  }

  lemma SameTailStep(m: string, a: seq<string>, n: string, b: seq<string>)
    requires SameTail([m] + a, [n] + b)
    ensures m == n && SameTail(a, b)
  {
    assert Nth([m] + a, 0) == Nth([n] + b, 0);
    forall i: nat ensures Nth(a, i) == Nth(b, i) {
      assert Nth([m] + a, i + 1) == Nth([n] + b, i + 1);
    }
  }

  lemma SameTailBlank(m: string, a: seq<string>)
    requires SameTail([m] + a, [])
    ensures m == "" && SameTail(a, [])
  {
    assert Nth([m] + a, 0) == Nth([], 0);
    forall i: nat ensures Nth(a, i) == Nth([], i) {
      assert Nth([m] + a, i + 1) == Nth([], i + 1);
    }
  }

  lemma JoinLfSame(a: seq<string>, b: seq<string>)
    requires JoinLf(a) + "\n" == JoinLf(b) + "\n"
    requires AllSettled(a) && AllSettled(b) && Trimmed(a) && Trimmed(b)
    ensures a == b
  {
    hide Settled;
    PiecesAgain(a);
    PiecesAgain(b);
    var a', b' := if a == [] then [""] else a, if b == [] then [""] else b;
    assert (a' + [""])[..|a'|] == a' && (b' + [""])[..|b'|] == b';
  }

  lemma PiecesAgain(lines: seq<string>)
    requires AllSettled(lines)
    ensures Pieces(JoinLf(lines) + "\n") == (if lines == [] then [""] else lines) + [""]
  {
    if lines == [] {
      assert JoinLf([]) + "\n" == "\n";
      assert Pieces("\n") == ["", ""] by { PiecesOfLine("", ""); assert "" + ("\n" + "") == "\n"; }
    } else {
      NoLfInside(lines);
      JoinLfSnoc(lines);
      PiecesOfJoin(lines + [""]);
    }
  }

  /** Patches of one identity have the same lines, normalized and up to blanks at the end. */
  lemma SameIdentityLines(p: string, q: string)
    requires LfTerminated(p) && CrFree(p) && LfTerminated(q) && CrFree(q)
    requires Normalize(p) == Normalize(q)
    ensures SameTail(Norm(Lines(p)), Norm(Lines(q)))
  {
    hide Identity, JoinLf, AllSettled, Trimmed, Norm, Lines, PopBlank;
    IdentitySettled(p);
    IdentitySettled(q);
    JoinLfSame(Identity(p), Identity(q));
    IdentityOfText(p);
    IdentityOfText(q);
    PoppedSame(Norm(Lines(p)), Norm(Lines(q)));
  }

  // ---------- Reading two such patches in lockstep

  predicate QuietPart(part: Part) { part.Block? ==> forall e | e in part.edits :: !HeaderLike(e) }

  /** Readable, with no body line that reads as a file header, and no hunk
      header whose trailing blanks start with a tab. */
  predicate Tame(lines: seq<string>) {
    && AllTerminated(lines)
    && (forall l | l in lines :: !TabbedHeader(l))
    && ReadPatch(lines).Some?
    && forall i | 0 <= i < |ReadPatch(lines).value| :: QuietPart(ReadPatch(lines).value[i])
  }

  predicate AlikeText(s: string, t: string) { RStrip(Body(s)) == RStrip(Body(t)) }

  predicate AlikeEdit(e: Edit, f: Edit) {
    && (e.Keep? <==> f.Keep?) && (e.Drop? <==> f.Drop?)
    && AlikeText(e.text, f.text)
  }

  predicate AlikeEdits(es: seq<Edit>, fs: seq<Edit>) {
    |es| == |fs| && forall i | 0 <= i < |es| :: AlikeEdit(es[i], fs[i])
  }

  predicate AlikeHunks(gs: seq<Hunk>, hs: seq<Hunk>) {
    |gs| == |hs| && forall i | 0 <= i < |gs| :: gs[i].pos == hs[i].pos && AlikeEdits(gs[i].edits, hs[i].edits)
  }

  /** The normal form of a body line: its mark, and its text without trailing blanks. */
  lemma NormalEdit(e: Edit)
    requires Terminated(e.Line()) && !HeaderLike(e)
    ensures var mark := e.Line()[..1];
            var rest := RStrip(Body(e.text));
            NormalLine(Body(e.Line())) == Some(if rest != "" then mark + rest else if e.Keep? then "" else mark)
  {
    hide HeaderLike, RStrip, UntilTab, FileHeader;
    var mark := e.Line()[..1];
    var l := Body(e.Line());
    assert l == mark + Body(e.text);
    RStripConcat(mark, Body(e.text));
    MarkStrip(e);
    PrefixUnmarked(e, l);
    assert e.Line()[0] != "index "[0];
  }

  lemma PrefixUnmarked(e: Edit, l: string)
    requires !HeaderLike(e) && l <= e.Line()
    ensures !FileHeader(RStrip(l)) && RStrip(l) <= e.Line()
  {
    hide HeaderLike, RStrip;
    EditMarked(e);
    RStripShape(l);
  }

  lemma MarkStrip(e: Edit)
    ensures RStrip(e.Line()[..1]) == if e.Keep? then "" else e.Line()[..1]
  {
    var m := e.Line()[..1];
    assert m[..0] == "";
  }

  lemma SameNormalEdit(e: Edit, f: Edit)
    requires Terminated(e.Line()) && !HeaderLike(e) && Terminated(f.Line()) && !HeaderLike(f)
    requires NormalLine(Body(e.Line())) == NormalLine(Body(f.Line()))
    ensures AlikeEdit(e, f)
  {
    hide NormalLine, HeaderLike, RStrip;
    NormalEdit(e);
    NormalEdit(f);
    var s, t := RStrip(Body(e.text)), RStrip(Body(f.text));
    var m, n := e.Line()[..1], f.Line()[..1];
    assert m[0] == e.Line()[0] && n[0] == f.Line()[0];
    assert s != "" ==> (m + s)[0] == m[0] && (m + s)[1..] == s;
    assert t != "" ==> (n + t)[0] == n[0] && (n + t)[1..] == t;
  }

  lemma NormCons(lines: seq<string>, n: string)
    requires lines != [] && NormalLine(Body(lines[0])) == Some(n)
    ensures Norm(lines) == [n] + Norm(lines[1..])
  {
  }

  /** First line and remainder of a hunk body. */
  lemma ReadBodyPeel(lines: seq<string>, olds: nat, news: nat)
    requires ReadBody(lines, olds, news).Some? && (olds > 0 || news > 0)
    requires AllTerminated(lines) && Calm(ReadBody(lines, olds, news).value)
    ensures var edits := ReadBody(lines, olds, news).value;
            && lines != [] && edits != [] && lines[0] == edits[0].Line()
            && Terminated(lines[0]) && !HeaderLike(edits[0]) && AllTerminated(lines[1..])
            && (edits[0].Add? || olds > 0) && (edits[0].Drop? || news > 0)
            && Calm(edits[1..])
            && ReadBody(lines[1..], if edits[0].Add? then olds else olds - 1,
                        if edits[0].Drop? then news else news - 1) == Some(edits[1..])
            && lines[|edits|..] == lines[1..][|edits| - 1..]
  {
    hide HeaderLike, Terminated;
    var edits := ReadBody(lines, olds, news).value;
    assert edits[0] in edits && forall x | x in edits[1..] :: x in edits;
    assert lines[0] in lines && Terminated(lines[0]);
  }

  lemma {:induction false} BodiesAlike(p: seq<string>, q: seq<string>, olds: nat, news: nat)
    requires AllTerminated(p) && AllTerminated(q)
    requires ReadBody(p, olds, news).Some? && Calm(ReadBody(p, olds, news).value)
    requires ReadBody(q, olds, news).Some? && Calm(ReadBody(q, olds, news).value)
    requires SameTail(Norm(p), Norm(q))
    ensures var es, fs := ReadBody(p, olds, news).value, ReadBody(q, olds, news).value;
            AlikeEdits(es, fs) && SameTail(Norm(p[|es|..]), Norm(q[|es|..]))
    decreases |p|
  {
    hide *;
    if olds == 0 && news == 0 {
      NothingRead(p);
      NothingRead(q);
    } else {
      ReadBodyPeel(p, olds, news);
      ReadBodyPeel(q, olds, news);
      var es, fs := ReadBody(p, olds, news).value, ReadBody(q, olds, news).value;
      NormalEdit(es[0]);
      NormalEdit(fs[0]);
      var m, n := NormalLine(Body(p[0])).value, NormalLine(Body(q[0])).value;
      NormCons(p, m);
      NormCons(q, n);
      SameTailStep(m, Norm(p[1..]), n, Norm(q[1..]));
      SameNormalEdit(es[0], fs[0]);
      AlikeKinds(es[0], fs[0]);
      BodiesAlike(p[1..], q[1..], if es[0].Add? then olds else olds - 1, if es[0].Drop? then news else news - 1);
      AlikeCons(es, fs);
    }
  }

  lemma NothingRead(lines: seq<string>)
    ensures ReadBody(lines, 0, 0) == Some([]) && lines[0..] == lines && AlikeEdits([], [])
  {
  }

  lemma AlikeKinds(e: Edit, f: Edit)
    requires AlikeEdit(e, f)
    ensures (e.Keep? <==> f.Keep?) && (e.Drop? <==> f.Drop?)
  {
  }

  lemma AlikeCons(es: seq<Edit>, fs: seq<Edit>)
    requires es != [] && fs != [] && AlikeEdit(es[0], fs[0]) && AlikeEdits(es[1..], fs[1..])
    ensures AlikeEdits(es, fs) && |es| == |fs|
  {
    hide AlikeEdit;
    forall i | 0 <= i < |es| ensures AlikeEdit(es[i], fs[i]) {
      if i > 0 { assert es[i] == es[1..][i - 1] && fs[i] == fs[1..][i - 1]; }
    }
  }

  function HunksOf(lines: seq<string>): seq<Hunk> {
    match ReadPatch(lines) case None => [] case Some(parts) => Hunks(parts)
  }

  lemma TameHead(lines: seq<string>)
    requires Tame(lines) && lines != []
    ensures Terminated(lines[0]) && !TabbedHeader(lines[0])
  {
    hide TabbedHeader, ReadPatch, QuietPart, Terminated;
    assert lines[0] in lines;
  }

  lemma QuietCons(part: Part, rest: seq<Part>)
    requires forall i | 0 <= i < |[part] + rest| :: QuietPart(([part] + rest)[i])
    ensures QuietPart(part) && forall i | 0 <= i < |rest| :: QuietPart(rest[i])
  {
    hide QuietPart;
    var all := [part] + rest;
    assert all[0] == part && forall i | 0 <= i < |rest| :: all[i + 1] == rest[i];
  }

  lemma SuffixTame(lines: seq<string>, n: nat)
    requires AllTerminated(lines) && (forall l | l in lines :: !TabbedHeader(l)) && n <= |lines|
    ensures AllTerminated(lines[n..]) && forall l | l in lines[n..] :: !TabbedHeader(l)
  {
    hide TabbedHeader, Terminated;
    assert forall l | l in lines[n..] :: l in lines;
    assert forall i | 0 <= i < |lines[n..]| :: lines[n..][i] == lines[n + i];
  }

  lemma TameParts(lines: seq<string>, n: nat, part: Part, rest: seq<Part>)
    requires Tame(lines) && n <= |lines|
    requires ReadPatch(lines) == Some([part] + rest) && ReadPatch(lines[n..]) == Some(rest)
    ensures Tame(lines[n..]) && QuietPart(part)
    ensures HunksOf(lines) == PartHunks(part) + HunksOf(lines[n..])
  {
    hide TabbedHeader, ReadPatch, QuietPart, AllTerminated, PartHunks, Hunks;
    QuietCons(part, rest);
    AddHunks(part, rest);
    SuffixTame(lines, n);
  }

  lemma TameNoise(lines: seq<string>)
    requires Tame(lines) && lines != [] && HunkHeader(lines[0]).None?
    ensures Tame(lines[1..]) && HunksOf(lines) == HunksOf(lines[1..])
  {
    hide HunkHeader, Tame, HunksOf;
    assert ReadPatch(lines).Some? by { TameReads(lines); }
    TameParts(lines, 1, Noise(lines[0]), ReadPatch(lines[1..]).value);
    NoGap(PartHunks(Noise(lines[0])), HunksOf(lines[1..]));
  }

  lemma TameReads(lines: seq<string>)
    requires Tame(lines)
    ensures ReadPatch(lines).Some? && AllTerminated(lines)
  {
  }

  lemma TameHunk(lines: seq<string>)
    requires Tame(lines) && lines != [] && HunkHeader(lines[0]).Some?
    ensures var h := HunkHeader(lines[0]).value;
            var body := ReadBody(lines[1..], h.before.Count(), h.after.Count());
            && body.Some? && Calm(body.value) && AllTerminated(lines[1..])
            && Tame(lines[1..][|body.value|..])
            && HunksOf(lines) == [Hunk(h.before.First() - 1, body.value)] + HunksOf(lines[1..][|body.value|..])
  {
    hide HunkHeader, Tame, HunksOf, ReadBody, Terminated, HeaderLike;
    TameReads(lines);
    var h := HunkHeader(lines[0]).value;
    var edits := ReadBody(lines[1..], h.before.Count(), h.after.Count()).value;
    var n := 1 + |edits|;
    assert lines[1..][|edits|..] == lines[n..];
    TameParts(lines, n, Block(lines[0], edits), ReadPatch(lines[n..]).value);
    assert forall i | 0 <= i < |lines[1..]| :: lines[1..][i] == lines[i + 1];
  }

  lemma SameTailSymmetric(a: seq<string>, b: seq<string>)
    requires SameTail(a, b)
    ensures SameTail(b, a)
  {
  }

  lemma NormDropped(lines: seq<string>)
    requires lines != [] && NormalLine(Body(lines[0])).None?
    ensures Norm(lines) == Norm(lines[1..])
  {
    NoGap([], Norm(lines[1..]));
  }

  lemma NoHeaderInBlank()
    ensures HunkHeader("").None?
  {
  }

  lemma NothingToRead()
    ensures HunksOf([]) == [] && Norm([]) == []
  {
  }

  /** Blank normal lines hold no hunk. */
  lemma {:induction false} BlankNoHunks(lines: seq<string>)
    requires Tame(lines) && SameTail(Norm(lines), [])
    ensures HunksOf(lines) == []
    decreases |lines|
  {
    hide *;
    NothingToRead();
    if lines != [] {
      TameHead(lines);
      HeaderOfNormal(lines[0]);
      var n := NormalLine(Body(lines[0]));
      NoHeaderInBlank();
      if n.None? {
        NormDropped(lines);
      } else {
        NormCons(lines, n.value);
        SameTailBlank(n.value, Norm(lines[1..]));
      }
      TameNoise(lines);
      BlankNoHunks(lines[1..]);
    }
  }

  /** Patches with the same normal lines have the same hunks, up to trailing
      blanks in their texts. */
  lemma {:induction false} HunksAlike(p: seq<string>, q: seq<string>)
    requires Tame(p) && Tame(q) && SameTail(Norm(p), Norm(q))
    ensures AlikeHunks(HunksOf(p), HunksOf(q))
    decreases |p| + |q|
  {
    hide *;
    NothingToRead();
    if p == [] {
      SameTailSymmetric(Norm(p), Norm(q));
      BlankNoHunks(q);
      NoHunksAlike();
    } else if q == [] {
      BlankNoHunks(p);
      NoHunksAlike();
    } else {
      TameHead(p);
      TameHead(q);
      HeaderOfNormal(p[0]);
      HeaderOfNormal(q[0]);
      var m, n := NormalLine(Body(p[0])), NormalLine(Body(q[0]));
      if m.None? {
        TameNoise(p);
        NormDropped(p);
        HunksAlike(p[1..], q);
      } else if n.None? {
        TameNoise(q);
        NormDropped(q);
        HunksAlike(p, q[1..]);
      } else {
        NormCons(p, m.value);
        NormCons(q, n.value);
        SameTailStep(m.value, Norm(p[1..]), n.value, Norm(q[1..]));
        if HunkHeader(p[0]).None? {
          TameNoise(p);
          TameNoise(q);
          HunksAlike(p[1..], q[1..]);
        } else {
          TameHunk(p);
          TameHunk(q);
          HeaderSpans(HunkHeader(p[0]).value);
          var h := HunkHeader(p[0]).value;
          BodiesAlike(p[1..], q[1..], h.before.Count(), h.after.Count());
          var es := ReadBody(p[1..], h.before.Count(), h.after.Count()).value;
          var fs := ReadBody(q[1..], h.before.Count(), h.after.Count()).value;
          AlikeLength(es, fs);
          HunksAlike(p[1..][|es|..], q[1..][|fs|..]);
          AlikeHunksCons(Hunk(h.before.First() - 1, es), HunksOf(p[1..][|es|..]),
                         Hunk(h.before.First() - 1, fs), HunksOf(q[1..][|fs|..]));
        }
      }
    }
  }

  lemma HeaderSpans(h: Header)
    requires h.Wf()
    ensures h.before.Wf() && h.after.Wf()
  {
  }

  lemma NoHunksAlike()
    ensures AlikeHunks([], [])
  {
  }

  lemma AlikeLength(es: seq<Edit>, fs: seq<Edit>)
    requires AlikeEdits(es, fs)
    ensures |es| == |fs|
  {
  }

  lemma AlikeHunksCons(g: Hunk, gs: seq<Hunk>, h: Hunk, hs: seq<Hunk>)
    requires g.pos == h.pos && AlikeEdits(g.edits, h.edits) && AlikeHunks(gs, hs)
    ensures AlikeHunks([g] + gs, [h] + hs)
  {
    hide AlikeEdits;
  }

  // ---------- What such hunks make of one baseline

  predicate AlikeLines(a: seq<string>, b: seq<string>) {
    |a| == |b| && forall i | 0 <= i < |a| :: a[i] == b[i] || AlikeText(a[i], b[i])
  }

  /** Equal, but for trailing blanks on an inserted line. */
  predicate SameButBlanks(e: Edit, f: Edit) {
    e == f || (e.Add? && f.Add? && AlikeText(e.text, f.text))
  }

  predicate HunksSameButBlanks(gs: seq<Hunk>, hs: seq<Hunk>) {
    && |gs| == |hs|
    && forall i | 0 <= i < |gs| ::
         && gs[i].pos == hs[i].pos && |gs[i].edits| == |hs[i].edits|
         && forall k | 0 <= k < |gs[i].edits| :: SameButBlanks(gs[i].edits[k], hs[i].edits[k])
  }

  lemma AlikePeel(es: seq<Edit>, fs: seq<Edit>)
    requires AlikeEdits(es, fs) && es != []
    ensures fs != [] && AlikeEdit(es[0], fs[0]) && AlikeEdits(es[1..], fs[1..])
  {
    hide AlikeEdit;
  }

  /** Alike edits on one old side differ on inserted lines only. */
  predicate AlikeOnSides(es: seq<Edit>, fs: seq<Edit>) {
    && |es| == |fs| && |OldSide(es)| == |OldSide(fs)| && |NewSide(es)| == |NewSide(fs)|
    && (OldSide(es) == OldSide(fs) ==>
          && AlikeLines(NewSide(es), NewSide(fs))
          && forall i | 0 <= i < |es| :: SameButBlanks(es[i], fs[i]))
  }

  lemma AlikeStep(e: Edit, es: seq<Edit>, f: Edit, fs: seq<Edit>)
    requires AlikeEdit(e, f) && AlikeOnSides(es, fs)
    ensures AlikeOnSides([e] + es, [f] + fs)
  {
    hide OldSide, NewSide, AlikeText, AlikeLines;
    SidesCons(e, es);
    SidesCons(f, fs);
    if e.Add? {
      NoGap([], OldSide(es));
      NoGap([], OldSide(fs));
    } else if [e.text] + OldSide(es) == [f.text] + OldSide(fs) {
      SameHeads(e.text, OldSide(es), f.text, OldSide(fs));
    }
    OneAlike(e.text, f.text);
    if OldSide(es) == OldSide(fs) {
      AlikeLinesConcat(if e.Drop? then [] else [e.text], NewSide(es), if f.Drop? then [] else [f.text], NewSide(fs));
    }
  }

  lemma OneAlike(s: string, t: string)
    ensures AlikeText(s, t) ==> AlikeLines([s], [t])
    ensures AlikeLines([], [])
  {
  }

  lemma {:induction false} AlikeSides(es: seq<Edit>, fs: seq<Edit>)
    requires AlikeEdits(es, fs)
    ensures AlikeOnSides(es, fs)
  {
    hide *;
    AlikeLength(es, fs);
    if es == [] {
      NoEdits();
    } else {
      AlikePeel(es, fs);
      AlikeSides(es[1..], fs[1..]);
      AlikeStep(es[0], es[1..], fs[0], fs[1..]);
      assert es == [es[0]] + es[1..] && fs == [fs[0]] + fs[1..];
    }
  }

  lemma NoEdits()
    ensures AlikeOnSides([], [])
  {
  }

  lemma SameHeads(s: string, a: seq<string>, t: string, b: seq<string>)
    requires [s] + a == [t] + b
    ensures s == t && a == b
  {
    assert ([s] + a)[0] == s && ([t] + b)[0] == t;
    assert ([s] + a)[1..] == a && ([t] + b)[1..] == b;
  }

  lemma AlikeLinesConcat(a: seq<string>, b: seq<string>, c: seq<string>, d: seq<string>)
    requires AlikeLines(a, c) && AlikeLines(b, d)
    ensures AlikeLines(a + b, c + d)
  {
    hide AlikeText;
  }

  lemma AlikeSelf(a: seq<string>)
    ensures AlikeLines(a, a)
  {
  }

  lemma AlikeHunksPeel(gs: seq<Hunk>, hs: seq<Hunk>)
    requires AlikeHunks(gs, hs) && gs != []
    ensures hs != [] && gs[0].pos == hs[0].pos
    ensures AlikeEdits(gs[0].edits, hs[0].edits) && AlikeHunks(gs[1..], hs[1..])
  {
    hide AlikeEdits;
  }

  lemma SameOlds(base: seq<string>, at: nat, g: Hunk, h: Hunk)
    requires FitsAt(base, at, g) && FitsAt(base, at, h) && g.pos == h.pos
    requires AlikeEdits(g.edits, h.edits)
    ensures g.Olds() == h.Olds() && g.End() == h.End()
    ensures AlikeLines(g.News(), h.News())
    ensures |g.edits| == |h.edits| && forall k | 0 <= k < |g.edits| :: SameButBlanks(g.edits[k], h.edits[k])
  {
    hide OldSide, NewSide, AlikeText, AlikeEdit;
    AlikeSides(g.edits, h.edits);
  }

  lemma {:induction false} AlikeSplices(base: seq<string>, at: nat, gs: seq<Hunk>, hs: seq<Hunk>)
    requires FitsFrom(base, at, gs) && FitsFrom(base, at, hs) && AlikeHunks(gs, hs)
    ensures HunksSameButBlanks(gs, hs)
    ensures AlikeLines(Spliced(base, at, gs), Spliced(base, at, hs))
    decreases |gs|
  {
    hide FitsFrom, Spliced, OldSide, NewSide, AlikeEdits, AlikeHunks, AlikeText, SameButBlanks, AlikeLines;
    if gs == [] {
      NoHunksLeft(base, at, hs);
    } else {
      AlikeHunksPeel(gs, hs);
      Unfold(base, at, gs);
      Unfold(base, at, hs);
      SameOlds(base, at, gs[0], hs[0]);
      AlikeSplices(base, gs[0].End(), gs[1..], hs[1..]);
      AlikeSelf(base[at..gs[0].pos]);
      AlikeLinesConcat(base[at..gs[0].pos], gs[0].News(), base[at..hs[0].pos], hs[0].News());
      AlikeLinesConcat(base[at..gs[0].pos] + gs[0].News(), Spliced(base, gs[0].End(), gs[1..]),
                       base[at..hs[0].pos] + hs[0].News(), Spliced(base, hs[0].End(), hs[1..]));
      assert gs == [gs[0]] + gs[1..] && hs == [hs[0]] + hs[1..];
    }
  }

  lemma NoHunksLeft(base: seq<string>, at: nat, hs: seq<Hunk>)
    requires AlikeHunks([], hs) && FitsFrom(base, at, []) && FitsFrom(base, at, hs)
    ensures hs == [] && AlikeLines(Spliced(base, at, []), Spliced(base, at, hs)) && HunksSameButBlanks([], hs)
  {
  }

  // ---------- File headers before the first hunk

  /** Both file headers stand among the first `n` lines, and no hunk header does. */
  predicate HeadersFirst(lines: seq<string>, n: nat) {
    && n <= |lines|
    && (forall i | 0 <= i < n :: HunkHeader(lines[i]).None?)
    && FileHeaders(lines[..n], OLD_MARK) != [] && FileHeaders(lines[..n], NEW_MARK) != []
  }

  lemma {:induction false} UnmarkedQuiet(parts: seq<Part>)
    requires NoneMarked(PartLines(parts))
    ensures forall i | 0 <= i < |parts| :: QuietPart(parts[i])
  {
    if parts != [] {
      hide Marked, HeaderLike;
      var rest := parts[1..];
      ProperConcat(parts[0].Lines(), PartLines(rest));
      UnmarkedQuiet(rest);
      if parts[0].Block? {
        ProperConcat([parts[0].header], EditLines(parts[0].edits));
        UnmarkedEdits(parts[0].edits);
      }
      assert forall i | 1 <= i < |parts| :: parts[i] == rest[i - 1];
    }
  }

  lemma UnmarkedEdits(edits: seq<Edit>)
    requires NoneMarked(EditLines(edits))
    ensures forall e | e in edits :: !HeaderLike(e)
  {
    hide Marked, HeaderLike;
    forall e | e in edits ensures !HeaderLike(e) {
      var i :| 0 <= i < |edits| && edits[i] == e;
      assert EditLines(edits)[i] in EditLines(edits);
      EditMarked(e);
    }
  }

  lemma {:induction false} ReadNoise(lines: seq<string>, n: nat)
    requires n <= |lines| && (forall i | 0 <= i < n :: HunkHeader(lines[i]).None?)
    requires ReadPatch(lines).Some?
    ensures ReadPatch(lines[n..]).Some?
    ensures var parts := ReadPatch(lines).value;
            && |parts| >= n && parts[n..] == ReadPatch(lines[n..]).value
            && forall i | 0 <= i < n :: parts[i].Noise?
  {
    hide HunkHeader;
    if n == 0 {
      assert lines[0..] == lines;
    } else {
      ReadNoise(lines[1..], n - 1);
      var parts := ReadPatch(lines).value;
      assert lines[1..][n - 1..] == lines[n..];
      assert parts[1..] == ReadPatch(lines[1..]).value;
      assert parts[1..][n - 1..] == parts[n..];
      assert forall i | 1 <= i < n :: parts[i] == parts[1..][i - 1];
    }
  }

  /** When the only file headers come first, no body line reads as one. */
  lemma HeadersFirstQuiet(lines: seq<string>, n: nat)
    requires OneFile(lines) && HeadersFirst(lines, n) && ReadPatch(lines).Some?
    ensures forall i | 0 <= i < |ReadPatch(lines).value| :: QuietPart(ReadPatch(lines).value[i])
  {
    hide HunkHeader, FileHeaders, ReadPatch, PartLines, NoneMarked, HeaderLike;
    var parts := ReadPatch(lines).value;
    assert lines == lines[..n] + lines[n..];
    FileHeadersConcat(lines[..n], lines[n..], OLD_MARK);
    FileHeadersConcat(lines[..n], lines[n..], NEW_MARK);
    NoHeaders(lines[n..]);
    ReadNoise(lines, n);
    ReadPatchSound(lines[n..]);
    UnmarkedQuiet(parts[n..]);
    forall i | 0 <= i < |parts| ensures QuietPart(parts[i]) {
      if i >= n { assert parts[i] == parts[n..][i - n]; }
    }
  }

  // ---------- The theorem

  predicate TamePatch(patch: string) {
    LfTerminated(patch) && CrFree(patch) && Tame(Lines(patch))
  }

  lemma OutcomeSplice(baseline: string, patch: string, path: string, candidate: string)
    requires Outcome(baseline, patch, path) == Some(candidate)
    ensures FitsFrom(Lines(baseline), 0, HunksOf(Lines(patch)))
    ensures candidate == Join(Spliced(Lines(baseline), 0, HunksOf(Lines(patch))))
  {
    hide Lines, Join, HeadersName, NulFree, ReadPatch, Hunks, FitsFrom, Spliced;
  }

  /** Two patches of one identity that both apply to one baseline make the same
      change: the same hunks in the same places, equal line by line but for
      trailing blanks on inserted lines. */
  lemma DedupeSound(baseline: string, p: string, pathP: string, c: string, q: string, pathQ: string, d: string)
    requires TamePatch(p) && TamePatch(q) && Normalize(p) == Normalize(q)
    requires Outcome(baseline, p, pathP) == Some(c) && Outcome(baseline, q, pathQ) == Some(d)
    ensures var base, gs, hs := Lines(baseline), HunksOf(Lines(p)), HunksOf(Lines(q));
            && FitsFrom(base, 0, gs) && c == Join(Spliced(base, 0, gs))
            && FitsFrom(base, 0, hs) && d == Join(Spliced(base, 0, hs))
            && HunksSameButBlanks(gs, hs)
            && AlikeLines(Spliced(base, 0, gs), Spliced(base, 0, hs))
  {
    hide Outcome, Lines, Join, HunksOf, FitsFrom, Spliced, Normalize, Norm, Tame, AlikeLines, HunksSameButBlanks,
         AlikeHunks, SameTail, LfTerminated, CrFree;
    OutcomeSplice(baseline, p, pathP, c);
    OutcomeSplice(baseline, q, pathQ, d);
    SameIdentityLines(p, q);
    HunksAlike(Lines(p), Lines(q));
    AlikeSplices(Lines(baseline), 0, HunksOf(Lines(p)), HunksOf(Lines(q)));
  }

  /** On an LF-terminated baseline, so are the results, and their lines pair up. */
  lemma DedupeSoundLines(baseline: string, p: string, pathP: string, c: string, q: string, pathQ: string, d: string,
                         m: nat, n: nat)
    requires LfTerminated(baseline)
    requires LfTerminated(p) && CrFree(p) && (forall l | l in Lines(p) :: !TabbedHeader(l)) && HeadersFirst(Lines(p), m)
    requires LfTerminated(q) && CrFree(q) && (forall l | l in Lines(q) :: !TabbedHeader(l)) && HeadersFirst(Lines(q), n)
    requires Normalize(p) == Normalize(q)
    requires Outcome(baseline, p, pathP) == Some(c) && Outcome(baseline, q, pathQ) == Some(d)
    ensures AlikeLines(Lines(c), Lines(d))
  {
    hide Lines, Join, HunksOf, FitsFrom, Spliced, Normalize, AlikeLines, HunksSameButBlanks, HeadersFirst,
         TabbedHeader, HeaderPath, FileHeaders, LfTerminated, CrFree, NulFree;
    AcceptedTame(baseline, p, pathP, m);
    AcceptedTame(baseline, q, pathQ, n);
    DedupeSound(baseline, p, pathP, c, q, pathQ, d);
    CandidateSplit(baseline, p, pathP);
    CandidateSplit(baseline, q, pathQ);
  }

  lemma AcceptedTame(baseline: string, patch: string, path: string, n: nat)
    requires LfTerminated(patch) && CrFree(patch) && (forall l | l in Lines(patch) :: !TabbedHeader(l))
    requires HeadersFirst(Lines(patch), n) && Outcome(baseline, patch, path).Some?
    ensures TamePatch(patch)
  {
    hide Lines, Join, TabbedHeader, HeadersFirst, HeaderPath, FileHeaders, Hunks, FitsFrom, Spliced, ReadPatch,
         NulFree, QuietPart;
    LinesOfTerminated(patch);
    HeadersFirstQuiet(Lines(patch), n);
  }

  lemma CandidateSplit(baseline: string, patch: string, path: string)
    requires LfTerminated(baseline) && LfTerminated(patch) && NulFree(patch) && NulFree(baseline)
    requires Outcome(baseline, patch, path).Some?
    ensures FitsFrom(Lines(baseline), 0, HunksOf(Lines(patch)))
    ensures var out := Spliced(Lines(baseline), 0, HunksOf(Lines(patch))); Lines(Join(out)) == out
  {
    hide Lines, Join, ReadPatch, Hunks, FitsFrom, Spliced, NulFree, LfTerminated, HeadersName, Undo.HunksTerminated,
         WellSplit, Undo.AppendsToOpenEnd;
    var hs := HunksOf(Lines(patch));
    OutcomeSplice(baseline, patch, path, Outcome(baseline, patch, path).value);
    Undo.LayoutTerminated(patch);
    LinesWellSplit(baseline);
    LinesOfTerminated(baseline);
    ClosedEnd(Lines(baseline), hs);
    Undo.SplicedWellSplit(Lines(baseline), 0, hs);
    LinesOfJoin(Spliced(Lines(baseline), 0, hs));
  }

  lemma ClosedEnd(base: seq<string>, hs: seq<Hunk>)
    requires AllTerminated(base)
    ensures !Undo.AppendsToOpenEnd(base, hs)
  {
  }
}
