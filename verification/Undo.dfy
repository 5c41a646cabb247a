/** The inverse patch as text: when applying it restores the baseline. */
module Undo {
  import opened Text
  import Decimal
  import opened Unified
  import opened Splice
  import opened Applier
  import opened HeaderNames
  import opened Printer
  import opened Inverse

  // ---------- Joining lines that may run together

  lemma {:induction false} LineEndSkips(l: string, t: string)
    requires '\n' !in l && t != ""
    ensures LineEnd(l + t) == |l| + LineEnd(t)
  {
    if l == "" {
      assert l + t == t;
    } else {
      assert (l + t)[1..] == l[1..] + t;
      LineEndSkips(l[1..], t);
    }
  }

  lemma LinesOfOpen(l: string, t: string)
    requires '\n' !in l && t != ""
    ensures |Lines(l + t)| == |Lines(t)|
  {
    hide LineEnd, Lines;
    LineEndSkips(l, t);
    var n := LineEnd(t);
    FirstLine(l + t);
    FirstLine(t);
    assert (l + t)[|l| + n..] == t[n..];
  }

  lemma FirstLine(s: string)
    requires s != ""
    ensures |Lines(s)| == 1 + |Lines(s[LineEnd(s)..])|
  {
  }

  lemma OpenHasNoLf(l: string)
    requires IsLine(l) && !Terminated(l)
    ensures '\n' !in l
  {
    forall i | 0 <= i < |l| ensures l[i] != '\n' {
      if i < |l| - 1 { assert l[i] == l[..|l| - 1][i]; }
    }
  }

  // ---------- When the spliced lines still end where they should

  predicate OpenEnd(base: seq<string>) { base != [] && !Terminated(base[|base| - 1]) }

  predicate TextsTerminated(edits: seq<Edit>) { forall e | e in edits :: Terminated(e.text) }

  predicate HunksTerminated(hs: seq<Hunk>) { forall i | 0 <= i < |hs| :: TextsTerminated(hs[i].edits) }

  /** Some hunk inserts after a last line that has no terminator. */
  ghost predicate AppendsToOpenEnd(base: seq<string>, hs: seq<Hunk>) {
    OpenEnd(base) && exists i | 0 <= i < |hs| :: hs[i].pos == |base| && hs[i].News() != []
  }

  lemma {:induction false} SidesTerminated(edits: seq<Edit>)
    requires TextsTerminated(edits)
    ensures AllTerminated(OldSide(edits)) && AllTerminated(NewSide(edits))
  {
    if edits != [] {
      assert edits[0] in edits && forall e | e in edits[1..] :: e in edits;
      SidesTerminated(edits[1..]);
      AllTerminatedCons(edits[0].text, OldSide(edits[1..]));
      AllTerminatedCons(edits[0].text, NewSide(edits[1..]));
      NoGap([], OldSide(edits[1..]));
      NoGap([], NewSide(edits[1..]));
    }
  }

  lemma SliceTerminated(base: seq<string>, i: nat, j: nat)
    requires WellSplit(base) && i <= j <= |base| && (j < |base| || !OpenEnd(base))
    ensures AllTerminated(base[i..j])
  {
    forall k | 0 <= k < j - i ensures Terminated(base[i..j][k]) {
      assert base[i..j][k] == base[i + k];
    }
  }

  lemma {:induction false} NothingAppended(base: seq<string>, hs: seq<Hunk>)
    requires FitsFrom(base, |base|, hs)
    requires forall i | 0 <= i < |hs| :: hs[i].pos == |base| ==> hs[i].News() == []
    ensures Spliced(base, |base|, hs) == []
    decreases |hs|
  {
    if hs != [] {
      assert hs[0].pos == |base| && hs[0].End() == |base|;
      assert forall i | 0 <= i < |hs[1..]| :: hs[1..][i] == hs[i + 1];
      NothingAppended(base, hs[1..]);
    }
  }

  lemma {:induction false} SplicedWellSplit(base: seq<string>, at: nat, hs: seq<Hunk>)
    requires WellSplit(base) && FitsFrom(base, at, hs) && HunksTerminated(hs)
    requires !AppendsToOpenEnd(base, hs)
    ensures WellSplit(Spliced(base, at, hs))
    decreases |hs|
  {
    hide OldSide, NewSide, FitsFrom, Spliced, WellSplit, Terminated, TextsTerminated, AllTerminated;
    FitsFromBound(base, at, hs);
    if hs == [] {
      SpliceNothing(base, at);
      SuffixWellSplit(base, at);
    } else {
      Unfold(base, at, hs);
      var h, rest := hs[0], hs[1..];
      assert forall i | 0 <= i < |rest| :: rest[i] == hs[i + 1];
      if h.pos == |base| && OpenEnd(base) {
        NothingAppended(base, rest);
        assert h.News() == [];
        NoGap(h.News(), Spliced(base, h.End(), rest));
        SpliceTrivial(base, at);
        SuffixWellSplit(base, at);
      } else {
        SplicedWellSplit(base, h.End(), rest);
        SliceTerminated(base, at, h.pos);
        SidesTerminated(h.edits);
        AllTerminatedConcat(base[at..h.pos], h.News());
        WellSplitConcat(base[at..h.pos] + h.News(), Spliced(base, h.End(), rest));
      }
    }
  }

  lemma SpliceNothing(base: seq<string>, at: nat)
    requires at <= |base|
    ensures FitsFrom(base, at, []) && Spliced(base, at, []) == base[at..]
  {
  }

  lemma SpliceTrivial(base: seq<string>, at: nat)
    requires at <= |base|
    ensures base[at..|base|] + [] + [] == base[at..]
  {
  }

  /** Otherwise an unterminated line stands before the last one. */
  lemma {:induction false} AppendedGlues(base: seq<string>, at: nat, hs: seq<Hunk>, i: nat) returns (j: nat)
    requires WellSplit(base) && FitsFrom(base, at, hs) && at < |base|
    requires OpenEnd(base) && i < |hs| && hs[i].pos == |base| && hs[i].News() != []
    requires forall k | 0 <= k < i :: TextsTerminated(hs[k].edits)
    ensures j < |Spliced(base, at, hs)| - 1 && !Terminated(Spliced(base, at, hs)[j])
    decreases |hs|
  {
    hide OldSide, NewSide, FitsFrom, Spliced, Terminated, TextsTerminated, WellSplit;
    Unfold(base, at, hs);
    var h, rest := hs[0], hs[1..];
    var tail := Spliced(base, h.End(), rest);
    if h.pos == |base| {
      j := |base| - 1 - at;
      assert base[at..h.pos][j] == base[|base| - 1];
      if i > 0 { SplicedNewLine(base, h.End(), rest, i - 1, 0); }
    } else {
      KeepsOpenEnd(base, h);
      assert forall k | 0 <= k < i - 1 :: rest[k] == hs[k + 1];
      var k := AppendedGlues(base, h.End(), rest, i - 1);
      j := h.pos - at + |h.News()| + k;
      SplicedTail(base, at, hs, k);
      SplicedLonger(base, at, hs);
    }
  }

  lemma SplicedLonger(base: seq<string>, at: nat, hs: seq<Hunk>)
    requires FitsFrom(base, at, hs) && hs != []
    ensures |Spliced(base, at, hs)| ==
              hs[0].pos - at + |hs[0].News()| + |Spliced(base, hs[0].End(), hs[1..])|
  {
  }

  lemma KeepsOpenEnd(base: seq<string>, h: Hunk)
    requires OpenEnd(base) && FitsAt(base, 0, h) && h.pos < |base| && TextsTerminated(h.edits)
    ensures h.End() < |base|
  {
    SidesTerminated(h.edits);
    var olds := h.Olds();
    if olds != [] {
      assert olds[|olds| - 1] == base[h.pos..h.End()][|olds| - 1] == base[h.End() - 1];
    }
  }

  // ---------- Lines of the patch, of its inverse, and of the candidate

  lemma InverseHeaderProper(start: nat, olds: nat, newStart: nat, news: nat)
    ensures var line := InverseHeader(start, olds, newStart, news); Proper(line) && !Marked(line)
  {
    var before := Sized(Decimal.Show(start), Decimal.Show(olds));
    var after := Sized(Decimal.Show(newStart), Decimal.Show(news));
    assert Proper("\n");
    hide Proper;
    WordProper(" @@", "\n");
    SpanProper(after, " @@" + "\n");
    WordProper(" +", after.Spell(" @@" + "\n"));
    SpanProper(before, " +" + after.Spell(" @@" + "\n"));
    WordProper("@@ -", before.Spell(" +" + after.Spell(" @@" + "\n")));
    assert InverseHeader(start, olds, newStart, news)[0] == '@';
  }

  lemma PeelLines(parts: seq<Part>, shift: int)
    requires parts != []
    ensures PartLines(parts) == parts[0].Lines() + PartLines(parts[1..])
    ensures InvertParts(parts, shift) ==
              [InvertPart(parts[0], shift)] + InvertParts(parts[1..], shift + PartGrowth(parts[0]))
  {
    hide InvertPart, PartGrowth;
  }

  lemma PartLinesCons(part: Part, rest: seq<Part>)
    ensures PartLines([part] + rest) == part.Lines() + PartLines(rest)
  {
    assert ([part] + rest)[1..] == rest;
  }

  // ---------- Applying the inverse

  function Layout(patch: string): seq<Part> {
    match ReadPatch(Lines(patch)) case None => [] case Some(parts) => parts
  }

  lemma TextTerminated(e: Edit)
    requires Terminated(e.Line())
    ensures Terminated(e.text)
  {
    var l := e.Line();
    assert l[1..] == e.text;
    assert l[..|l| - 1][1..] == e.text[..|e.text| - 1];
  }

  lemma BlockTerminated(header: string, edits: seq<Edit>)
    requires AllTerminated([header] + EditLines(edits))
    ensures TextsTerminated(edits)
  {
    hide Terminated;
    forall i | 0 <= i < |edits| ensures Terminated(edits[i].text) {
      assert ([header] + EditLines(edits))[i + 1] == edits[i].Line();
      TextTerminated(edits[i]);
    }
  }

  lemma {:induction false} PartsTerminated(parts: seq<Part>)
    requires AllTerminated(PartLines(parts))
    ensures HunksTerminated(Hunks(parts))
  {
    hide Terminated, HunkHeader, EditLines, TextsTerminated;
    if parts != [] {
      var part, rest := parts[0], parts[1..];
      var lines := part.Lines() + PartLines(rest);
      assert lines[..|part.Lines()|] == part.Lines() && lines[|part.Lines()|..] == PartLines(rest);
      PartsTerminated(rest);
      if part.Block? { BlockTerminated(part.header, part.edits); }
    }
  }

  lemma LayoutTerminated(patch: string)
    requires LfTerminated(patch) && ReadPatch(Lines(patch)).Some?
    ensures HunksTerminated(Hunks(Layout(patch)))
  {
    hide Lines, ReadPatch, LfTerminated, AllTerminated, Hunks, PartLines;
    LinesOfTerminated(patch);
    ReadPatchSound(Lines(patch));
    PartsTerminated(Layout(patch));
  }

  lemma BaselineLines(baseline: string)
    requires NulFree(baseline)
    ensures forall l | l in Lines(baseline) :: NulFree(l) && IsLine(l)
  {
    JoinLines(baseline);
    JoinNulFree(Lines(baseline));
    LinesWellSplit(baseline);
    var lines := Lines(baseline);
    forall l | l in lines ensures IsLine(l) {
      var i :| 0 <= i < |lines| && lines[i] == l;
      if i < |lines| - 1 { assert Terminated(lines[i]); }
    }
  }

  /** The last inverse hunk ends where the spliced lines end, if it appends. */
  lemma InverseEnd(base: seq<string>, hs: seq<Hunk>, i: nat)
    requires FitsFrom(base, 0, hs) && i < |hs| && hs[i].pos == |base|
    ensures |InvertHunks(hs, 0)| == |hs|
    ensures InvertHunks(hs, 0)[|hs| - 1].End() == |Spliced(base, 0, hs)|
  {
    hide OldSide, NewSide, FitsFrom, Spliced, InvertHunks, InvertEdits;
    var n := |hs| - 1;
    FitsFromBound(base, 0, hs);
    if i < n { FitsFromOrder(base, 0, hs, i, n); }
    InvertHunksAt(hs, 0);
    InvertedSides(hs[n].edits);
    SplicedLength(base, 0, hs);
    GrowthLast(hs, n);
  }

  lemma {:induction false} GrowthLast(hs: seq<Hunk>, n: nat)
    requires n < |hs|
    ensures Growth(hs, n + 1) == Growth(hs, n) + hs[n].Growth()
  {
    if n > 0 { GrowthLast(hs[1..], n - 1); }
  }

  lemma TooShort(lines: seq<string>, hs: seq<Hunk>, n: nat)
    requires n < |hs| && hs[n].End() > |lines|
    ensures !FitsFrom(lines, 0, hs)
  {
    if FitsFrom(lines, 0, hs) { FitsFromBound(lines, 0, hs); }
  }

  // ---------- When no body line reads as a file header, either way round

  predicate QuietBothWays(part: Part) {
    part.Block? ==> forall e | e in part.edits :: !HeaderLike(e) && !HeaderLike(InvertEdit(e))
  }

  lemma NothingMarked(lines: seq<string>, mark: string)
    requires (mark == OLD_MARK || mark == NEW_MARK) && NoneMarked(lines)
    ensures FileHeaders(lines, mark) == []
  {
    NoHeaders(lines);
  }

  lemma QuietEdits(edits: seq<Edit>)
    requires forall e | e in edits :: !HeaderLike(e) && !HeaderLike(InvertEdit(e))
    ensures NoneMarked(EditLines(edits)) && NoneMarked(EditLines(InvertEdits(edits)))
  {
    hide HeaderLike, Marked;
    InvertedSides(edits);
    forall i | 0 <= i < |edits|
      ensures !Marked(EditLines(edits)[i]) && !Marked(EditLines(InvertEdits(edits))[i])
    {
      assert edits[i] in edits;
      EditMarked(edits[i]);
      EditMarked(InvertEdit(edits[i]));
    }
  }

  lemma QuietLines(header: string, edits: seq<Edit>, mark: string)
    requires !Marked(header) && NoneMarked(EditLines(edits))
    requires mark == OLD_MARK || mark == NEW_MARK
    ensures FileHeaders([header] + EditLines(edits), mark) == []
  {
    hide Marked, EditLines, FileHeaders;
    ProperConcat([header], EditLines(edits));
    NothingMarked([header] + EditLines(edits), mark);
  }

  lemma QuietBlock(header: string, edits: seq<Edit>, shift: int, mark: string)
    requires HunkHeader(header).Some? && (mark == OLD_MARK || mark == NEW_MARK)
    requires forall e | e in edits :: !HeaderLike(e) && !HeaderLike(InvertEdit(e))
    ensures FileHeaders([header] + EditLines(edits), mark) == []
    ensures FileHeaders(InvertPart(Block(header, edits), shift).Lines(), mark) == []
  {
    hide InverseHeader, OldSide, NewSide, EditLines, InvertEdits, HeaderLike, Start, FileHeaders, HunkHeader,
         Marked, NoneMarked;
    var start := Start(header);
    var moved := if start + shift >= 0 then start + shift else 0;
    var olds, news := |OldSide(edits)|, |NewSide(edits)|;
    InverseHeaderProper(moved, news, start, olds);
    HunkHeaderUnmarked(header);
    QuietEdits(edits);
    QuietLines(header, edits, mark);
    QuietLines(InverseHeader(moved, news, start, olds), InvertEdits(edits), mark);
  }

  lemma QuietPart(part: Part, shift: int, mark: string)
    requires part.Wf() && QuietBothWays(part) && (mark == OLD_MARK || mark == NEW_MARK)
    ensures FileHeaders(InvertPart(part, shift).Lines(), mark) == FileHeaders(part.Lines(), mark)
  {
    hide HunkHeader, FileHeaders, EditLines, HeaderLike, InverseHeader, OldSide, NewSide, Start, InvertEdits;
    match part
    case Noise(_) =>
    case Block(header, edits) => QuietBlock(header, edits, shift, mark);
  }

  lemma HunkHeaderUnmarked(line: string)
    requires HunkHeader(line).Some?
    ensures !Marked(line)
  {
    if Marked(line) { NotAHunkHeader(line); }
  }

  lemma {:induction false} QuietHeaders(parts: seq<Part>, shift: int, mark: string)
    requires AllWf(parts) && (forall i | 0 <= i < |parts| :: QuietBothWays(parts[i]))
    requires mark == OLD_MARK || mark == NEW_MARK
    ensures FileHeaders(PartLines(InvertParts(parts, shift)), mark) == FileHeaders(PartLines(parts), mark)
    decreases |parts|
  {
    hide *;
    if parts == [] {
      NothingToInvert(shift);
    } else {
      var part, rest := parts[0], parts[1..];
      var tail := InvertParts(rest, shift + PartGrowth(part));
      PeelLines(parts, shift);
      PeelWf(parts);
      assert forall i | 0 <= i < |rest| :: rest[i] == parts[i + 1];
      QuietHeaders(rest, shift + PartGrowth(part), mark);
      QuietPart(part, shift, mark);
      PartLinesCons(InvertPart(part, shift), tail);
      FileHeadersConcat(part.Lines(), PartLines(rest), mark);
      FileHeadersConcat(InvertPart(part, shift).Lines(), PartLines(tail), mark);
    }
  }

  lemma NothingToInvert(shift: int)
    ensures PartLines(InvertParts([], shift)) == PartLines([])
  {
  }
}