/** When the inverse of an accepted patch restores the baseline. */
module Restoring {
  import opened Text
  import opened Unified
  import opened Splice
  import opened Applier
  import opened Printer
  import opened Inverse
  import opened Undo

  // ---------- The lines of the inverse

  /** Two patch lines that differ in their first character only, unless the
      first one is a new header. */
  predicate Swapped(a: string, b: string) {
    || a == b
    || Proper(a)
    || (a != "" && b != "" && a[1..] == b[1..] && a[0] != '\n' && a[0] != '\0' && b[0] != '\n')
  }

  predicate AllSwapped(a: seq<string>, b: seq<string>) {
    |a| == |b| && forall i | 0 <= i < |a| :: Swapped(a[i], b[i])
  }

  lemma SwappedConcat(a: seq<string>, b: seq<string>, c: seq<string>, d: seq<string>)
    requires AllSwapped(a, b) && AllSwapped(c, d)
    ensures AllSwapped(a + c, b + d)
  {
    hide Swapped;
  }

  lemma SwappedLine(a: string, b: string)
    requires Swapped(a, b) && NulFree(b)
    ensures NulFree(a)
    ensures Terminated(b) ==> Terminated(a)
    ensures b != "" && '\n' !in b[..|b| - 1] ==> a != "" && '\n' !in a[..|a| - 1]
  {
    if a != b && !Proper(a) {
      assert a == [a[0]] + a[1..] && b == [b[0]] + b[1..];
      if |b| > 1 {
        assert a[..|a| - 1] == [a[0]] + b[1..][..|b| - 2];
        assert b[..|b| - 1] == [b[0]] + b[1..][..|b| - 2];
      }
    }
  }

  lemma SwappedWellSplit(a: seq<string>, b: seq<string>)
    requires AllSwapped(a, b) && WellSplit(b) && forall l | l in b :: NulFree(l)
    ensures WellSplit(a) && forall l | l in a :: NulFree(l)
  {
    hide Swapped, Terminated, NulFree;
    forall i | 0 <= i < |a|
      ensures NulFree(a[i]) && (i < |a| - 1 ==> Terminated(a[i]))
      ensures i == |a| - 1 ==> a[i] != "" && '\n' !in a[i][..|a[i]| - 1]
    {
      SwappedLine(a[i], b[i]);
    }
  }

  lemma EditsSwapped(edits: seq<Edit>)
    ensures AllSwapped(EditLines(InvertEdits(edits)), EditLines(edits))
  {
    InvertedSides(edits);
    forall i | 0 <= i < |edits| ensures Swapped(EditLines(InvertEdits(edits))[i], EditLines(edits)[i]) {
      var e := edits[i];
      assert e.Line()[1..] == e.text && InvertEdit(e).Line()[1..] == e.text;
    }
  }

  lemma OneSwapped(line: string, other: string)
    requires Proper(line)
    ensures AllSwapped([line], [other])
  {
    hide Proper;
  }

  lemma SameSwapped(lines: seq<string>)
    ensures AllSwapped(lines, lines)
  {
    hide Proper;
  }

  lemma BlockSwapped(header: string, edits: seq<Edit>, shift: int)
    ensures AllSwapped(InvertPart(Block(header, edits), shift).Lines(), [header] + EditLines(edits))
  {
    hide InverseHeader, OldSide, NewSide, Start, EditLines, InvertEdits, Proper, AllSwapped;
    var start := Start(header);
    var moved := if start + shift >= 0 then start + shift else 0;
    var line := InverseHeader(moved, |NewSide(edits)|, start, |OldSide(edits)|);
    InverseHeaderProper(moved, |NewSide(edits)|, start, |OldSide(edits)|);
    OneSwapped(line, header);
    EditsSwapped(edits);
    SwappedConcat([line], [header], EditLines(InvertEdits(edits)), EditLines(edits));
  }

  lemma PartSwapped(part: Part, shift: int)
    ensures AllSwapped(InvertPart(part, shift).Lines(), part.Lines())
  {
    hide InverseHeader, OldSide, NewSide, Start, EditLines, InvertEdits, AllSwapped;
    match part
    case Noise(_) => SameSwapped(part.Lines());
    case Block(header, edits) => BlockSwapped(header, edits, shift);
  }

  lemma {:induction false} InverseSwapped(parts: seq<Part>, shift: int)
    ensures AllSwapped(PartLines(InvertParts(parts, shift)), PartLines(parts))
    decreases |parts|
  {
    hide *;
    if parts == [] {
      NothingSwapped(shift);
    } else {
      var part, rest := parts[0], parts[1..];
      var tail := InvertParts(rest, shift + PartGrowth(part));
      PeelLines(parts, shift);
      InverseSwapped(rest, shift + PartGrowth(part));
      PartSwapped(part, shift);
      PartLinesCons(InvertPart(part, shift), tail);
      SwappedConcat(InvertPart(part, shift).Lines(), part.Lines(), PartLines(tail), PartLines(rest));
    }
  }

  lemma NothingSwapped(shift: int)
    ensures AllSwapped(PartLines(InvertParts([], shift)), PartLines([]))
  {
  }

  // ---------- The texts of its hunks

  predicate Loose(t: string) { NulFree(t) && (t != "" ==> '\n' !in t[..|t| - 1]) }

  /** Only the last text of the last hunk may lack its line feed, or be empty. */
  predicate LastMayBeOpen(edits: seq<Edit>) {
    forall k | 0 <= k < |edits| :: Loose(edits[k].text) && (k < |edits| - 1 ==> Terminated(edits[k].text))
  }

  predicate NearTexts(hs: seq<Hunk>) {
    forall i | 0 <= i < |hs| :: LastMayBeOpen(hs[i].edits) && (i < |hs| - 1 ==> TextsTerminated(hs[i].edits))
  }

  lemma TextOfLine(e: Edit)
    requires NulFree(e.Line()) && '\n' !in e.Line()[..|e.Line()| - 1]
    ensures Loose(e.text)
    ensures Terminated(e.Line()) ==> Terminated(e.text)
  {
    var l := e.Line();
    assert l == [l[0]] + e.text;
    if e.text != "" { assert l[..|l| - 1] == [l[0]] + e.text[..|e.text| - 1]; }
  }

  lemma MiddleLine(header: string, ls: seq<string>, more: seq<string>, k: nat)
    requires WellSplit([header] + ls + more) && k < |ls|
    ensures ls[k] != "" && '\n' !in ls[k][..|ls[k]| - 1]
    ensures k < |ls| - 1 || more != [] ==> Terminated(ls[k])
  {
    hide *;
    var all := [header] + ls + more;
    assert all[k + 1] == ls[k];
    LineInside(all, k + 1);
  }

  lemma BlockTextAt(header: string, edits: seq<Edit>, more: seq<string>, k: nat)
    requires WellSplit([header] + EditLines(edits) + more) && k < |edits| && NulFree(EditLines(edits)[k])
    ensures Loose(edits[k].text)
    ensures k < |edits| - 1 || more != [] ==> Terminated(edits[k].text)
  {
    hide *;
    MiddleLine(header, EditLines(edits), more, k);
    TextOfLine(edits[k]);
  }

  lemma LineInside(lines: seq<string>, k: nat)
    requires WellSplit(lines) && k < |lines|
    ensures lines[k] != "" && '\n' !in lines[k][..|lines[k]| - 1]
    ensures k < |lines| - 1 ==> Terminated(lines[k])
  {
  }

  lemma BlockTexts(header: string, edits: seq<Edit>, more: seq<string>)
    requires WellSplit([header] + EditLines(edits) + more)
    requires forall l | l in EditLines(edits) :: NulFree(l)
    ensures LastMayBeOpen(edits)
    ensures more != [] ==> TextsTerminated(edits)
  {
    hide Terminated, NulFree, WellSplit, Loose;
    forall k | 0 <= k < |edits|
      ensures Loose(edits[k].text) && (k < |edits| - 1 || more != [] ==> Terminated(edits[k].text))
    {
      assert EditLines(edits)[k] in EditLines(edits);
      BlockTextAt(header, edits, more, k);
    }
  }

  lemma NearCons(part: Part, rest: seq<Part>)
    requires NearTexts(Hunks(rest))
    requires part.Block? ==> LastMayBeOpen(part.edits) && (Hunks(rest) != [] ==> TextsTerminated(part.edits))
    ensures NearTexts(Hunks([part] + rest))
  {
    hide HunkHeader, LastMayBeOpen, TextsTerminated;
    AddHunks(part, rest);
  }

  lemma SplitLines(part: Part, rest: seq<Part>)
    requires WellSplit(PartLines([part] + rest)) && forall l | l in PartLines([part] + rest) :: NulFree(l)
    ensures WellSplit(part.Lines() + PartLines(rest)) && WellSplit(PartLines(rest))
    ensures forall l | l in PartLines(rest) || l in part.Lines() :: NulFree(l)
  {
    hide NulFree, WellSplit;
    PartLinesCons(part, rest);
    var lines := part.Lines() + PartLines(rest);
    SuffixWellSplit(lines, |part.Lines()|);
    assert lines[|part.Lines()|..] == PartLines(rest);
  }

  lemma {:induction false} NearOfParts(parts: seq<Part>)
    requires WellSplit(PartLines(parts)) && forall l | l in PartLines(parts) :: NulFree(l)
    ensures NearTexts(Hunks(parts))
  {
    hide *;
    if parts == [] {
      NoNearTexts();
    } else {
      var part, rest := parts[0], parts[1..];
      assert parts == [part] + rest;
      SplitLines(part, rest);
      NearOfParts(rest);
      if part.Block? {
        BlockLinesAre(part);
        BlockTexts(part.header, part.edits, PartLines(rest));
        LinesOfRest(rest);
      }
      NearCons(part, rest);
    }
  }

  lemma NoNearTexts()
    ensures NearTexts(Hunks([]))
  {
  }

  lemma BlockLinesAre(part: Part)
    requires part.Block?
    ensures part.Lines() == [part.header] + EditLines(part.edits)
    ensures forall l | l in EditLines(part.edits) :: l in part.Lines()
  {
    hide EditLines;
  }

  lemma LinesOfRest(parts: seq<Part>)
    ensures PartLines(parts) == [] ==> Hunks(parts) == []
  {
  }

  // ---------- Joining lines of which some may be empty

  lemma {:induction false} LooseJoined(ls: seq<string>)
    requires forall i | 0 <= i < |ls| :: ls[i] == "" || IsLine(ls[i])
    ensures |Lines(Join(ls))| <= |ls|
    ensures (exists j | 0 <= j < |ls| :: ls[j] == "") ==> |Lines(Join(ls))| < |ls|
    ensures (exists j | 0 <= j < |ls| - 1 :: !Terminated(ls[j])) ==> |Lines(Join(ls))| < |ls|
  {
    hide Terminated, Join, Lines, IsLine;
    if ls == [] {
      JoinNone();
    } else {
      var l, rest := ls[0], ls[1..];
      assert ls == [l] + rest;
      JoinCons(l, rest);
      LooseJoined(rest);
      assert forall j | 0 < j < |ls| :: ls[j] == rest[j - 1];
      LooseStep(l, Join(rest), |rest|);
      if l != "" && Terminated(l) {
        forall j | 0 <= j < |ls| - 1 && !Terminated(ls[j]) ensures |Lines(Join(ls))| < |ls| {
          assert !Terminated(rest[j - 1]);
        }
        forall j | 0 <= j < |ls| && ls[j] == "" ensures |Lines(Join(ls))| < |ls| {
          assert rest[j - 1] == "";
        }
      }
    }
  }

  /** What one more line adds to the count. */
  lemma LooseStep(l: string, t: string, n: nat)
    requires (l == "" || IsLine(l)) && |Lines(t)| <= n
    ensures l == "" ==> |Lines(l + t)| <= n
    ensures l != "" && Terminated(l) ==> |Lines(l + t)| == 1 + |Lines(t)|
    ensures l != "" && !Terminated(l) ==> |Lines(l + t)| == if t == "" then 1 else |Lines(t)|
  {
    hide Lines;
    if l == "" {
      assert l + t == t;
    } else if Terminated(l) {
      LineEndOfLine(l, t);
      LinesOfCons(l, t);
    } else if t == "" {
      LineEndOfLine(l, t);
      LinesOfCons(l, t);
      JoinNone();
    } else {
      OpenHasNoLf(l);
      LinesOfOpen(l, t);
    }
  }

  // ---------- The last hunk

  /** The patch ends in an inserted line without line feed that is empty, or
      that does not become the last line. */
  predicate Dangling(base: seq<string>, hs: seq<Hunk>) {
    && hs != [] && hs[|hs| - 1].edits != []
    && var h := hs[|hs| - 1];
       var e := h.edits[|h.edits| - 1];
       e.Add? && !Terminated(e.text) && (e.text == "" || h.End() < |base|)
  }

  lemma SnocCons(edits: seq<Edit>, e: Edit)
    requires edits != []
    ensures edits == [edits[0]] + edits[1..] && edits + [e] == [edits[0]] + (edits[1..] + [e])
  {
  }

  lemma SidesOne(e: Edit)
    ensures [] + [e] == [e] && OldSide([]) == [] && NewSide([]) == []
    ensures OldSide([e]) == (if e.Add? then [] else [e.text]) && NewSide([e]) == (if e.Drop? then [] else [e.text])
  {
    assert [e][1..] == [];
  }

  lemma {:induction false} SidesSnoc(edits: seq<Edit>, e: Edit)
    ensures OldSide(edits + [e]) == OldSide(edits) + (if e.Add? then [] else [e.text])
    ensures NewSide(edits + [e]) == NewSide(edits) + (if e.Drop? then [] else [e.text])
  {
    hide *;
    if edits == [] {
      SidesOne(e);
      NoGap(OldSide([]), OldSide([e]));
      NoGap(NewSide([]), NewSide([e]));
    } else {
      var d, rest := edits[0], edits[1..];
      SnocCons(edits, e);
      SidesSnoc(rest, e);
      SidesCons(d, rest);
      SidesCons(d, rest + [e]);
      Assoc(if d.Add? then [] else [d.text], OldSide(rest), if e.Add? then [] else [e.text]);
      Assoc(if d.Drop? then [] else [d.text], NewSide(rest), if e.Drop? then [] else [e.text]);
    }
  }

  /** Everything before the last hunk's new lines. */
  lemma {:induction false} FrontOf(base: seq<string>, at: nat, hs: seq<Hunk>) returns (front: seq<string>)
    requires WellSplit(base) && FitsFrom(base, at, hs) && hs != []
    requires hs[|hs| - 1].pos < |base| || !OpenEnd(base)
    requires forall k | 0 <= k < |hs| - 1 :: TextsTerminated(hs[k].edits)
    ensures var h := hs[|hs| - 1];
            && 0 <= h.pos <= h.End() <= |base| && base[h.pos..h.End()] == h.Olds()
            && Spliced(base, at, hs) == front + h.News() + base[h.End()..]
            && |front| == h.pos - at + Growth(hs, |hs| - 1)
    ensures AllTerminated(front)
    decreases |hs|
  {
    hide WellSplit, OldSide, NewSide, FitsFrom, Spliced, TextsTerminated, AllTerminated;
    Unfold(base, at, hs);
    var h, rest := hs[0], hs[1..];
    FitsFromBound(base, at, hs);
    if rest == [] {
      front := base[at..h.pos];
      SpliceNothing(base, h.End());
      SliceTerminated(base, at, h.pos);
    } else {
      assert forall k | 0 <= k < |rest| :: rest[k] == hs[k + 1];
      FitsFromOrder(base, at, hs, 0, |hs| - 1);
      SliceTerminated(base, at, h.pos);
      var more := FrontOf(base, h.End(), rest);
      front := base[at..h.pos] + h.News() + more;
      Regrouped(base[at..h.pos], h.News(), more, rest[|rest| - 1].News(), base[rest[|rest| - 1].End()..]);
      SidesTerminated(h.edits);
      AllTerminatedConcat(base[at..h.pos], h.News());
      AllTerminatedConcat(base[at..h.pos] + h.News(), more);
    }
  }

  lemma Regrouped(a: seq<string>, b: seq<string>, c: seq<string>, d: seq<string>, e: seq<string>)
    ensures a + b + (c + d + e) == a + b + c + d + e
  {
  }

  lemma LastIsOpen(hs: seq<Hunk>)
    requires NearTexts(hs) && !HunksTerminated(hs)
    ensures hs != [] && hs[|hs| - 1].edits != []
    ensures var edits := hs[|hs| - 1].edits;
            var e := edits[|edits| - 1];
            && edits == edits[..|edits| - 1] + [e] && TextsTerminated(edits[..|edits| - 1])
            && !Terminated(e.text) && Loose(e.text)
    ensures forall k | 0 <= k < |hs| - 1 :: TextsTerminated(hs[k].edits)
  {
    hide Terminated, Loose;
    var i :| 0 <= i < |hs| && !TextsTerminated(hs[i].edits);
    assert i == |hs| - 1;
    var edits := hs[i].edits;
    var e :| e in edits && !Terminated(e.text);
    var k :| 0 <= k < |edits| && edits[k] == e;
    assert k == |edits| - 1;
    forall d | d in edits[..k] ensures Terminated(d.text) {
      var m :| 0 <= m < k && edits[..k][m] == d;
      assert edits[m] == d;
    }
  }

  /** An old line without terminator is the last line of the baseline. */
  lemma OpenOld(base: seq<string>, h: Hunk, init: seq<Edit>, e: Edit)
    requires WellSplit(base) && FitsAt(base, 0, h) && h.edits == init + [e]
    requires !e.Add? && !Terminated(e.text)
    ensures h.End() == |base| && h.pos < |base| && e.text == base[|base| - 1] && OpenEnd(base)
    ensures e.text != "" && '\n' !in e.text[..|e.text| - 1]
  {
    hide OldSide, NewSide, Terminated;
    SidesSnoc(init, e);
    var olds := h.Olds();
    assert olds[|olds| - 1] == e.text;
    assert base[h.pos..h.End()][|olds| - 1] == base[h.End() - 1];
  }

  lemma FitLine(lines: seq<string>, h: Hunk, k: nat)
    requires FitsAt(lines, 0, h) && k < |h.Olds()|
    ensures h.pos + k < |lines| && lines[h.pos + k] == h.Olds()[k]
  {
    assert lines[h.pos..h.End()][k] == lines[h.pos + k];
  }

  /** With no old lines left open, an open end is only reached by inserting there. */
  lemma OpenInsertion(base: seq<string>, hs: seq<Hunk>, init: seq<Edit>, e: Edit)
    requires WellSplit(base) && FitsFrom(base, 0, hs) && hs != []
    requires hs[|hs| - 1].edits == init + [e] && TextsTerminated(init) && e.Add?
    requires hs[|hs| - 1].End() == |base| && OpenEnd(base)
    ensures AppendsToOpenEnd(base, hs)
  {
    hide OldSide, NewSide, WellSplit, TextsTerminated, FitsFrom;
    FitsFromBound(base, 0, hs);
    var h := hs[|hs| - 1];
    SidesSnoc(init, e);
    SidesTerminated(init);
    if h.Olds() != [] { FitLine(base, h, |h.Olds()| - 1); }
    assert h.News()[|h.News()| - 1] == e.text;
  }

  lemma OneOpen(front: seq<string>, text: string)
    requires AllTerminated(front) && text != "" && '\n' !in text[..|text| - 1]
    ensures WellSplit(front + [text])
  {
    hide Terminated;
  }

  lemma KeptSplit(base: seq<string>, hs: seq<Hunk>)
    requires WellSplit(base) && FitsFrom(base, 0, hs) && NearTexts(hs)
    requires !AppendsToOpenEnd(base, hs) && !Dangling(base, hs)
    ensures WellSplit(Spliced(base, 0, hs))
  {
    hide WellSplit, OldSide, NewSide, FitsFrom, Spliced, TextsTerminated, AllTerminated, NearTexts, HunksTerminated,
         AppendsToOpenEnd, Terminated;
    if HunksTerminated(hs) {
      SplicedWellSplit(base, 0, hs);
    } else {
      LastIsOpen(hs);
      FitsFromBound(base, 0, hs);
      var h := hs[|hs| - 1];
      var init, e := h.edits[..|h.edits| - 1], h.edits[|h.edits| - 1];
      SidesSnoc(init, e);
      SidesTerminated(init);
      if e.Add? {
        if OpenEnd(base) { OpenInsertion(base, hs, init, e); }
      } else {
        OpenOld(base, h, init, e);
      }
      var front := FrontOf(base, 0, hs);
      assert base[h.End()..] == [];
      LastLines(front, NewSide(init), e, base[h.End()..]);
    }
  }

  lemma LastLines(front: seq<string>, news: seq<string>, e: Edit, rest: seq<string>)
    requires AllTerminated(front) && AllTerminated(news) && rest == []
    requires e.text != "" && '\n' !in e.text[..|e.text| - 1]
    ensures WellSplit(front + (news + (if e.Drop? then [] else [e.text])) + rest)
  {
    hide Terminated;
    AllTerminatedConcat(front, news);
    if e.Drop? {
      assert front + (news + []) + rest == front + news;
      TerminatedWellSplit(front + news);
    } else {
      assert front + (news + [e.text]) + rest == front + news + [e.text];
      OneOpen(front + news, e.text);
    }
  }

  // ---------- When the inverse is refused

  lemma LastInverse(base: seq<string>, hs: seq<Hunk>)
    requires FitsFrom(base, 0, hs) && hs != []
    ensures |InvertHunks(hs, 0)| == |hs|
    ensures var n := |hs| - 1;
            var h := InvertHunks(hs, 0)[n];
            && h.pos == hs[n].pos + Growth(hs, n) && h.Olds() == hs[n].News()
            && (hs[n].End() == |base| ==> h.End() == |Spliced(base, 0, hs)|)
  {
    hide OldSide, NewSide, FitsFrom, Spliced, InvertHunks, InvertEdits;
    var n := |hs| - 1;
    InvertHunksAt(hs, 0);
    InvertedSides(hs[n].edits);
    SplicedLength(base, 0, hs);
    GrowthLast(hs, n);
  }

  /** A text in front of further lines is not one of the lines that come out. */
  lemma TextSwallowed(front: seq<string>, text: string, rest: seq<string>)
    requires AllTerminated(front) && WellSplit(rest) && rest != []
    requires !Terminated(text) && (text != "" ==> '\n' !in text[..|text| - 1])
    ensures var lines := Lines(Join(front + [text] + rest)); |lines| > |front| && lines[|front|] != text
  {
    hide Lines, Join;
    JoinConcat(front + [text], rest);
    JoinConcat(front, [text]);
    JoinCons(text, []);
    JoinNone();
    assert [text] + [] == [text] && text + "" == text;
    Assoc(Join(front), text, Join(rest));
    JoinOfTerminated(front);
    LinesConcat(Join(front), text + Join(rest));
    LinesOfJoin(rest);
    Swallowed(text, Join(rest));
  }

  lemma Swallowed(text: string, t: string)
    requires Lines(t) != [] && !Terminated(text) && (text != "" ==> '\n' !in text[..|text| - 1])
    ensures Lines(text + t) != [] && Lines(text + t)[0] != text
  {
    if text == "" {
      assert text + t == t;
      assert Lines(t)[0] == t[..LineEnd(t)];
    } else {
      OpenHasNoLf(text);
      LineEndSkips(text, t);
      assert Lines(text + t)[0] == (text + t)[..LineEnd(text + t)];
    }
  }

  lemma Mismatch(lines: seq<string>, hs: seq<Hunk>, n: nat, k: nat)
    requires n < |hs| && k < |hs[n].Olds()| && 0 <= hs[n].pos
    requires hs[n].pos + k < |lines| && lines[hs[n].pos + k] != hs[n].Olds()[k]
    ensures !FitsFrom(lines, 0, hs)
  {
    hide OldSide;
    if FitsFrom(lines, 0, hs) {
      FitsFromBound(lines, 0, hs);
      FitLine(lines, hs[n], k);
    }
  }

  /** Something runs together, or disappears, when the new lines are joined. */
  ghost predicate Unravels(base: seq<string>, hs: seq<Hunk>) { AppendsToOpenEnd(base, hs) || Dangling(base, hs) }

  lemma AppendedRefused(base: seq<string>, hs: seq<Hunk>)
    requires WellSplit(base) && FitsFrom(base, 0, hs) && NearTexts(hs) && AppendsToOpenEnd(base, hs)
    requires forall l | l in Spliced(base, 0, hs) :: l == "" || IsLine(l)
    ensures !FitsFrom(Lines(Join(Spliced(base, 0, hs))), 0, InvertHunks(hs, 0))
  {
    hide WellSplit, TextsTerminated, FitsFrom, Spliced, Lines, Join, InvertHunks, IsLine, OldSide, NewSide, Terminated;
    var out := Spliced(base, 0, hs);
    var i :| 0 <= i < |hs| && hs[i].pos == |base| && hs[i].News() != [];
    var j := AppendedGlues(base, 0, hs, i);
    LooseJoined(out);
    InverseEnd(base, hs, i);
    TooShort(Lines(Join(out)), InvertHunks(hs, 0), |hs| - 1);
  }

  lemma DanglingParts(base: seq<string>, hs: seq<Hunk>)
    requires NearTexts(hs) && Dangling(base, hs)
    ensures hs != [] && hs[|hs| - 1].edits != [] && !HunksTerminated(hs)
    ensures var h := hs[|hs| - 1];
            var e := h.edits[|h.edits| - 1];
            e.Add? && (e.text == "" || h.End() < |base|)
  {
    hide Terminated, Loose;
    var h := hs[|hs| - 1];
    assert h.edits[|h.edits| - 1] in h.edits;
  }

  lemma DanglingRefused(base: seq<string>, hs: seq<Hunk>)
    requires WellSplit(base) && FitsFrom(base, 0, hs) && NearTexts(hs) && Dangling(base, hs)
    requires !AppendsToOpenEnd(base, hs)
    requires forall l | l in Spliced(base, 0, hs) :: l == "" || IsLine(l)
    ensures !FitsFrom(Lines(Join(Spliced(base, 0, hs))), 0, InvertHunks(hs, 0))
  {
    hide *;
    DanglingParts(base, hs);
    LastIsOpen(hs);
    FitsFromBound(base, 0, hs);
    var n := |hs| - 1;
    var h := hs[n];
    FitsAtParts(base, h);
    var init, e := h.edits[..|h.edits| - 1], h.edits[|h.edits| - 1];
    if h.End() == |base| && OpenEnd(base) { OpenInsertion(base, hs, init, e); }
    SidesSnoc(init, e);
    SidesTerminated(init);
    var front := FrontOf(base, 0, hs);
    LastInverse(base, hs);
    var out, news, rest := Spliced(base, 0, hs), NewSide(init), base[h.End()..];
    AroundText(front, news, e.text, rest);
    if h.End() == |base| {
      assert out[|front + news|] == "";
      LooseJoined(out);
      TooShort(Lines(Join(out)), InvertHunks(hs, 0), n);
    } else {
      AllTerminatedConcat(front, news);
      SuffixWellSplit(base, h.End());
      LooseText(e.text);
      TextSwallowed(front + news, e.text, rest);
      Mismatch(Lines(Join(out)), InvertHunks(hs, 0), n, |news|);
    }
  }

  lemma LooseText(t: string)
    requires Loose(t)
    ensures t != "" ==> '\n' !in t[..|t| - 1]
  {
  }

  lemma FitsAtParts(base: seq<string>, h: Hunk)
    requires FitsAt(base, 0, h)
    ensures 0 <= h.pos <= h.End() <= |base| && (h.pos == |base| ==> h.End() == |base|)
    ensures h.News() == NewSide(h.edits)
  {
  }

  lemma AroundText(front: seq<string>, news: seq<string>, text: string, rest: seq<string>)
    ensures front + (news + [text]) + rest == front + news + [text] + rest
    ensures (front + news + [text] + rest)[|front + news|] == text
    ensures (news + [text])[|news|] == text
  {
  }

  lemma AnyInverseSplices(base: seq<string>, hs: seq<Hunk>)
    requires WellSplit(base) && FitsFrom(base, 0, hs) && NearTexts(hs)
    requires forall l | l in Spliced(base, 0, hs) :: l == "" || IsLine(l)
    ensures Splicing(Lines(Join(Spliced(base, 0, hs))), 0, InvertHunks(hs, 0)) ==
              if Unravels(base, hs) then None else Some((|hs|, base))
  {
    hide WellSplit, NearTexts, FitsFrom, Spliced, Lines, Join, InvertHunks, IsLine, Dangling, AppendsToOpenEnd;
    var out := Spliced(base, 0, hs);
    InvertHunksAt(hs, 0);
    if AppendsToOpenEnd(base, hs) {
      AppendedRefused(base, hs);
    } else if Dangling(base, hs) {
      DanglingRefused(base, hs);
    } else {
      KeptSplit(base, hs);
      LinesOfJoin(out);
      SpliceInverse(base, 0, hs, [], 0);
      NoGap([], out);
      assert base[0..] == base;
    }
  }

  // ---------- On patches

  lemma {:induction false} SidesLoose(edits: seq<Edit>)
    requires LastMayBeOpen(edits)
    ensures forall l | l in NewSide(edits) :: NulFree(l) && (l == "" || IsLine(l))
  {
    hide NulFree, Terminated;
    if edits != [] {
      assert forall k | 0 <= k < |edits[1..]| :: edits[1..][k] == edits[k + 1];
      assert Loose(edits[0].text);
      SidesLoose(edits[1..]);
    }
  }

  lemma {:induction false} SplicedLoose(base: seq<string>, at: nat, hs: seq<Hunk>)
    requires FitsFrom(base, at, hs)
    requires forall l | l in base :: NulFree(l) && IsLine(l)
    requires forall i | 0 <= i < |hs| :: LastMayBeOpen(hs[i].edits)
    ensures forall l | l in Spliced(base, at, hs) :: NulFree(l) && (l == "" || IsLine(l))
    decreases |hs|
  {
    if hs != [] {
      hide NulFree, IsLine, LastMayBeOpen, OldSide, NewSide;
      var h := hs[0];
      assert forall i | 0 <= i < |hs[1..]| :: hs[1..][i] == hs[i + 1];
      SplicedLoose(base, h.End(), hs[1..]);
      SidesLoose(h.edits);
    }
  }

  lemma AnyInverseReads(patch: string)
    requires NulFree(patch) && ReadPatch(Lines(patch)).Some?
    ensures var inverse := InvertParts(Layout(patch), 0);
            && Lines(InversePatch(patch)) == PartLines(inverse)
            && ReadPatch(PartLines(inverse)) == Some(inverse)
    ensures AllWf(Layout(patch)) && NulFree(InversePatch(patch)) && NearTexts(Hunks(Layout(patch)))
  {
    hide Lines, Join, ReadPatch, InvertParts, PartLines, NulFree, WellSplit, AllSwapped, NearTexts;
    var parts := Layout(patch);
    var inverse := InvertParts(parts, 0);
    ReadPatchSound(Lines(patch));
    LinesWellSplit(patch);
    JoinLines(patch);
    JoinNulFree(Lines(patch));
    InvertPartsWf(parts, 0);
    ReadPatchOf(inverse);
    NearOfParts(parts);
    InverseSwapped(parts, 0);
    SwappedWellSplit(PartLines(inverse), Lines(patch));
    LinesOfJoin(PartLines(inverse));
    JoinNulFree(PartLines(inverse));
  }

  lemma NearLast(hs: seq<Hunk>)
    requires NearTexts(hs)
    ensures forall i | 0 <= i < |hs| :: LastMayBeOpen(hs[i].edits)
  {
    hide LastMayBeOpen, TextsTerminated;
  }

  /** The inverse of any accepted patch maps the candidate back to the baseline,
      or is refused. It is refused exactly when a swapped line upsets the file
      headers, the patch inserted after an unterminated last line, or it ends
      in an inserted line without line feed that is empty or not the last one. */
  lemma InverseRestores(baseline: string, patch: string, path: string, candidate: string)
    requires Outcome(baseline, patch, path) == Some(candidate)
    ensures Outcome(candidate, InversePatch(patch), path) ==
              if HeadersName(Lines(InversePatch(patch)), path)
                 && !Unravels(Lines(baseline), Hunks(Layout(patch)))
              then Some(baseline) else None
  {
    hide Lines, Join, ReadPatch, InvertParts, PartLines, NulFree, InversePatch, HeadersName, FitsFrom, Spliced,
         Hunks, InvertHunks, Unravels, IsLine, NearTexts, LastMayBeOpen;
    var base, hs := Lines(baseline), Hunks(Layout(patch));
    AnyInverseReads(patch);
    InvertPartsHunks(base, 0, Layout(patch), 0);
    BaselineLines(baseline);
    LinesWellSplit(baseline);
    NearLast(hs);
    SplicedLoose(base, 0, hs);
    JoinNulFree(Spliced(base, 0, hs));
    JoinLines(baseline);
    AnyInverseSplices(base, hs);
  }

  /** When no body line reads as a file header, before or after the swap, only
      the ends of the texts decide. */
  lemma QuietInverseRestores(baseline: string, patch: string, path: string, candidate: string)
    requires Outcome(baseline, patch, path) == Some(candidate)
    requires forall i | 0 <= i < |Layout(patch)| :: QuietBothWays(Layout(patch)[i])
    ensures Outcome(candidate, InversePatch(patch), path) ==
              if Unravels(Lines(baseline), Hunks(Layout(patch))) then None else Some(baseline)
  {
    hide Lines, ReadPatch, FileHeaders, InvertParts, PartLines, HeaderPath, QuietBothWays, InversePatch, Hunks,
         NulFree, FitsFrom, Spliced, Join, Unravels, NearTexts;
    AnyInverseReads(patch);
    ReadPatchSound(Lines(patch));
    QuietHeaders(Layout(patch), 0, OLD_MARK);
    QuietHeaders(Layout(patch), 0, NEW_MARK);
    InverseRestores(baseline, patch, path, candidate);
  }

  /** On LF-terminated texts they never do any harm. */
  lemma TerminatedNeverUnravels(baseline: string, patch: string)
    requires LfTerminated(baseline) && LfTerminated(patch) && ReadPatch(Lines(patch)).Some?
    ensures !Unravels(Lines(baseline), Hunks(Layout(patch)))
  {
    hide Lines, ReadPatch, LfTerminated, Hunks, Terminated;
    LayoutTerminated(patch);
    LinesOfTerminated(baseline);
    var hs := Hunks(Layout(patch));
    if hs != [] && hs[|hs| - 1].edits != [] {
      var edits := hs[|hs| - 1].edits;
      assert TextsTerminated(edits) && edits[|edits| - 1] in edits;
    }
  }
}
