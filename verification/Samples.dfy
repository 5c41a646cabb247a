/** Concrete patches on which the engine does not do what a reader would expect. */
module Samples {
  import opened Text
  import Decimal
  import opened Unified
  import opened Splice
  import opened Applier
  import opened HeaderNames
  import opened Printer
  import opened Inverse
  import opened Undo
  import opened Restoring
  import opened Posix
  import opened PatchIdentity

  /** The lines of a patch of file `f` with one hunk. */
  function OneHunk(header: string, edits: seq<Edit>): seq<string> {
    ["--- " + ("a/" + "f" + "\n"), "+++ " + ("b/" + "f" + "\n")] + PartLines([Block(header, edits)])
  }

  /** The header as written, its numbers, and lines that fit it. */
  predicate Fine(header: string, h: Header, edits: seq<Edit>) {
    && h.Wf() && header == h.Spell("\n") && Proper(header) && !Marked(header)
    && h.before.Count() == |OldSide(edits)| && h.after.Count() == |NewSide(edits)|
    && (forall e | e in edits :: Proper(e.text) && !HeaderLike(e))
  }

  lemma BodyFine(edits: seq<Edit>)
    requires forall e | e in edits :: Proper(e.text) && !HeaderLike(e)
    ensures AllProper(EditLines(edits)) && NoneMarked(EditLines(edits))
  {
    hide Proper, Marked, HeaderLike;
    forall i | 0 <= i < |edits| ensures Proper(EditLines(edits)[i]) && !Marked(EditLines(edits)[i]) {
      assert edits[i] in edits;
      EditMarked(edits[i]);
    }
  }

  lemma FileLines()
    ensures AllProper(["--- " + ("a/" + "f" + "\n"), "+++ " + ("b/" + "f" + "\n")]) && PlainPath("f")
  {
    assert PlainPath("f");
    hide Proper, PlainPath;
    FileLineProper("--- a/", "f");
    FileLineProper("+++ b/", "f");
    assert "--- " + ("a/" + "f" + "\n") == "--- a/" + ("f" + "\n");
    assert "+++ " + ("b/" + "f" + "\n") == "+++ b/" + ("f" + "\n");
  }

  lemma BlockAlone(header: string, edits: seq<Edit>)
    ensures PartLines([Block(header, edits)]) == [header] + EditLines(edits)
  {
  }

  lemma HeaderAlone(header: string)
    requires Proper(header) && !Marked(header)
    ensures AllProper([header]) && NoneMarked([header])
  {
  }

  lemma OneHunkLines(header: string, h: Header, edits: seq<Edit>)
    requires Fine(header, h, edits)
    ensures AllProper(OneHunk(header, edits)) && HeadersName(OneHunk(header, edits), "f")
    ensures HunkHeader(header) == Some(h)
  {
    hide *;
    FineParts(header, h, edits);
    ReadHeaderOf(h, "\n");
    HeaderFound(header, h);
    BodyFine(edits);
    HeaderAlone(header);
    BlockAlone(header, edits);
    ProperConcat([header], EditLines(edits));
    var body := PartLines([Block(header, edits)]);
    FileLines();
    ProperConcat(["--- " + ("a/" + "f" + "\n"), "+++ " + ("b/" + "f" + "\n")], body);
    HeadersOfPatch("f", body);
    OneHunkShape(header, edits);
  }

  lemma OneHunkShape(header: string, edits: seq<Edit>)
    ensures OneHunk(header, edits) ==
              ["--- " + ("a/" + "f" + "\n"), "+++ " + ("b/" + "f" + "\n")] + PartLines([Block(header, edits)])
  {
  }

  lemma FineParts(header: string, h: Header, edits: seq<Edit>)
    requires Fine(header, h, edits)
    ensures h.Wf() && header == h.Spell("\n") && Proper(header) && !Marked(header)
    ensures forall e | e in edits :: Proper(e.text) && !HeaderLike(e)
  {
  }

  lemma HeaderFound(header: string, h: Header)
    requires ReadHeader(header) == Some((h, "\n")) && h.Wf()
    ensures HunkHeader(header) == Some(h)
  {
  }

  /** The whole application, when the hunk fits. */
  lemma OneHunkOutcome(base: seq<string>, header: string, h: Header, edits: seq<Edit>)
    requires WellSplit(base) && (forall l | l in base :: NulFree(l)) && Fine(header, h, edits)
    requires FitsFrom(base, 0, [Hunk(h.before.First() - 1, edits)])
    ensures var patch := Join(OneHunk(header, edits));
            var hs := [Hunk(h.before.First() - 1, edits)];
            && LfTerminated(patch) && ReadPatch(Lines(patch)).Some? && Hunks(Layout(patch)) == hs
            && NulFree(Join(base)) && NulFree(patch) && HeadersName(Lines(patch), "f")
            && Outcome(Join(base), patch, "f") ==
                 (if Join(Spliced(base, 0, hs)) == Join(base) then None else Some(Join(Spliced(base, 0, hs))))
            && PosixOutcome(Join(base), patch, "f") ==
                 (if !FitsFrom(base, 0, PlacedAll(hs)) || Join(Spliced(base, 0, PlacedAll(hs))) == Join(base) then None
                  else Some(Join(Spliced(base, 0, PlacedAll(hs)))))
  {
    hide HeadersName, HunkHeader, Proper, Marked, HeaderLike, OldSide, NewSide, ReadPatch, PartLines, FitsFrom,
         Spliced, Lines, Join, Hunks, NulFree, WellSplit, LfTerminated;
    var lines := OneHunk(header, edits);
    OneHunkLines(header, h, edits);
    forall i | 0 <= i < |lines| ensures Terminated(lines[i]) && NulFree(lines[i]) {
      ProperParts(lines[i]);
    }
    JoinOfTerminated(lines);
    JoinNulFree(lines);
    LinesOfJoin(base);
    JoinNulFree(base);
    var parts := [Noise(lines[0]), Noise(lines[1]), Block(header, edits)];
    PartsOfOne(header, h, edits);
    ReadPatchOf(parts);
  }

  lemma ProperParts(line: string)
    requires Proper(line)
    ensures Terminated(line) && NulFree(line)
  {
  }

  lemma FileLinesNoise(header: string, edits: seq<Edit>)
    ensures var lines := OneHunk(header, edits);
            |lines| >= 2 && HunkHeader(lines[0]).None? && HunkHeader(lines[1]).None?
    ensures var lines := OneHunk(header, edits); lines == [lines[0]] + ([lines[1]] + PartLines([Block(header, edits)]))
  {
    hide HunkHeader, PartLines;
    var lines := OneHunk(header, edits);
    NotAHunkHeader(lines[0]);
    NotAHunkHeader(lines[1]);
  }

  lemma TwoNoise(a: string, b: string, block: Part)
    requires HunkHeader(a).None? && HunkHeader(b).None? && block.Wf()
    ensures var parts := [Noise(a), Noise(b), block];
            AllWf(parts) && PartLines(parts) == [a] + ([b] + PartLines([block])) && Hunks(parts) == PartHunks(block)
  {
    hide HunkHeader, PartHunks, PartLines, Hunks, AllWf;
    NoParts();
    Prepend(block, []);
    Prepend(Noise(b), [block]);
    assert [Noise(b)] + [block] == [Noise(b), block];
    Prepend(Noise(a), [Noise(b), block]);
    assert [Noise(a)] + [Noise(b), block] == [Noise(a), Noise(b), block];
    assert [block] + [] == [block];
    AddHunks(block, []);
    AddHunks(Noise(b), [block]);
    AddHunks(Noise(a), [Noise(b), block]);
    NoiseHunks(a);
    NoiseHunks(b);
  }

  lemma NoiseHunks(line: string)
    ensures PartHunks(Noise(line)) == [] && Noise(line).Lines() == [line]
  {
  }

  lemma PartsOfOne(header: string, h: Header, edits: seq<Edit>)
    requires HunkHeader(header) == Some(h)
    requires h.Wf() && h.before.Count() == |OldSide(edits)| && h.after.Count() == |NewSide(edits)|
    ensures var lines := OneHunk(header, edits);
            && |lines| >= 2
            && var parts := [Noise(lines[0]), Noise(lines[1]), Block(header, edits)];
               && AllWf(parts) && PartLines(parts) == lines
               && Hunks(parts) == [Hunk(h.before.First() - 1, edits)]
  {
    hide HunkHeader, OldSide, NewSide, OneHunk, PartLines, Hunks, AllWf;
    var lines := OneHunk(header, edits);
    FileLinesNoise(header, edits);
    TwoNoise(lines[0], lines[1], Block(header, edits));
  }

  // ---------- The text of such a patch

  lemma FourLines(a: string, b: string, c: string, d: string)
    ensures Join([a, b, c, d]) == a + b + c + d
  {
    hide Join;
    JoinCons(a, [b, c, d]);
    JoinCons(b, [c, d]);
    JoinCons(c, [d]);
    JoinCons(d, []);
    assert [a] + [b, c, d] == [a, b, c, d] && [b] + [c, d] == [b, c, d] && [c] + [d] == [c, d] && [d] + [] == [d];
    JoinNone();
    assert a + (b + (c + (d + ""))) == a + b + c + d;
  }

  lemma InsertionText(header: string, text: string)
    ensures Join(OneHunk(header, [Add(text)])) == "--- a/f\n" + "+++ b/f\n" + header + ("+" + text)
  {
    var a, b := "--- " + ("a/" + "f" + "\n"), "+++ " + ("b/" + "f" + "\n");
    assert a == "--- a/f\n" && b == "+++ b/f\n";
    hide Join, OneHunk, PartLines;
    OneHunkShape(header, [Add(text)]);
    BlockAlone(header, [Add(text)]);
    assert EditLines([Add(text)]) == ["+" + text];
    assert [a, b] + ([header] + ["+" + text]) == [a, b, header, "+" + text];
    FourLines(a, b, header, "+" + text);
  }

  lemma SpelledProper(h: Header)
    requires h.Wf()
    ensures Proper(h.Spell("\n")) && !Marked(h.Spell("\n"))
  {
    assert Proper("\n");
    hide Proper;
    WordProper(" @@", "\n");
    SpanProper(h.after, " @@" + "\n");
    WordProper(" +", h.after.Spell(" @@" + "\n"));
    SpanProper(h.before, " +" + h.after.Spell(" @@" + "\n"));
    WordProper("@@ -", h.before.Spell(" +" + h.after.Spell(" @@" + "\n")));
    assert h.Spell("\n")[0] == '@';
  }

  function InsertionHeader(at: char, newAt: char): Header { Header(Sized([at], "0"), Single([newAt])) }

  lemma DigitSpan(c: char)
    requires Decimal.IsDigit(c)
    ensures Decimal.IsNumeral([c]) && Decimal.Value([c]) == Decimal.DigitValue(c)
  {
    assert [c][..0] == "";
  }

  /** A hunk header of one-digit numbers whose old range is empty. */
  lemma InsertionFine(at: char, newAt: char, text: string)
    requires Decimal.IsDigit(at) && Decimal.IsDigit(newAt)
    requires Proper(text) && !("++ " <= text)
    ensures var h := InsertionHeader(at, newAt);
            && h.Wf() && h.before.First() == Decimal.DigitValue(at)
            && Fine(h.Spell("\n"), h, [Add(text)])
  {
    hide Proper, Marked;
    DigitSpan(at);
    DigitSpan(newAt);
    DigitSpan('0');
    assert "0" == ['0'];
    InsertionSides(text);
    var h := InsertionHeader(at, newAt);
    assert h.Wf() && h.before.Count() == 0 && h.after.Count() == 1;
    assert forall e | e in [Add(text)] :: e == Add(text);
    SpelledProper(h);
  }

  lemma InsertionSpelled(at: char, newAt: char)
    ensures InsertionHeader(at, newAt).Spell("\n") == "@@ -" + [at] + ",0 +" + [newAt] + " @@\n"
  {
    var end := " @@" + "\n";
    assert end == " @@\n";
    var after := [newAt] + end;
    assert "," + ("0" + (" +" + after)) == ",0 +" + after;
    assert InsertionHeader(at, newAt).Spell("\n") == "@@ -" + ([at] + ("," + ("0" + (" +" + after))));
  }

  lemma InsertionSides(text: string)
    ensures OldSide([Add(text)]) == [] && NewSide([Add(text)]) == [text]
  {
    assert [Add(text)][1..] == [];
  }

  // ---------- An insertion after a last line without LF cannot be undone

  const OPEN_PATCH := "--- a/f\n" + "+++ b/f\n" + "@@ -2,0 +2 @@\n" + "+b\n"

  lemma OpenHeader()
    ensures "@@ -" + ['2'] + ",0 +" + ['2'] + " @@\n" == "@@ -2,0 +2 @@\n"
  {
    assert "@@ -" + ['2'] == "@@ -2";
    assert "@@ -2" + ",0 +" == "@@ -2,0 +";
    assert "@@ -2,0 +" + ['2'] == "@@ -2,0 +2";
  }

  lemma OpenPatchText()
    ensures OPEN_PATCH == Join(OneHunk("@@ -2,0 +2 @@\n", [Add("b\n")]))
    ensures InsertionHeader('2', '2').Spell("\n") == "@@ -2,0 +2 @@\n"
  {
    hide Join, OneHunk;
    InsertionSpelled('2', '2');
    OpenHeader();
    InsertionText("@@ -2,0 +2 @@\n", "b\n");
    assert "+" + "b\n" == "+b\n";
  }

  lemma InsertionOutcome(base: seq<string>, at: char, newAt: char, text: string)
    requires WellSplit(base) && forall l | l in base :: NulFree(l)
    requires Decimal.IsDigit(at) && Decimal.IsDigit(newAt) && 1 <= Decimal.DigitValue(at) <= |base| + 1
    requires Proper(text) && !("++ " <= text)
    ensures var header := InsertionHeader(at, newAt).Spell("\n");
            var patch := Join(OneHunk(header, [Add(text)]));
            var k := Decimal.DigitValue(at) - 1;
            var h := Hunk(k, [Add(text)]);
            && LfTerminated(patch) && ReadPatch(Lines(patch)).Some? && Hunks(Layout(patch)) == [h]
            && Outcome(Join(base), patch, "f") ==
                 (if Join(base[..k] + [text] + base[k..]) == Join(base) then None
                  else Some(Join(base[..k] + [text] + base[k..])))
            && (k < |base| ==>
                  PosixOutcome(Join(base), patch, "f") ==
                    if Join(base[..k + 1] + [text] + base[k + 1..]) == Join(base) then None
                    else Some(Join(base[..k + 1] + [text] + base[k + 1..])))
  {
    hide *;
    var k := Decimal.DigitValue(at) - 1;
    InsertionFine(at, newAt, text);
    InsertionAt(base, k, text);
    OneHunkOutcome(base, InsertionHeader(at, newAt).Spell("\n"), InsertionHeader(at, newAt), [Add(text)]);
    if k < |base| {
      InsertionAt(base, k + 1, text);
      InsertionPlaced(k, text);
    }
  }

  lemma InsertionPlaced(k: nat, text: string)
    ensures PlacedAll([Hunk(k, [Add(text)])]) == [Hunk(k + 1, [Add(text)])]
  {
    InsertionSides(text);
    var h := Hunk(k, [Add(text)]);
    assert Inserts(h) && Placed(h) == Hunk(k + 1, [Add(text)]);
    assert PlacedAll([h])[0] == Placed(h);
  }

  lemma InsertionAt(base: seq<string>, k: nat, text: string)
    requires k <= |base|
    ensures var hs := [Hunk(k, [Add(text)])];
            FitsFrom(base, 0, hs) && Spliced(base, 0, hs) == base[..k] + [text] + base[k..]
  {
    hide *;
    var h := Hunk(k, [Add(text)]);
    InsertionFits(base, k, text);
    SpliceNothing(base, k);
    FitsCons(base, 0, h, []);
    assert [h] + [] == [h];
  }

  lemma InsertionFits(base: seq<string>, k: nat, text: string)
    requires k <= |base|
    ensures var h := Hunk(k, [Add(text)]); FitsAt(base, 0, h) && h.End() == k && h.News() == [text]
  {
    InsertionSides(text);
    assert base[k..k] == [];
  }

  /** Baseline `a` without LF: the patch that appends `b` glues the two, and its
      inverse is refused. */
  lemma OpenEndCannotUndo()
    ensures Outcome("a", OPEN_PATCH, "f") == Some("ab\n")
    ensures Outcome("ab\n", InversePatch(OPEN_PATCH), "f") == None
  {
    hide Outcome, InversePatch, OneHunk, Hunks, Layout, LfTerminated, ReadPatch, Lines;
    var base := ["a"];
    OpenPatchText();
    OneLineText("a");
    TwoLineText("a", "b\n");
    assert base[..1] + ["b\n"] + base[1..] == ["a", "b\n"];
    assert "a" + "b\n" == "ab\n";
    InsertionOutcome(base, '2', '2', "b\n");
    LinesOfJoin(base);
    InsertionSides("b\n");
    var h := Hunk(1, [Add("b\n")]);
    assert h.News() == ["b\n"] && [h][0] == h;
    assert AppendsToOpenEnd(base, [h]);
    InverseRestores("a", OPEN_PATCH, "f", "ab\n");
  }

  lemma OneLineText(a: string)
    ensures Join([a]) == a
  {
  }

  lemma TwoLineText(a: string, b: string)
    ensures Join([a, b]) == a + b
  {
    JoinCons(a, [b]);
    OneLineText(b);
    assert [a] + [b] == [a, b];
  }

  // ---------- An empty old range goes one line too early

  const EARLY_PATCH := "--- a/f\n" + "+++ b/f\n" + "@@ -1,0 +2 @@\n" + "+x\n"

  lemma EarlyHeader()
    ensures "@@ -" + ['1'] + ",0 +" + ['2'] + " @@\n" == "@@ -1,0 +2 @@\n"
  {
    assert "@@ -" + ['1'] == "@@ -1";
    assert "@@ -1" + ",0 +" == "@@ -1,0 +";
    assert "@@ -1,0 +" + ['2'] == "@@ -1,0 +2";
  }

  lemma EarlyPatchText()
    ensures EARLY_PATCH == Join(OneHunk("@@ -1,0 +2 @@\n", [Add("x\n")]))
    ensures InsertionHeader('1', '2').Spell("\n") == "@@ -1,0 +2 @@\n"
  {
    hide Join, OneHunk;
    InsertionSpelled('1', '2');
    EarlyHeader();
    InsertionText("@@ -1,0 +2 @@\n", "x\n");
    assert "+" + "x\n" == "+x\n";
  }

  lemma ThreeLineText(a: string, b: string, c: string)
    ensures Join([a, b, c]) == a + (b + c)
  {
    JoinCons(a, [b, c]);
    TwoLineText(b, c);
    assert [a] + [b, c] == [a, b, c];
  }

  /** On the two lines `a` and `b`, `@@ -1,0 +2 @@` puts the new line first;
      POSIX.1 puts it second, as the `+2` says. */
  lemma EmptyRangeOneEarly()
    ensures Outcome("a\nb\n", EARLY_PATCH, "f") == Some("x\na\nb\n")
    ensures PosixOutcome("a\nb\n", EARLY_PATCH, "f") == Some("a\nx\nb\n")
  {
    hide Outcome, PosixOutcome, OneHunk, Hunks, Layout, LfTerminated, ReadPatch, Lines, Join;
    var base := ["a\n", "b\n"];
    EarlyPatchText();
    TwoLineText("a\n", "b\n");
    assert "a\n" + "b\n" == "a\nb\n";
    ThreeLineText("x\n", "a\n", "b\n");
    assert "x\n" + ("a\n" + "b\n") == "x\na\nb\n";
    ThreeLineText("a\n", "x\n", "b\n");
    assert "a\n" + ("x\n" + "b\n") == "a\nx\nb\n";
    assert base[..0] + ["x\n"] + base[0..] == ["x\n", "a\n", "b\n"];
    assert base[..1] + ["x\n"] + base[1..] == ["a\n", "x\n", "b\n"];
    InsertionOutcome(base, '1', '2', "x\n");
  }

  // ---------- Normalizing twice

  const BLANK_PATCH := "--- f " + "\t" + "old" + "\n"

  lemma UntilTabOf(a: string, rest: string)
    requires '\t' !in a
    ensures UntilTab(a + ("\t" + rest)) == a
  {
    if a == "" {
      assert a + ("\t" + rest) == "\t" + rest;
    } else {
      assert (a + ("\t" + rest))[1..] == a[1..] + ("\t" + rest);
      assert a == [a[0]] + a[1..];
      UntilTabOf(a[1..], rest);
    }
  }

  lemma OneLineIdentity(line: string, normal: string)
    requires '\n' !in line && CrFree(line) && NormalLine(line) == Some(normal) && normal != ""
    ensures Normalize(line + "\n") == normal + "\n"
  {
    hide RStrip, UntilTab, FoldCr, FoldCrLf, NormalLine;
    FoldFixed(line + "\n");
    PiecesOfLine(line, "");
    assert "\n" + "" == "\n";
    BlankLine();
    TwoNormal(line, normal);
    PopOne([normal]);
    assert [normal] + [""] == [normal, ""];
  }

  lemma TwoNormal(line: string, normal: string)
    requires NormalLine(line) == Some(normal) && NormalLine("") == Some("")
    ensures NormalLines([line] + [""]) == [normal, ""] && Pieces("") == [""]
  {
    hide NormalLine;
    NormalLinesSnoc([line], "");
    assert [line][1..] == [];
    NoNormalLines();
    assert [normal] + [] == [normal] && [normal] + [""] == [normal, ""];
  }

  lemma HeaderLineNormal(line: string)
    requires FileHeader(line) && line[|line| - 1] == 'd'
    ensures NormalLine(line) == Some(UntilTab(line))
  {
    hide UntilTab;
    RStripFixed(line);
  }

  lemma BlankHeaderNormal()
    ensures NormalLine("--- f ") == Some("--- f")
  {
    hide UntilTab;
    assert "--- f "[..5] == "--- f";
    assert RStrip("--- f ") == RStrip("--- f");
    UntilTabShape("--- f");
  }

  /** A blank before the header's tab survives the first normalization only. */
  lemma NormalizeChangesAgain()
    ensures Normalize(BLANK_PATCH) == "--- f \n"
    ensures Normalize(Normalize(BLANK_PATCH)) == "--- f\n"
  {
    hide Normalize, UntilTab, NormalLine;
    var line := "--- f " + ("\t" + "old");
    UntilTabOf("--- f ", "old");
    HeaderLineNormal(line);
    OneLineIdentity(line, "--- f ");
    assert line + "\n" == BLANK_PATCH;
    assert "--- f " + "\n" == "--- f \n" && "--- f" + "\n" == "--- f\n";
    BlankHeaderNormal();
    OneLineIdentity("--- f ", "--- f");
  }
}
