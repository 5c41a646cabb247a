/** One structured edit, from the request to the applied patch. */
module EditSamples {
  import opened Text
  import Decimal
  import opened Unified
  import opened Applier
  import opened HeaderNames
  import opened Printer
  import opened Grouping
  import opened Builder
  import opened Occurrences
  import opened Edits
  import opened Samples

  const EDITED := [Equal(["a\n"]), Change(["b\n"], ["c\n"])]

  const EDITS := [Keep("a\n"), Drop("b\n"), Add("c\n")]

  const SECOND_LINE_PATCH := "--- a/f\n" + "+++ b/f\n" + "@@ -1,2 +1,2 @@\n" + " a\n" + "-b\n" + "+c\n"

  lemma EditedGrouped()
    ensures Grouped(EDITED) == [Shown(EDITS)]
  {
    assert Keeps(["a\n"]) == [Keep("a\n")] && Drops(["b\n"]) + Adds(["c\n"]) == [Drop("b\n"), Add("c\n")];
    assert [] + Keeps(["a\n"]) == [Keep("a\n")];
    assert [Keep("a\n")] + [Drop("b\n"), Add("c\n")] == EDITS;
    assert EDITED[1..] == [Change(["b\n"], ["c\n"])] && EDITED[1..][1..] == [];
    assert EDITS[1] in EDITS && !EDITS[1].Keep?;
    var rest := EDITED[1..];
    assert Split(rest, [Keep("a\n")]) == Split([], EDITS);
    assert Split(EDITED, []) == Split(rest, [] + Keeps(["a\n"]));
    assert Close(EDITS) == [Shown(EDITS)];
  }

  lemma NoEdits()
    ensures OldSide([]) == [] && NewSide([]) == [] && EditLines([]) == []
  {
  }

  lemma EditedSides()
    ensures OldSide(EDITS) == ["a\n", "b\n"] && NewSide(EDITS) == ["a\n", "c\n"]
    ensures EditLines(EDITS) == [" a\n", "-b\n", "+c\n"]
  {
    hide OldSide, NewSide, EditLines;
    var k, d, a := Keep("a\n"), Drop("b\n"), Add("c\n");
    assert [k] + ([d] + ([a] + [])) == EDITS;
    NoEdits();
    SidesCons(a, []);
    SidesCons(d, [a] + []);
    SidesCons(k, [d] + ([a] + []));
    SpelledLines();
  }

  lemma SpelledLines()
    ensures Keep("a\n").Line() == " a\n" && Drop("b\n").Line() == "-b\n" && Add("c\n").Line() == "+c\n"
  {
  }

  lemma ShownDigits()
    ensures Decimal.Show(1) == "1" && Decimal.Show(2) == "2"
  {
  }

  lemma RangeText(tail: string)
    ensures RangeSpan(0, 2).Spell(tail) == "1,2" + tail
  {
    hide Decimal.Show;
    ShownDigits();
    assert RangeSpan(0, 2) == Sized("1", "2");
    assert "1" + ("," + ("2" + tail)) == "1,2" + tail;
  }

  lemma TwoHeader()
    ensures HeaderLine(0, 2, 0, 2) == "@@ -1,2 +1,2 @@\n"
  {
    var end := " @@" + "\n";
    RangeText(end);
    RangeText(" +" + ("1,2" + end));
    hide RangeSpan;
    assert "1,2" + end == "1,2 @@\n" && "@@ -" + ("1,2" + (" +" + "1,2 @@\n")) == "@@ -1,2 +1,2 @@\n";
  }

  lemma EditedBlocks()
    ensures Blocks([Shown(EDITS)], 0, 0) == [Block("@@ -1,2 +1,2 @@\n", EDITS)]
  {
    hide HeaderLine, OldSide, NewSide;
    EditedSides();
    TwoHeader();
    assert [Shown(EDITS)][1..] == [];
  }

  lemma SixLines(a: string, b: string, c: string, d: string, e: string, f: string)
    ensures Join([a, b, c, d, e, f]) == a + b + c + d + e + f
  {
    FourLines(c, d, e, f);
    JoinCons(a, [b, c, d, e, f]);
    JoinCons(b, [c, d, e, f]);
    assert [a] + [b, c, d, e, f] == [a, b, c, d, e, f] && [b] + [c, d, e, f] == [b, c, d, e, f];
    assert a + (b + (c + d + e + f)) == a + b + c + d + e + f;
  }

  lemma EditedLines()
    ensures PatchLines("f", [Shown(EDITS)]) ==
              ["--- a/f\n", "+++ b/f\n", "@@ -1,2 +1,2 @@\n", " a\n", "-b\n", "+c\n"]
  {
    hide Blocks, EditLines;
    EditedBlocks();
    EditedSides();
    BlockAlone("@@ -1,2 +1,2 @@\n", EDITS);
    assert "--- " + ("a/" + "f" + "\n") == "--- a/f\n" && "+++ " + ("b/" + "f" + "\n") == "+++ b/f\n";
  }

  lemma EditedDiff()
    ensures UnifiedDiff("f", EDITED) == SECOND_LINE_PATCH
  {
    hide Grouped, Blocks, Join, PatchLines;
    EditedGrouped();
    EditedBlocks();
    EditedLines();
    SixLines("--- a/f\n", "+++ b/f\n", "@@ -1,2 +1,2 @@\n", " a\n", "-b\n", "+c\n");
  }

  lemma {:induction false} Utf8AtMost(s: string)
    ensures Utf8Length(s) <= 4 * |s|
  {
    if s != "" { Utf8AtMost(s[1..]); }
  }

  lemma ShortTextOk(s: string)
    requires LfText(s) && |s| <= 10
    ensures TextOk(s)
  {
    Utf8AtMost(s);
    Utf8LengthIs(s);
  }

  lemma OnlyThere()
    ensures FirstAt("a\nb\n", "b\n", 2)
  {
    var s := "a\nb\n";
    assert s[2..4] == "b\n";
    forall j: nat | Occurs(s, "b\n", j) ensures j == 2 { assert s[j..j + 2][0] == s[j]; }
  }

  lemma EditPasses()
    ensures Allowed("a\nb\n", "b\n", "c\n") && Candidate("a\nb\n", "b\n", "c\n") == "a\nc\n"
  {
    hide TextOk, Count, IndexOf, FirstAt;
    ShortTextOk("b\n");
    ShortTextOk("c\n");
    OnlyThere();
    assert "b\n"[0] != "c\n"[0];
    FirstAtIff("a\nb\n", "b\n");
    assert "a\nb\n"[..2] + "c\n" + "a\nb\n"[4..] == "a\nc\n";
  }

  lemma TwoLines(a: string, b: string)
    requires IsLine(a) && Terminated(a) && IsLine(b)
    ensures Lines(a + b) == [a, b]
  {
    TwoLineText(a, b);
    LinesOfJoin([a, b]);
  }

  lemma EditedTransforms()
    ensures Transforms(EDITED, "a\nb\n", "a\nc\n") && AllPlain(EDITED)
  {
    hide Lines;
    TwoLines("a\n", "b\n");
    TwoLines("a\n", "c\n");
    assert "a\n" + "b\n" == "a\nb\n" && "a\n" + "c\n" == "a\nc\n";
    assert EDITED[1..] == [Change(["b\n"], ["c\n"])] && EDITED[1..][1..] == [];
    assert OldLines(EDITED) == ["a\n"] + (["b\n"] + []) && NewLines(EDITED) == ["a\n"] + (["c\n"] + []);
  }

  /** Replacing the second of two lines. */
  lemma SecondLineSample()
    ensures BuildSingleReplacementPatch("a\nb\n", "f", "b\n", "c\n", EDITED) == Ok(SECOND_LINE_PATCH)
    ensures Outcome("a\nb\n", SECOND_LINE_PATCH, "f") == Some("a\nc\n")
  {
    hide UnifiedDiff, Outcome, PlainPath, AllPlain, Transforms, Allowed, Precheck, Candidate;
    EditPasses();
    PrecheckIff("a\nb\n", "b\n", "c\n");
    EditedTransforms();
    EditedDiff();
    FileLines();
    Utf8AtMost(SECOND_LINE_PATCH);
    BuilderRoundTrips("a\nb\n", "f", "b\n", "c\n", EDITED);
  }
}
