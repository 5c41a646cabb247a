/** Which structured edits the builder takes, said without its own steps. */
module Edits {
  import opened Text
  import Decimal
  import opened Octets
  import U = Unicode
  import opened Unified
  import opened Applier
  import opened HeaderNames
  import opened Printer
  import opened Grouping
  import opened Builder
  import opened Occurrences

  function Codes(s: string): (m: U.Message)
    ensures |m| == |s|
  {
    seq(|s|, i requires 0 <= i < |s| => s[i] as int)
  }

  /** The length that the limits are about is that of the UTF-8 encoding. */
  lemma {:induction false} Utf8LengthIs(s: string)
    ensures Utf8Length(s) == |U.Encode(Codes(s))|
  {
    if s != "" {
      Utf8LengthIs(s[1..]);
      assert Codes(s)[1..] == Codes(s[1..]);
    }
  }

  /** Lines that end in a line feed, without NUL and carriage return. */
  predicate LfText(s: string) { s != "" && s[|s| - 1] == '\n' && forall c | c in s :: c != '\0' && c != '\r' }

  ghost predicate TextOk(s: string) { LfText(s) && |U.Encode(Codes(s))| <= 256_000 }

  predicate AtLineStart(s: string, i: nat) { i == 0 || (i <= |s| && s[i - 1] == '\n') }

  /** The text occurs, and every other occurrence begins inside that one. */
  ghost predicate FirstAt(baseline: string, oldText: string, i: nat) {
    Occurs(baseline, oldText, i) && forall j: nat | Occurs(baseline, oldText, j) :: i <= j < i + |oldText|
  }

  ghost predicate Allowed(baseline: string, oldText: string, newText: string) {
    TextOk(oldText) && TextOk(newText) && oldText != newText && exists i: nat :: FirstAt(baseline, oldText, i) && AtLineStart(baseline, i)
  }

  /** An occurrence that no other precedes is the one that is taken. */
  lemma FirstIsIndex(s: string, word: string, i: nat)
    requires word != "" && Occurs(s, word, i) && forall j: nat | Occurs(s, word, j) :: i <= j
    ensures Count(s, word) > 0 && i == IndexOf(s, word)
  {
    hide Count, IndexOf, Occurs;
    CountZero(s, word);
    FirstOccurs(s, word);
    IndexOfFound(s, word);
    AtOrAfter(s, word, IndexOf(s, word), i);
  }

  lemma FirstAtIff(s: string, word: string)
    requires word != ""
    ensures Count(s, word) == 1 ==> FirstAt(s, word, IndexOf(s, word))
    ensures forall i | FirstAt(s, word, i) :: Count(s, word) == 1 && i == IndexOf(s, word)
  {
    hide Count, IndexOf, Occurs;
    CountIsOne(s, word);
    if Count(s, word) > 0 { FirstOccurs(s, word); }
    forall i | FirstAt(s, word, i) ensures Count(s, word) == 1 && i == IndexOf(s, word) { FirstIsIndex(s, word, i); }
  }

  lemma TextOkIff(oldText: string, newText: string)
    ensures TextOk(oldText) && TextOk(newText) && oldText != newText <==>
            EditOk(oldText, newText) && Utf8Length(oldText) <= EDIT_LIMIT && Utf8Length(newText) <= EDIT_LIMIT
  {
    hide Utf8Length;
    Utf8LengthIs(oldText);
    Utf8LengthIs(newText);
  }

  /** The checks before the diff pass exactly for two distinct, bounded texts of
      LF lines, of which the first stands at one line start of the baseline. */
  lemma PrecheckIff(baseline: string, oldText: string, newText: string)
    ensures Precheck(baseline, oldText, newText) == None <==> Allowed(baseline, oldText, newText)
  {
    hide EditOk, Utf8Length, Count, IndexOf, TextOk, FirstAt;
    TextOkIff(oldText, newText);
    if EditOk(oldText, newText) { EditNotEmpty(oldText, newText); }
    if TextOk(oldText) {
      NotEmpty(oldText);
      FirstAtIff(baseline, oldText);
      if Count(baseline, oldText) > 0 { IndexOfFound(baseline, oldText); }
    }
  }

  lemma NotEmpty(s: string)
    requires TextOk(s)
    ensures s != ""
  {
  }

  /** For a text that does not overlap itself this means that it occurs once,
      and there at a line start. */
  lemma BorderlessAllowed(baseline: string, oldText: string, newText: string)
    requires Borderless(oldText)
    ensures Allowed(baseline, oldText, newText) <==>
              && TextOk(oldText) && TextOk(newText) && oldText != newText && OccursOnce(baseline, oldText)
              && exists i: nat :: Occurs(baseline, oldText, i) && AtLineStart(baseline, i)
  {
    hide TextOk, Occurs, AtLineStart, Borderless;
    if TextOk(oldText) {
      NotEmpty(oldText);
      if exists i: nat :: FirstAt(baseline, oldText, i) && AtLineStart(baseline, i) {
        var i: nat :| FirstAt(baseline, oldText, i) && AtLineStart(baseline, i);
        forall j: nat | Occurs(baseline, oldText, j) ensures j == i { BorderlessApart(baseline, oldText, i, j); }
      }
      if OccursOnce(baseline, oldText) && exists i: nat :: Occurs(baseline, oldText, i) && AtLineStart(baseline, i) {
        var i: nat :| Occurs(baseline, oldText, i) && AtLineStart(baseline, i);
        assert FirstAt(baseline, oldText, i);
      }
    }
  }

  /** Which refusal is raised: the texts are judged before their lengths, these
      before the baseline, and the number of occurrences before their place. */
  lemma RefusalIs(baseline: string, oldText: string, newText: string)
    ensures var e := Precheck(baseline, oldText, newText);
            var textsOk := TextOk(oldText) && TextOk(newText) && oldText != newText;
            && (e == Some(NotDistinctLfText) <==> !(LfText(oldText) && LfText(newText) && oldText != newText))
            && (e == Some(TooLong) <==> LfText(oldText) && LfText(newText) && oldText != newText && !textsOk)
            && (e == Some(NotUnique) <==> textsOk && forall i: nat :: !FirstAt(baseline, oldText, i))
            && (e == Some(NotAtLineStart) <==>
                  textsOk && exists i: nat :: FirstAt(baseline, oldText, i) && !AtLineStart(baseline, i))
  {
    hide Utf8Length, EditOk, TextOk, Count, IndexOf, FirstAt;
    TextOkIff(oldText, newText);
    EditOkIff(oldText, newText);
    if EditOk(oldText, newText) {
      EditNotEmpty(oldText, newText);
      FirstAtIff(baseline, oldText);
      if Count(baseline, oldText) > 0 { IndexOfFound(baseline, oldText); }
    }
  }

  lemma EditOkIff(oldText: string, newText: string)
    ensures LfText(oldText) && LfText(newText) && oldText != newText <==> EditOk(oldText, newText)
  {
  }

  lemma EditNotEmpty(oldText: string, newText: string)
    requires EditOk(oldText, newText)
    ensures oldText != "" && oldText != newText
  {
  }

  lemma EditPassed(baseline: string, oldText: string, newText: string)
    requires Precheck(baseline, oldText, newText) == None
    ensures oldText != "" && Count(baseline, oldText) > 0 && AtLineStart(baseline, IndexOf(baseline, oldText))
  {
    hide Count, IndexOf, Utf8Length;
    IndexOfFound(baseline, oldText);
  }

  /** When the builder succeeds, and what its patch does. */
  lemma BuilderSucceedsIff(baseline: string, path: string, oldText: string, newText: string, opcodes: seq<Op>)
    requires NulFree(baseline)
    requires LfTerminated(baseline) || (opcodes != [] && opcodes[|opcodes| - 1].Equal?)
    requires Precheck(baseline, oldText, newText) == None ==>
               Transforms(opcodes, baseline, Candidate(baseline, oldText, newText))
    ensures var built := BuildSingleReplacementPatch(baseline, path, oldText, newText, opcodes);
            && (built.Ok? <==>
                  && Allowed(baseline, oldText, newText) && PlainPath(path) && AllPlain(opcodes)
                  && |U.Encode(Codes(UnifiedDiff(path, opcodes)))| <= 1_000_000)
            && (Allowed(baseline, oldText, newText) && !built.Ok? ==>
                  built == Err(if |U.Encode(Codes(UnifiedDiff(path, opcodes)))| > 1_000_000 then PatchSize else NotApplicable))
            && (built.Ok? ==> exists pre, post ::
                  && baseline == pre + oldText + post && AtLineStart(baseline, |pre|)
                  && Outcome(baseline, built.value, path) == Some(pre + newText + post))
  {
    hide EditOk, UnifiedDiff, Outcome, PlainPath, AllPlain, NulFree, Transforms, LfTerminated, Utf8Length, Allowed,
         Count, IndexOf;
    PrecheckIff(baseline, oldText, newText);
    Utf8LengthIs(UnifiedDiff(path, opcodes));
    if Precheck(baseline, oldText, newText) == None {
      EditPassed(baseline, oldText, newText);
      if Utf8Length(UnifiedDiff(path, opcodes)) <= PATCH_LIMIT {
        BuilderRoundTrips(baseline, path, oldText, newText, opcodes);
        CandidateText(baseline, oldText, newText);
        UnifiedDiffApplies(baseline, Candidate(baseline, oldText, newText), path, opcodes);
      }
      IndexOfFound(baseline, oldText);
      var start := IndexOf(baseline, oldText);
      assert baseline == baseline[..start] + oldText + baseline[start + |oldText|..];
      assert |baseline[..start]| == start;
    }
  }

  /** The first occurrence decides: an overlapping one at a line start does not
      help. */
  lemma OverlapRefused()
    ensures Occurs("xa\na\na\n", "a\na\n", 3) && AtLineStart("xa\na\na\n", 3)
    ensures Precheck("xa\na\na\n", "a\na\n", "b\n") == Some(NotAtLineStart)
  {
  }
}
