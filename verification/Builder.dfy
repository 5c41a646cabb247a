/** `build_single_replacement_patch`: one uniquely matched, line-aligned edit,
    printed as a unified patch and checked by applying it. */
module Builder {
  import opened Text
  import opened Applier
  import opened HeaderNames
  import opened Printer
  import opened Grouping

  datatype BuildError =
    | NotDistinctLfText
    | TooLong
    | NotUnique
    | NotAtLineStart
    | PatchSize
    | NotApplicable
    | NotRoundTrip

  const EDIT_LIMIT := 256_000
  const PATCH_LIMIT := 1_000_000

  /** Length of the UTF-8 encoding. */
  function Utf8Length(s: string): nat {
    if s == "" then 0
    else
      (if s[0] < '\U{80}' then 1 else if s[0] < '\U{800}' then 2 else if s[0] < '\U{10000}' then 3 else 4)
      + Utf8Length(s[1..])
  }

  /** `str.count`: occurrences are taken from the left and do not overlap. */
  function Count(s: string, word: string): nat
    requires word != ""
  {
    if |s| < |word| then 0
    else if word <= s then 1 + Count(s[|word|..], word)
    else Count(s[1..], word)
  }

  /** `str.index`: the first occurrence. */
  function IndexOf(s: string, word: string): nat
    requires word != "" && Count(s, word) > 0
  {
    if word <= s then 0 else 1 + IndexOf(s[1..], word)
  }

  lemma TailSlice(s: string, i: nat, j: nat)
    requires i <= j < |s|
    ensures s[1..][i..j] == s[i + 1..j + 1]
  {
  }

  lemma {:induction false} IndexOfFound(s: string, word: string)
    requires word != "" && Count(s, word) > 0
    ensures var i := IndexOf(s, word);
            && i + |word| <= |s|
            && s[i..i + |word|] == word
            && forall k | 0 <= k < i :: !(word <= s[k..])
  {
    if !(word <= s) {
      IndexOfFound(s[1..], word);
      var i := IndexOf(s[1..], word);
      TailSlice(s, i, i + |word|);
      hide Count, IndexOf;
      forall k | 0 <= k < i + 1 ensures !(word <= s[k..]) {
        if k > 0 { assert s[k..] == s[1..][k - 1..]; } else { assert s[0..] == s; }
      }
    }
  }

  predicate EditOk(oldText: string, newText: string) {
    && oldText != "" && newText != "" && oldText != newText
    && NulFree(oldText) && NulFree(newText)
    && '\r' !in oldText && '\r' !in newText
    && LfTerminated(oldText) && LfTerminated(newText)
  }

  function UnifiedDiff(path: string, ops: seq<Op>): string {
    var segments := Grouped(ops);
    if Blocks(segments, 0, 0) == [] then "" else PatchText(path, segments)
  }

  function Candidate(baseline: string, oldText: string, newText: string): string
    requires oldText != "" && Count(baseline, oldText) > 0
  {
    IndexOfFound(baseline, oldText);
    var start := IndexOf(baseline, oldText);
    baseline[..start] + newText + baseline[start + |oldText|..]
  }

  /** The checks made before the diff is taken. */
  function Precheck(baseline: string, oldText: string, newText: string): Option<BuildError> {
    if !EditOk(oldText, newText) then Some(NotDistinctLfText)
    else if Utf8Length(oldText) > EDIT_LIMIT || Utf8Length(newText) > EDIT_LIMIT then Some(TooLong)
    else if Count(baseline, oldText) != 1 then Some(NotUnique)
    else
      var start := IndexOf(baseline, oldText);
      IndexOfFound(baseline, oldText);
      if start > 0 && baseline[start - 1] != '\n' then Some(NotAtLineStart) else None
  }

  /** `opcodes` is what the diff library reports for the baseline and the candidate. */
  function BuildSingleReplacementPatch(
    baseline: string, path: string, oldText: string, newText: string, opcodes: seq<Op>)
    : Result<string, BuildError>
  {
    var failed := Precheck(baseline, oldText, newText);
    if failed.Some? then Err(failed.value)
    else
      var patch := UnifiedDiff(path, opcodes);
      if patch == "" || Utf8Length(patch) > PATCH_LIMIT then Err(PatchSize)
      else
        match Outcome(baseline, patch, path)
        case None => Err(NotApplicable)
        case Some(c) =>
          if c != Candidate(baseline, oldText, newText) then Err(NotRoundTrip) else Ok(patch)
  }

  /** An edit script from one text to another, as opcodes describe it. */
  predicate Transforms(ops: seq<Op>, before: string, after: string) {
    OldLines(ops) == Lines(before) && NewLines(ops) == Lines(after) && Stretches(ops)
  }

  /** A text that ends in a line feed, or a script that leaves its end alone. */
  predicate EndSafe(before: string, after: string, ops: seq<Op>) {
    (LfTerminated(before) && LfTerminated(after)) || (ops != [] && ops[|ops| - 1].Equal?)
  }

  /** Printing any edit script of a non-empty text, and applying the patch, gives
      exactly the script's target, also when the last line has no line feed but
      is not touched; the patch is refused exactly when the path cannot be read
      back, a deleted line starts with `-- `, or an inserted line with `++ `. */
  lemma UnifiedDiffApplies(baseline: string, target: string, path: string, ops: seq<Op>)
    requires NulFree(baseline) && NulFree(target) && baseline != "" && baseline != target
    requires Transforms(ops, baseline, target) && EndSafe(baseline, target, ops)
    ensures Outcome(baseline, UnifiedDiff(path, ops), path) ==
              if PlainPath(path) && AllPlain(ops) then Some(target) else None
    ensures UnifiedDiff(path, ops) != ""
  {
    hide Blocks, Grouped, Outcome, PatchText, PlainPath, AllPlain, Unmistakable, NulFree, Join, Lines,
         Anchored, OldLines, NewLines, SegmentOlds, SegmentNews, WellSplit, ShownTexts, LfTerminated, AllTerminated,
         OpenAtEndOnly;
    var segments := Grouped(ops);
    NoLinesNoText(baseline);
    LinesWellSplit(baseline);
    LinesWellSplit(target);
    LinesOfTerminated(baseline);
    LinesOfTerminated(target);
    assert ops != [] && ops[|ops| - 1].Equal? ==> ops[|ops| - 1] in ops;
    ScriptOpenAtEndOnly(ops);
    GroupedNeat(ops);
    GroupedSides(ops);
    GroupedAnchored(ops);
    GroupedPlain(ops);
    PrintedOutcome(baseline, target, path, segments);
    SomeBlock(baseline, target, segments);
    PatchTextNotEmpty(path, segments);
  }

  lemma NoLinesNoText(s: string)
    ensures s != "" ==> Lines(s) != []
  {
  }

  lemma SomeBlock(baseline: string, target: string, segments: seq<Segment>)
    requires SegmentOlds(segments) == Lines(baseline) && SegmentNews(segments) == Lines(target)
    requires baseline != target && Anchored(segments)
    ensures Blocks(segments, 0, 0) != []
  {
    hide Blocks, Lines, Anchored, SegmentOlds, SegmentNews;
    JoinLines(baseline);
    JoinLines(target);
    if Blocks(segments, 0, 0) == [] { NoHunkNoChange(Lines(baseline), segments); }
  }

  lemma PatchTextNotEmpty(path: string, segments: seq<Segment>)
    ensures PatchText(path, segments) != ""
  {
    hide Blocks;
  }

  // ---------- The candidate is the edit, line for line

  lemma MiddleDiffers(pre: string, a: string, b: string, post: string)
    requires a != b
    ensures pre + a + post != pre + b + post
  {
    if |a| == |b| {
      var k :| 0 <= k < |a| && a[k] != b[k];
      assert (pre + a + post)[|pre| + k] != (pre + b + post)[|pre| + k];
    }
  }

  lemma CandidateText(baseline: string, oldText: string, newText: string)
    requires Precheck(baseline, oldText, newText) == None
    requires NulFree(baseline)
    ensures var c := Candidate(baseline, oldText, newText);
            NulFree(c) && c != baseline && baseline != "" && (LfTerminated(baseline) ==> LfTerminated(c))
  {
    hide NulFree, IndexOf, Count, Utf8Length, LfTerminated;
    IndexOfFound(baseline, oldText);
    var start := IndexOf(baseline, oldText);
    var pre, post := baseline[..start], baseline[start + |oldText|..];
    assert baseline == pre + oldText + post;
    MiddleDiffers(pre, oldText, newText, post);
    MiddleNulFree(pre, oldText, newText, post);
    MiddleTerminated(pre, oldText, newText, post);
  }

  lemma MiddleNulFree(pre: string, a: string, b: string, post: string)
    requires NulFree(pre + a + post) && NulFree(b)
    ensures NulFree(pre + b + post)
  {
    hide NulFree;
    NulFreeConcat(pre + a, post);
    NulFreeConcat(pre, a);
    NulFreeConcat(pre + b, post);
    NulFreeConcat(pre, b);
  }

  lemma MiddleTerminated(pre: string, a: string, b: string, post: string)
    requires LfTerminated(b) && b != ""
    ensures LfTerminated(pre + a + post) ==> LfTerminated(pre + b + post)
  {
  }

  /** For a baseline within the size limits that ends in a line feed, or whose
      last line the opcodes leave in a closing unchanged stretch, the builder's
      own round-trip check never fails: it succeeds exactly when the path reads
      back and no changed line reads as a file header, and then the patch
      applies to exactly the edited text. */
  lemma BuilderRoundTrips(baseline: string, path: string, oldText: string, newText: string, opcodes: seq<Op>)
    requires NulFree(baseline)
    requires LfTerminated(baseline) || (opcodes != [] && opcodes[|opcodes| - 1].Equal?)
    requires Precheck(baseline, oldText, newText) == None
    requires Transforms(opcodes, baseline, Candidate(baseline, oldText, newText))
    requires Utf8Length(UnifiedDiff(path, opcodes)) <= PATCH_LIMIT
    ensures var built := BuildSingleReplacementPatch(baseline, path, oldText, newText, opcodes);
            && built != Err(NotRoundTrip)
            && (built.Ok? <==> PlainPath(path) && AllPlain(opcodes))
            && (built.Ok? ==> Outcome(baseline, built.value, path) == Some(Candidate(baseline, oldText, newText)))
  {
    hide EditOk, Candidate, UnifiedDiff, Outcome, PlainPath, AllPlain, NulFree, Transforms, LfTerminated;
    CandidateText(baseline, oldText, newText);
    UnifiedDiffApplies(baseline, Candidate(baseline, oldText, newText), path, opcodes);
  }

  /** The edit replaces whole lines: the lines before and after it are kept. */
  lemma CandidateLines(baseline: string, oldText: string, newText: string) returns (pre: string, post: string)
    requires Precheck(baseline, oldText, newText) == None
    ensures baseline == pre + oldText + post
    ensures Lines(baseline) == Lines(pre) + Lines(oldText) + Lines(post)
    ensures Lines(Candidate(baseline, oldText, newText)) == Lines(pre) + Lines(newText) + Lines(post)
  {
    hide Lines, IndexOf, Count;
    IndexOfFound(baseline, oldText);
    var start := IndexOf(baseline, oldText);
    pre, post := baseline[..start], baseline[start + |oldText|..];
    assert baseline == pre + oldText + post;
    LinesOfThree(pre, oldText, post);
    LinesOfThree(pre, newText, post);
  }

  lemma LinesOfThree(a: string, b: string, c: string)
    requires LfTerminated(a) && LfTerminated(b)
    ensures Lines(a + b + c) == Lines(a) + Lines(b) + Lines(c)
  {
    hide Lines;
    LinesConcat(a, b + c);
    LinesConcat(b, c);
    Assoc(a, b, c);
    Assoc(Lines(a), Lines(b), Lines(c));
  }
}
