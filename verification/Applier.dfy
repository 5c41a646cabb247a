/** `apply_single_file_unified_patch`: the nested loops, and what they accept. */
module Applier {
  import opened Text
  import opened Unified
  import opened Splice

  datatype PatchError =
    | NulByte
    | NotOneFile
    | PathDiffers
    | OutsideBaseline
    | EndedEarly
    | NewlineMarker
    | ContextExceeds
    | ContextDiffers
    | DeletionExceeds
    | DeletionDiffers
    | UnsupportedLine
    | CountsInconsistent
    | NoHunk
    | NoChange

  const OLD_MARK := "--- "
  const NEW_MARK := "+++ "

  // ---------- File headers

  /** Every line with the mark counts as a file header, wherever it stands. */
  function FileHeaders(lines: seq<string>, mark: string): seq<string> {
    if lines == [] then []
    else (if mark <= lines[0] then [lines[0]] else []) + FileHeaders(lines[1..], mark)
  }

  /** What `str.strip` removes. */
  predicate IsSpace(c: char) {
    || '\t' <= c <= '\r' || '\U{1c}' <= c <= ' ' || c == '\U{85}' || c == '\U{a0}'
    || c == '\U{1680}' || '\U{2000}' <= c <= '\U{200a}' || c == '\U{2028}' || c == '\U{2029}'
    || c == '\U{202f}' || c == '\U{205f}' || c == '\U{3000}'
  }

  function StripLeft(s: string): string {
    if s != "" && IsSpace(s[0]) then StripLeft(s[1..]) else s
  }

  function StripRight(s: string): string {
    if s != "" && IsSpace(s[|s| - 1]) then StripRight(s[..|s| - 1]) else s
  }

  function UntilTab(s: string): string {
    if s == "" || s[0] == '\t' then "" else [s[0]] + UntilTab(s[1..])
  }

  /** The path of a file header line, without its mark. */
  function HeaderPath(rest: string): string {
    var value := StripRight(StripLeft(UntilTab(rest)));
    if "a/" <= value || "b/" <= value then value[2..] else value
  }

  predicate OneFile(lines: seq<string>) {
    |FileHeaders(lines, OLD_MARK)| == 1 && |FileHeaders(lines, NEW_MARK)| == 1
  }

  lemma {:induction false} FileHeadersMarked(lines: seq<string>, mark: string)
    ensures forall i | 0 <= i < |FileHeaders(lines, mark)| :: mark <= FileHeaders(lines, mark)[i]
  {
    if lines != [] { FileHeadersMarked(lines[1..], mark); }
  }

  predicate HeadersName(lines: seq<string>, path: string) {
    && OneFile(lines)
    && var o, n := FileHeaders(lines, OLD_MARK)[0], FileHeaders(lines, NEW_MARK)[0];
       && |o| >= 4 && HeaderPath(o[4..]) == path
       && |n| >= 4 && HeaderPath(n[4..]) == path
  }

  // ---------- Meaning of the lines still to be read

  /** Hunks read and lines produced. */
  type Progress = Option<(nat, seq<string>)>

  function After(hunks: nat, lines: seq<string>, rest: Progress): Progress {
    match rest
    case None => None
    case Some((n, more)) => Some((hunks + n, lines + more))
  }

  /** What the patch lines `lines` make of the baseline from line `at` on. */
  function Reading(base: seq<string>, at: nat, lines: seq<string>): Progress {
    match ReadPatch(lines)
    case None => None
    case Some(parts) => Splicing(base, at, Hunks(parts))
  }

  function Splicing(base: seq<string>, at: nat, hs: seq<Hunk>): Progress {
    if FitsFrom(base, at, hs) then Some((|hs|, Spliced(base, at, hs))) else None
  }

  /** The same from inside a hunk that still owes `olds` old and `news` new lines. */
  function ReadingBody(base: seq<string>, at: nat, lines: seq<string>, olds: nat, news: nat): Progress {
    match ReadBody(lines, olds, news)
    case None => None
    case Some(edits) => FinishBody(base, at, edits, lines[|edits|..])
  }

  function FinishBody(base: seq<string>, at: nat, edits: seq<Edit>, lines: seq<string>): Progress {
    if Found(base, at, OldSide(edits)) then
      After(0, NewSide(edits), Reading(base, at + |OldSide(edits)|, lines))
    else None
  }

  predicate Found(base: seq<string>, at: nat, lines: seq<string>) {
    at + |lines| <= |base| && base[at..at + |lines|] == lines
  }

  lemma FoundCons(base: seq<string>, at: nat, line: string, lines: seq<string>)
    ensures Found(base, at, [line] + lines) <==>
            at < |base| && base[at] == line && Found(base, at + 1, lines)
  {
    if at + 1 + |lines| <= |base| {
      SliceCons(base, at, at + 1 + |lines|);
      HeadAndTail(base[at], base[at + 1..at + 1 + |lines|], line, lines);
    }
  }

  lemma SliceCons(base: seq<string>, i: nat, j: nat)
    requires i < j <= |base|
    ensures base[i..j] == [base[i]] + base[i + 1..j]
  {
  }

  lemma HeadAndTail(x: string, xs: seq<string>, y: string, ys: seq<string>)
    ensures [x] + xs == [y] + ys <==> x == y && xs == ys
  {
    assert ([x] + xs)[0] == x && ([x] + xs)[1..] == xs;
    assert ([y] + ys)[0] == y && ([y] + ys)[1..] == ys;
  }

  lemma AfterAfter(m: nat, a: seq<string>, n: nat, b: seq<string>, rest: Progress)
    ensures After(m, a, After(n, b, rest)) == After(m + n, a + b, rest)
  {
    if rest.Some? {
      assert a + (b + rest.value.1) == a + b + rest.value.1;
    }
  }

  lemma ReadingDone(base: seq<string>, at: nat)
    requires at <= |base|
    ensures Reading(base, at, []) == Some((0, base[at..]))
  {
  }

  lemma ReadingNoise(base: seq<string>, at: nat, lines: seq<string>)
    requires lines != [] && HunkHeader(lines[0]).None?
    ensures Reading(base, at, lines) == Reading(base, at, lines[1..])
  {
    hide HunkHeader;
    var rest := ReadPatch(lines[1..]);
    if rest.Some? {
      var parts := [Noise(lines[0])] + rest.value;
      assert parts[1..] == rest.value;
      assert Hunks(parts) == Hunks(rest.value);
    }
  }

  lemma HunksCons(header: string, edits: seq<Edit>, rest: seq<Part>)
    requires HunkHeader(header).Some?
    ensures Hunks([Block(header, edits)] + rest) ==
              [Hunk(HunkHeader(header).value.before.First() - 1, edits)] + Hunks(rest)
  {
    hide HunkHeader;
    assert ([Block(header, edits)] + rest)[1..] == rest;
  }

  lemma SplicingCons(base: seq<string>, at: nat, h: Hunk, hs: seq<Hunk>)
    requires at <= |base|
    ensures Splicing(base, at, [h] + hs) ==
              if at <= h.pos && h.End() <= |base| && base[h.pos..h.End()] == h.Olds() then
                After(1, base[at..h.pos], After(0, h.News(), Splicing(base, h.End(), hs)))
              else None
  {
    assert ([h] + hs)[1..] == hs;
    AfterAfter(1, if at <= h.pos <= |base| then base[at..h.pos] else [], 0, h.News(),
               if h.End() >= 0 then Splicing(base, h.End(), hs) else None);
  }

  lemma ReadingHunk(base: seq<string>, at: nat, lines: seq<string>)
    requires at <= |base| && lines != [] && HunkHeader(lines[0]).Some?
    ensures var h := HunkHeader(lines[0]).value;
            var pos := h.before.First() - 1;
            Reading(base, at, lines) ==
              if at <= pos <= |base| then
                After(1, base[at..pos], ReadingBody(base, pos, lines[1..], h.before.Count(), h.after.Count()))
              else None
  {
    hide HunkHeader, ReadBody, Splicing, OldSide, NewSide;
    var h := HunkHeader(lines[0]).value;
    var body := ReadBody(lines[1..], h.before.Count(), h.after.Count());
    if body.Some? {
      var tail := lines[1 + |body.value|..];
      assert lines[1..][|body.value|..] == tail;
      ReadingBlock(base, at, lines[0], body.value, ReadPatch(tail));
    }
  }

  lemma ReadingBlock(base: seq<string>, at: nat, header: string, edits: seq<Edit>, rest: Option<seq<Part>>)
    requires at <= |base| && HunkHeader(header).Some?
    ensures var pos := HunkHeader(header).value.before.First() - 1;
            var h := Hunk(pos, edits);
            rest.Some? ==>
              Splicing(base, at, Hunks([Block(header, edits)] + rest.value)) ==
                if at <= pos && h.End() <= |base| && base[pos..h.End()] == h.Olds() then
                  After(1, base[at..pos], After(0, h.News(), Splicing(base, h.End(), Hunks(rest.value))))
                else None
  {
    hide HunkHeader;
    if rest.Some? {
      HunksCons(header, edits, rest.value);
      SplicingCons(base, at, Hunk(HunkHeader(header).value.before.First() - 1, edits), Hunks(rest.value));
    }
  }

  lemma ReadingBodyDone(base: seq<string>, at: nat, lines: seq<string>)
    requires at <= |base|
    ensures ReadingBody(base, at, lines, 0, 0) == Reading(base, at, lines)
  {
    hide Reading;
    var rest := Reading(base, at, lines);
    if rest.Some? { assert [] + rest.value.1 == rest.value.1; }
  }

  /** One body line: what it consumes of the baseline, and what it produces. */
  lemma FinishBodyCons(base: seq<string>, at: nat, e: Edit, edits: seq<Edit>, lines: seq<string>)
    requires at <= |base|
    ensures FinishBody(base, at, [e] + edits, lines) ==
              if e.Add? then After(0, [e.text], FinishBody(base, at, edits, lines))
              else if at == |base| || base[at] != e.text then None
              else After(0, if e.Keep? then [base[at]] else [], FinishBody(base, at + 1, edits, lines))
  {
    hide Found, Reading;
    SidesCons(e, edits);
    FoundCons(base, at, e.text, OldSide(edits));
    var all := [e] + edits;
    AfterAfter(0, if e.Drop? then [] else [e.text], 0, NewSide(edits),
               Reading(base, at + |OldSide(all)|, lines));
    if e.Add? { assert [] + OldSide(edits) == OldSide(edits); }
    if e.Drop? { assert [] + NewSide(edits) == NewSide(edits); }
  }

  lemma ReadingBodyStep(base: seq<string>, at: nat, lines: seq<string>, olds: nat, news: nat)
    requires at <= |base| && lines != [] && (olds > 0 || news > 0)
    ensures var e := ReadEdit(lines[0]);
            ReadingBody(base, at, lines, olds, news) ==
              if e.None? || (!e.value.Add? && olds == 0) || (!e.value.Drop? && news == 0) then None
              else if e.value.Add? then
                After(0, [e.value.text], ReadingBody(base, at, lines[1..], olds, news - 1))
              else if at == |base| || base[at] != e.value.text then None
              else
                After(0, if e.value.Keep? then [base[at]] else [],
                      ReadingBody(base, at + 1, lines[1..], olds - 1, if e.value.Keep? then news - 1 else news))
  {
    var e := ReadEdit(lines[0]);
    if e.Some? && (e.value.Add? || olds > 0) && (e.value.Drop? || news > 0) {
      var body := ReadBody(lines[1..], if e.value.Add? then olds else olds - 1,
                           if e.value.Drop? then news else news - 1);
      if body.Some? {
        assert lines[1..][|body.value|..] == lines[1 + |body.value|..];
        FinishBodyCons(base, at, e.value, body.value, lines[1 + |body.value|..]);
      }
    }
  }

  // ---------- The first thing that is wrong

  /** What stops the reading of `lines` at baseline line `at`, in the order in
      which the lines are read; nothing, if all can be read. */
  function Fault(base: seq<string>, at: nat, lines: seq<string>): Option<PatchError>
    requires at <= |base|
    decreases |lines|, 1
  {
    if lines == [] then None
    else
      match HunkHeader(lines[0])
      case None => Fault(base, at, lines[1..])
      case Some(h) =>
        var pos := h.before.First() - 1;
        if pos < at || pos > |base| then Some(OutsideBaseline)
        else BodyFault(base, pos, lines[1..], h.before.Count(), h.after.Count())
  }

  /** Inside a hunk that still owes `olds` old and `news` new lines; a body that
      overshoots one count is found out when the other is used up. */
  function BodyFault(base: seq<string>, at: nat, lines: seq<string>, olds: int, news: int): Option<PatchError>
    requires at <= |base|
    decreases |lines|, 2
  {
    if olds <= 0 && news <= 0 then
      if olds == 0 && news == 0 then Fault(base, at, lines) else Some(CountsInconsistent)
    else if lines == [] then Some(EndedEarly)
    else
      var after := LineFault(base, at, lines[0]);
      if after.Some? then after
      else
        var e := ReadEdit(lines[0]).value;
        BodyFault(base, if e.Add? then at else at + 1, lines[1..],
                  if e.Add? then olds else olds - 1, if e.Drop? then news else news - 1)
  }

  /** What is wrong with one body line. */
  function LineFault(base: seq<string>, at: nat, line: string): (r: Option<PatchError>)
    requires at <= |base|
    ensures r == None ==> ReadEdit(line).Some? && (ReadEdit(line).value.Add? || at < |base|)
  {
    if "\\ No newline at end of file" <= line then Some(NewlineMarker)
    else
      match ReadEdit(line)
      case None => Some(UnsupportedLine)
      case Some(Keep(t)) =>
        if at == |base| then Some(ContextExceeds) else if base[at] != t then Some(ContextDiffers) else None
      case Some(Drop(t)) =>
        if at == |base| then Some(DeletionExceeds) else if base[at] != t then Some(DeletionDiffers) else None
      case Some(Add(_)) => None
  }

  lemma FaultStep(base: seq<string>, at: nat, lines: seq<string>)
    requires at <= |base| && lines != []
    ensures Fault(base, at, lines) ==
              match HunkHeader(lines[0])
              case None => Fault(base, at, lines[1..])
              case Some(h) =>
                var pos := h.before.First() - 1;
                if pos < at || pos > |base| then Some(OutsideBaseline)
                else BodyFault(base, pos, lines[1..], h.before.Count(), h.after.Count())
  {
    hide HunkHeader, BodyFault;
  }

  lemma FaultNone(base: seq<string>, at: nat)
    requires at <= |base|
    ensures Fault(base, at, []) == None
  {
  }

  lemma BodyFaultStep(base: seq<string>, at: nat, lines: seq<string>, olds: int, news: int)
    requires at <= |base| && (olds > 0 || news > 0)
    ensures lines == [] ==> BodyFault(base, at, lines, olds, news) == Some(EndedEarly)
    ensures lines != [] && LineFault(base, at, lines[0]).Some? ==>
              BodyFault(base, at, lines, olds, news) == LineFault(base, at, lines[0])
    ensures lines != [] && LineFault(base, at, lines[0]).None? ==>
              var e := ReadEdit(lines[0]).value;
              BodyFault(base, at, lines, olds, news) ==
                BodyFault(base, if e.Add? then at else at + 1, lines[1..],
                          if e.Add? then olds else olds - 1, if e.Drop? then news else news - 1)
  {
    hide LineFault, ReadEdit;
  }

  lemma BodyFaultDone(base: seq<string>, at: nat, lines: seq<string>, olds: int, news: int)
    requires at <= |base| && olds <= 0 && news <= 0
    ensures BodyFault(base, at, lines, olds, news) ==
              if olds == 0 && news == 0 then Fault(base, at, lines) else Some(CountsInconsistent)
  {
    hide Fault;
  }

  /** Something is wrong exactly when the lines have no reading. */
  lemma {:induction false} FaultIff(base: seq<string>, at: nat, lines: seq<string>)
    requires at <= |base|
    ensures Fault(base, at, lines) == None <==> Reading(base, at, lines).Some?
    decreases |lines|, 1
  {
    hide HunkHeader, Fault, BodyFault, Reading, ReadingBody;
    if lines == [] {
      FaultNone(base, at);
      ReadingDone(base, at);
    } else {
      FaultStep(base, at, lines);
      if HunkHeader(lines[0]).None? {
        ReadingNoise(base, at, lines);
        FaultIff(base, at, lines[1..]);
      } else {
        ReadingHunk(base, at, lines);
        var h := HunkHeader(lines[0]).value;
        var pos := h.before.First() - 1;
        if at <= pos <= |base| { BodyFaultIff(base, pos, lines[1..], h.before.Count(), h.after.Count()); }
      }
    }
  }

  lemma {:induction false} OvershootFault(base: seq<string>, at: nat, lines: seq<string>, olds: int, news: int)
    requires at <= |base| && (olds < 0 || news < 0)
    ensures BodyFault(base, at, lines, olds, news).Some?
    decreases |lines|
  {
    hide BodyFault, LineFault, ReadEdit;
    if olds <= 0 && news <= 0 {
      BodyFaultDone(base, at, lines, olds, news);
    } else {
      BodyFaultStep(base, at, lines, olds, news);
      if lines != [] && LineFault(base, at, lines[0]).None? {
        var e := ReadEdit(lines[0]).value;
        OvershootFault(base, if e.Add? then at else at + 1, lines[1..],
                       if e.Add? then olds else olds - 1, if e.Drop? then news else news - 1);
      }
    }
  }

  lemma LineFaultIs(base: seq<string>, at: nat, line: string)
    requires at <= |base|
    ensures LineFault(base, at, line).None? <==>
              ReadEdit(line).Some? && (ReadEdit(line).value.Add? || (at < |base| && base[at] == ReadEdit(line).value.text))
  {
    EditKinds(line);
  }

  lemma {:induction false} BodyFaultIff(base: seq<string>, at: nat, lines: seq<string>, olds: nat, news: nat)
    requires at <= |base|
    ensures BodyFault(base, at, lines, olds, news) == None <==> ReadingBody(base, at, lines, olds, news).Some?
    decreases |lines|, 2
  {
    hide Fault, BodyFault, LineFault, Reading, ReadingBody, ReadEdit, HunkHeader;
    if olds == 0 && news == 0 {
      BodyFaultDone(base, at, lines, olds, news);
      ReadingBodyDone(base, at, lines);
      FaultIff(base, at, lines);
    } else if lines == [] {
      BodyFaultStep(base, at, lines, olds, news);
      ReadingBodyEmpty(base, at, olds, news);
    } else {
      BodyFaultStep(base, at, lines, olds, news);
      ReadingBodyStep(base, at, lines, olds, news);
      LineFaultIs(base, at, lines[0]);
      if LineFault(base, at, lines[0]).None? {
        var e := ReadEdit(lines[0]).value;
        var at', olds', news' := if e.Add? then at else at + 1, if e.Add? then olds else olds - 1, if e.Drop? then news else news - 1;
        if olds' < 0 || news' < 0 {
          OvershootFault(base, at', lines[1..], olds', news');
        } else {
          BodyFaultIff(base, at', lines[1..], olds', news');
        }
      }
    }
  }

  // ---------- Outcome of a whole application

  predicate NulFree(s: string) { '\0' !in s }

  /** The candidate a patch makes of the baseline, when it is accepted. */
  function Outcome(baseline: string, patch: string, path: string): Option<string> {
    if !NulFree(baseline) || !NulFree(patch) || !HeadersName(Lines(patch), path) then None
    else
      match Reading(Lines(baseline), 0, Lines(patch))
      case None => None
      case Some((hunks, lines)) =>
        if hunks == 0 || Join(lines) == baseline then None else Some(Join(lines))
  }

  /** `parts` is the layout of the patch, and its hunks splice the baseline into `candidate`. */
  ghost predicate SplicesTo(baseline: string, patch: string, parts: seq<Part>, candidate: string) {
    && AllWf(parts) && PartLines(parts) == Lines(patch)
    && Hunks(parts) != []
    && ValidSplice(Lines(baseline), Hunks(parts))
    && FitsFrom(Lines(baseline), 0, Hunks(parts))
    && candidate == Join(Spliced(Lines(baseline), 0, Hunks(parts)))
  }

  /** Exactly the patches that name the file, and whose hunks form an ordered,
      non-overlapping splice that matches the baseline and changes it. */
  lemma AcceptsExactlySplices(baseline: string, patch: string, path: string, candidate: string)
    ensures Outcome(baseline, patch, path) == Some(candidate) <==>
              && NulFree(baseline) && NulFree(patch)
              && HeadersName(Lines(patch), path)
              && candidate != baseline
              && exists parts :: SplicesTo(baseline, patch, parts, candidate)
  {
    hide HunkHeader, HeadersName;
    var base, lines := Lines(baseline), Lines(patch);
    if Outcome(baseline, patch, path) == Some(candidate) {
      ReadPatchSound(lines);
      var parts := ReadPatch(lines).value;
      FitsFromIsValidSplice(base, Hunks(parts));
      assert SplicesTo(baseline, patch, parts, candidate);
    }
    forall parts | SplicesTo(baseline, patch, parts, candidate)
      ensures ReadPatch(lines) == Some(parts)
    {
      ReadPatchOf(parts);
    }
  }

  method ApplySingleFileUnifiedPatch(baseline: string, rawPatch: string, expectedPath: string)
    returns (r: Result<string, PatchError>)
    ensures r.Ok? <==> Outcome(baseline, rawPatch, expectedPath).Some?
    ensures r.Ok? ==> r.value == Outcome(baseline, rawPatch, expectedPath).value
    ensures r == Err(NulByte) <==> !NulFree(baseline) || !NulFree(rawPatch)
    ensures r == Err(NotOneFile) <==> NulFree(baseline) && NulFree(rawPatch) && !OneFile(Lines(rawPatch))
    ensures r == Err(PathDiffers) <==>
              NulFree(baseline) && NulFree(rawPatch) && OneFile(Lines(rawPatch))
              && !HeadersName(Lines(rawPatch), expectedPath)
    ensures NulFree(baseline) && NulFree(rawPatch) && HeadersName(Lines(rawPatch), expectedPath) ==>
              var read := Reading(Lines(baseline), 0, Lines(rawPatch));
              && (Fault(Lines(baseline), 0, Lines(rawPatch)).Some? ==>
                    r == Err(Fault(Lines(baseline), 0, Lines(rawPatch)).value))
              && (r == Err(NoHunk) <==> read.Some? && read.value.0 == 0)
              && (r == Err(NoChange) <==> read.Some? && read.value.0 > 0 && Join(read.value.1) == baseline)
  {
    hide HunkHeader, HeadersName, OneFile, Reading, ReadingBody, ReadEdit, Lines, Join, NulFree, Fault, BodyFault;
    if !NulFree(baseline) || !NulFree(rawPatch) { return Err(NulByte); }
    var patchLines := Lines(rawPatch);
    if !OneFile(patchLines) {
      assert !HeadersName(patchLines, expectedPath) by { NamedIsOneFile(patchLines, expectedPath); }
      return Err(NotOneFile);
    }
    if !HeadersName(patchLines, expectedPath) { return Err(PathDiffers); }
    var base := Lines(baseline);
    var output: seq<string> := [];
    var sourceIndex, index, hunkCount := 0, 0, 0;
    ghost var goal, fault := Reading(base, 0, patchLines), Fault(base, 0, patchLines);
    FaultIff(base, 0, patchLines);
    assert patchLines[0..] == patchLines;
    AfterNothing(goal);
    while index < |patchLines|
      invariant 0 <= index <= |patchLines|
      invariant 0 <= sourceIndex <= |base|
      invariant 0 <= hunkCount
      invariant goal == After(hunkCount, output, Reading(base, sourceIndex, patchLines[index..]))
      invariant fault == Fault(base, sourceIndex, patchLines[index..])
    {
      FaultStep(base, sourceIndex, patchLines[index..]);
      var found := HunkHeader(patchLines[index]);
      if found.None? {
        ReadingNoise(base, sourceIndex, patchLines[index..]);
        assert patchLines[index..][1..] == patchLines[index + 1..];
        index := index + 1;
        continue;
      }
      ReadingHunk(base, sourceIndex, patchLines[index..]);
      assert patchLines[index..][1..] == patchLines[index + 1..];
      var oldCount: int, newCount: int := found.value.before.Count(), found.value.after.Count();
      var targetIndex := found.value.before.First() - 1;
      if targetIndex < sourceIndex || targetIndex > |base| { return Err(OutsideBaseline); }
      ghost var body := ReadingBody(base, targetIndex, patchLines[index + 1..], oldCount, newCount);
      AfterAfter(hunkCount, output, 1, base[sourceIndex..targetIndex], body);
      hunkCount := hunkCount + 1;
      output := output + base[sourceIndex..targetIndex];
      sourceIndex := targetIndex;
      index := index + 1;
      var consumedOld, producedNew := 0, 0;
      while consumedOld < oldCount || producedNew < newCount
        invariant 0 <= index <= |patchLines|
        invariant 0 <= sourceIndex <= |base|
        invariant 0 <= consumedOld && 0 <= producedNew
        invariant fault == BodyFault(base, sourceIndex, patchLines[index..],
                                     oldCount - consumedOld, newCount - producedNew)
        invariant consumedOld <= oldCount && producedNew <= newCount ==>
                    goal == After(hunkCount, output,
                                  ReadingBody(base, sourceIndex, patchLines[index..],
                                              oldCount - consumedOld, newCount - producedNew))
        decreases |patchLines| - index
      {
        BodyFaultStep(base, sourceIndex, patchLines[index..], oldCount - consumedOld, newCount - producedNew);
        if index >= |patchLines| { return Err(EndedEarly); }
        var line := patchLines[index];
        EditKinds(line);
        if consumedOld <= oldCount && producedNew <= newCount {
          ReadingBodyStep(base, sourceIndex, patchLines[index..], oldCount - consumedOld, newCount - producedNew);
          assert patchLines[index..][1..] == patchLines[index + 1..];
        }
        ghost var was, produced: seq<string> := output, [];
        if "\\ No newline at end of file" <= line {
          return Err(NewlineMarker);
        }
        if " " <= line {
          if sourceIndex >= |base| { return Err(ContextExceeds); }
          if base[sourceIndex] != line[1..] { return Err(ContextDiffers); }
          produced := [base[sourceIndex]];
          output := output + [base[sourceIndex]];
          sourceIndex := sourceIndex + 1;
          consumedOld := consumedOld + 1;
          producedNew := producedNew + 1;
        } else if "-" <= line {
          if sourceIndex >= |base| { return Err(DeletionExceeds); }
          if base[sourceIndex] != line[1..] { return Err(DeletionDiffers); }
          sourceIndex := sourceIndex + 1;
          consumedOld := consumedOld + 1;
        } else if "+" <= line {
          produced := [line[1..]];
          output := output + [line[1..]];
          producedNew := producedNew + 1;
        } else {
          return Err(UnsupportedLine);
        }
        index := index + 1;
        if consumedOld <= oldCount && producedNew <= newCount {
          assert was + produced == output;
          AfterAfter(hunkCount, was, 0, produced,
                     ReadingBody(base, sourceIndex, patchLines[index..],
                                 oldCount - consumedOld, newCount - producedNew));
        }
      }
      BodyFaultDone(base, sourceIndex, patchLines[index..], oldCount - consumedOld, newCount - producedNew);
      if consumedOld != oldCount || producedNew != newCount { return Err(CountsInconsistent); }
      ReadingBodyDone(base, sourceIndex, patchLines[index..]);
    }
    ReadingDone(base, sourceIndex);
    assert patchLines[index..] == [];
    assert goal == Some((hunkCount, output + base[sourceIndex..]));
    if hunkCount < 1 { return Err(NoHunk); }
    output := output + base[sourceIndex..];
    var candidate := Join(output);
    if candidate == baseline { return Err(NoChange); }
    return Ok(candidate);
  }

  lemma AfterNothing(rest: Progress)
    ensures After(0, [], rest) == rest
  {
    if rest.Some? { assert [] + rest.value.1 == rest.value.1; }
  }

  lemma ReadingBodyEmpty(base: seq<string>, at: nat, olds: nat, news: nat)
    requires olds > 0 || news > 0
    ensures ReadingBody(base, at, [], olds, news) == None
  {
  }

  lemma EditKinds(line: string)
    ensures ReadEdit(line) ==
              if " " <= line then Some(Keep(line[1..]))
              else if "-" <= line then Some(Drop(line[1..]))
              else if "+" <= line then Some(Add(line[1..]))
              else None
    ensures "\\ No newline at end of file" <= line ==> ReadEdit(line) == None
  {
  }

  lemma NamedIsOneFile(lines: seq<string>, path: string)
    ensures HeadersName(lines, path) ==> OneFile(lines)
  {
  }
}
