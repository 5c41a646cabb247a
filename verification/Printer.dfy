/** Printing an edit script as a unified patch, the way `difflib.unified_diff`
    prints the opcodes that `build_single_replacement_patch` hands it. */
module Printer {
  import opened Text
  import Decimal
  import opened Unified
  import opened Splice
  import opened Applier
  import opened HeaderNames

  const CONTEXT := 3

  /** One opcode: lines common to both texts, or lines replaced (one side may be empty). */
  datatype Op = Equal(lines: seq<string>) | Change(dropped: seq<string>, added: seq<string>) {
    function Olds(): seq<string> { if Equal? then lines else dropped }
    function News(): seq<string> { if Equal? then lines else added }
    function Edits(): seq<Edit> { if Equal? then Keeps(lines) else Drops(dropped) + Adds(added) }
  }

  function OldLines(ops: seq<Op>): seq<string> {
    if ops == [] then [] else ops[0].Olds() + OldLines(ops[1..])
  }

  function NewLines(ops: seq<Op>): seq<string> {
    if ops == [] then [] else ops[0].News() + NewLines(ops[1..])
  }

  function Keeps(lines: seq<string>): seq<Edit> { seq(|lines|, i requires 0 <= i < |lines| => Keep(lines[i])) }
  function Drops(lines: seq<string>): seq<Edit> { seq(|lines|, i requires 0 <= i < |lines| => Drop(lines[i])) }
  function Adds(lines: seq<string>): seq<Edit> { seq(|lines|, i requires 0 <= i < |lines| => Add(lines[i])) }

  /** A script cut into unchanged stretches that are not printed and printed groups. */
  datatype Segment = Skip(lines: seq<string>) | Shown(edits: seq<Edit>) {
    function Olds(): seq<string> { if Skip? then lines else OldSide(edits) }
    function News(): seq<string> { if Skip? then lines else NewSide(edits) }
  }

  function SegmentOlds(segments: seq<Segment>): seq<string> {
    if segments == [] then [] else segments[0].Olds() + SegmentOlds(segments[1..])
  }

  function SegmentNews(segments: seq<Segment>): seq<string> {
    if segments == [] then [] else segments[0].News() + SegmentNews(segments[1..])
  }

  // ---------- Printing

  /** `difflib`'s range: an empty one is numbered by the line before it. */
  function RangeSpan(start: nat, count: nat): (s: Span)
    ensures s.Wf() && s.Count() == count
    ensures s.First() == if count == 0 then start else start + 1
  {
    if count == 1 then Single(Decimal.Show(start + 1))
    else if count == 0 then Sized(Decimal.Show(start), Decimal.Show(0))
    else Sized(Decimal.Show(start + 1), Decimal.Show(count))
  }

  function HeaderLine(oldAt: nat, olds: nat, newAt: nat, news: nat): string {
    Header(RangeSpan(oldAt, olds), RangeSpan(newAt, news)).Spell("\n")
  }

  lemma HeaderLineReads(oldAt: nat, olds: nat, newAt: nat, news: nat)
    ensures HunkHeader(HeaderLine(oldAt, olds, newAt, news)) ==
              Some(Header(RangeSpan(oldAt, olds), RangeSpan(newAt, news)))
  {
    ReadHeaderOf(Header(RangeSpan(oldAt, olds), RangeSpan(newAt, news)), "\n");
  }

  function Blocks(segments: seq<Segment>, oldAt: nat, newAt: nat): seq<Part> {
    if segments == [] then []
    else
      var s := segments[0];
      (if s.Skip? then []
       else [Block(HeaderLine(oldAt, |s.Olds()|, newAt, |s.News()|), s.edits)])
      + Blocks(segments[1..], oldAt + |s.Olds()|, newAt + |s.News()|)
  }

  lemma {:induction false} BlocksWf(segments: seq<Segment>, oldAt: nat, newAt: nat)
    ensures AllWf(Blocks(segments, oldAt, newAt))
  {
    hide HunkHeader, HeaderLine, RangeSpan, OldSide, NewSide;
    if segments != [] {
      var s := segments[0];
      var rest := Blocks(segments[1..], oldAt + |s.Olds()|, newAt + |s.News()|);
      BlocksWf(segments[1..], oldAt + |s.Olds()|, newAt + |s.News()|);
      if s.Shown? {
        var header := HeaderLine(oldAt, |s.Olds()|, newAt, |s.News()|);
        HeaderLineReads(oldAt, |s.Olds()|, newAt, |s.News()|);
        Prepend(Block(header, s.edits), rest);
      }
    }
  }

  /** Every printed group has an old line to stand on. */
  predicate Anchored(segments: seq<Segment>) {
    forall s | s in segments && s.Shown? :: OldSide(s.edits) != []
  }

  /** The hunks of `parts`, read from line `at`, leave exactly `out`. */
  ghost predicate Leaves(base: seq<string>, at: nat, parts: seq<Part>, out: seq<string>) {
    FitsFrom(base, at, Hunks(parts)) && Spliced(base, at, Hunks(parts)) == out
  }

  /** The printed groups splice the old lines into the new ones. */
  lemma {:induction false} BlocksSplice(base: seq<string>, at: nat, cur: nat, newAt: nat, segments: seq<Segment>)
    requires Anchored(segments)
    requires at <= cur <= |base| && base[cur..] == SegmentOlds(segments)
    ensures Leaves(base, at, Blocks(segments, cur, newAt), base[at..cur] + SegmentNews(segments))
    decreases |segments|
  {
    hide *;
    if segments == [] {
      NothingShown(base, at, cur, newAt);
    } else {
      Peel(segments);
      var s, rest := segments[0], segments[1..];
      var next, newNext := cur + |s.Olds()|, newAt + |s.News()|;
      CutOlds(base, cur, s.Olds(), SegmentOlds(rest));
      if s.Skip? {
        BlocksSplice(base, at, next, newNext, rest);
        SkipStep(base, at, cur, newAt, segments);
      } else {
        BlocksSplice(base, next, next, newNext, rest);
        NoGap(base[next..next], SegmentNews(rest));
        ShownStep(base, at, cur, newAt, segments);
      }
    }
  }

  lemma Peel(segments: seq<Segment>)
    requires segments != []
    ensures var s := segments[0];
            && SegmentOlds(segments) == s.Olds() + SegmentOlds(segments[1..])
            && s.Olds() == (if s.Skip? then s.lines else OldSide(s.edits))
            && s.News() == (if s.Skip? then s.lines else NewSide(s.edits))
            && (Anchored(segments) ==> Anchored(segments[1..]))
            && (Anchored(segments) && s.Shown? ==> OldSide(s.edits) != [])
  {
    assert segments[0] in segments;
  }

  lemma SkipStep(base: seq<string>, at: nat, cur: nat, newAt: nat, segments: seq<Segment>)
    requires segments != [] && segments[0].Skip?
    requires at <= cur <= cur + |segments[0].lines| <= |base|
    requires base[cur..cur + |segments[0].lines|] == segments[0].lines
    requires var n := |segments[0].lines|;
             Leaves(base, at, Blocks(segments[1..], cur + n, newAt + n),
                    base[at..cur + n] + SegmentNews(segments[1..]))
    ensures Leaves(base, at, Blocks(segments, cur, newAt), base[at..cur] + SegmentNews(segments))
  {
    hide Leaves, OldSide, NewSide, HunkHeader, HeaderLine;
    var n := |segments[0].lines|;
    Regroup(base, at, cur, segments[0].lines, SegmentNews(segments[1..]));
    NoGap([], Blocks(segments[1..], cur + n, newAt + n));
  }

  lemma ShownStep(base: seq<string>, at: nat, cur: nat, newAt: nat, segments: seq<Segment>)
    requires segments != [] && segments[0].Shown? && OldSide(segments[0].edits) != []
    requires at <= cur <= cur + |OldSide(segments[0].edits)| <= |base|
    requires base[cur..cur + |OldSide(segments[0].edits)|] == OldSide(segments[0].edits)
    requires var edits := segments[0].edits;
             Leaves(base, cur + |OldSide(edits)|,
                    Blocks(segments[1..], cur + |OldSide(edits)|, newAt + |NewSide(edits)|),
                    SegmentNews(segments[1..]))
    ensures Leaves(base, at, Blocks(segments, cur, newAt), base[at..cur] + SegmentNews(segments))
  {
    hide *;
    var edits := segments[0].edits;
    ShownParts(segments, cur, newAt);
    ShownSplice(base, at, cur, newAt, edits,
                Blocks(segments[1..], cur + |OldSide(edits)|, newAt + |NewSide(edits)|), SegmentNews(segments[1..]));
  }

  lemma ShownParts(segments: seq<Segment>, cur: nat, newAt: nat)
    requires segments != [] && segments[0].Shown?
    ensures var edits := segments[0].edits;
            var header := HeaderLine(cur, |OldSide(edits)|, newAt, |NewSide(edits)|);
            && SegmentNews(segments) == NewSide(edits) + SegmentNews(segments[1..])
            && Blocks(segments, cur, newAt) ==
                 [Block(header, edits)] + Blocks(segments[1..], cur + |OldSide(edits)|, newAt + |NewSide(edits)|)
  {
    hide OldSide, NewSide, HeaderLine;
  }

  lemma NothingShown(base: seq<string>, at: nat, cur: nat, newAt: nat)
    requires at <= cur <= |base| && base[cur..] == SegmentOlds([])
    ensures Leaves(base, at, Blocks([], cur, newAt), base[at..cur] + SegmentNews([]))
  {
    assert base[at..] == base[at..cur] + base[cur..];
  }

  lemma CutOlds(base: seq<string>, cur: nat, olds: seq<string>, rest: seq<string>)
    requires cur <= |base| && base[cur..] == olds + rest
    ensures cur + |olds| <= |base|
    ensures base[cur..cur + |olds|] == olds
    ensures base[cur + |olds|..] == rest
  {
    assert base[cur..][..|olds|] == olds;
    assert base[cur..][|olds|..] == rest;
  }

  lemma Regroup(base: seq<string>, at: nat, cur: nat, olds: seq<string>, news: seq<string>)
    requires at <= cur <= cur + |olds| <= |base| && base[cur..cur + |olds|] == olds
    ensures base[at..cur + |olds|] + news == base[at..cur] + (olds + news)
  {
    assert base[at..cur + |olds|] == base[at..cur] + olds;
  }

  lemma ShownSplice(base: seq<string>, at: nat, cur: nat, newAt: nat, edits: seq<Edit>,
                    rest: seq<Part>, out: seq<string>)
    requires OldSide(edits) != []
    requires at <= cur <= cur + |OldSide(edits)| <= |base|
    requires base[cur..cur + |OldSide(edits)|] == OldSide(edits)
    requires Leaves(base, cur + |OldSide(edits)|, rest, out)
    ensures Leaves(base, at,
                   [Block(HeaderLine(cur, |OldSide(edits)|, newAt, |NewSide(edits)|), edits)] + rest,
                   base[at..cur] + (NewSide(edits) + out))
  {
    hide *;
    var header := HeaderLine(cur, |OldSide(edits)|, newAt, |NewSide(edits)|);
    BlockHunk(cur, newAt, edits);
    HunksCons(header, edits, rest);
    LeavesParts(base, cur + |OldSide(edits)|, rest, out);
    ShownFits(base, at, cur, edits);
    FitsCons(base, at, Hunk(cur, edits), Hunks(rest));
    Assoc(base[at..cur], NewSide(edits), out);
    LeavesOf(base, at, [Block(header, edits)] + rest, base[at..cur] + (NewSide(edits) + out));
  }

  lemma BlockHunk(cur: nat, newAt: nat, edits: seq<Edit>)
    requires OldSide(edits) != []
    ensures var h := HunkHeader(HeaderLine(cur, |OldSide(edits)|, newAt, |NewSide(edits)|));
            h.Some? && h.value.before.First() - 1 == cur
  {
    hide HunkHeader, HeaderLine, OldSide, NewSide;
    HeaderLineReads(cur, |OldSide(edits)|, newAt, |NewSide(edits)|);
  }

  lemma ShownFits(base: seq<string>, at: nat, cur: nat, edits: seq<Edit>)
    requires at <= cur <= cur + |OldSide(edits)| <= |base|
    requires base[cur..cur + |OldSide(edits)|] == OldSide(edits)
    ensures var h := Hunk(cur, edits);
            FitsAt(base, at, h) && h.End() == cur + |OldSide(edits)| && h.News() == NewSide(edits)
  {
    hide OldSide, NewSide;
  }

  lemma LeavesParts(base: seq<string>, at: nat, parts: seq<Part>, out: seq<string>)
    requires Leaves(base, at, parts, out)
    ensures FitsFrom(base, at, Hunks(parts)) && Spliced(base, at, Hunks(parts)) == out
  {
  }

  lemma LeavesOf(base: seq<string>, at: nat, parts: seq<Part>, out: seq<string>)
    requires FitsFrom(base, at, Hunks(parts)) && Spliced(base, at, Hunks(parts)) == out
    ensures Leaves(base, at, parts, out)
  {
  }

  lemma FitsCons(base: seq<string>, at: nat, h: Hunk, hs: seq<Hunk>)
    requires FitsAt(base, at, h) && FitsFrom(base, h.End(), hs)
    ensures FitsFrom(base, at, [h] + hs)
    ensures Spliced(base, at, [h] + hs) == base[at..h.pos] + h.News() + Spliced(base, h.End(), hs)
  {
    assert ([h] + hs)[1..] == hs;
  }

  // ---------- The printed text

  predicate HeaderLike(e: Edit) {
    (e.Drop? && "-- " <= e.text) || (e.Add? && "++ " <= e.text)
  }

  /** No body line reads as a file header. */
  predicate Calm(edits: seq<Edit>) { forall e | e in edits :: !HeaderLike(e) }

  /** No printed body line reads as a file header. */
  predicate Unmistakable(segments: seq<Segment>) {
    forall s, e | s in segments && s.Shown? && e in s.edits :: !HeaderLike(e)
  }

  predicate Marked(line: string) { OLD_MARK <= line || NEW_MARK <= line }

  predicate Proper(line: string) { Terminated(line) && NulFree(line) }

  function PatchLines(path: string, segments: seq<Segment>): seq<string> {
    ["--- " + ("a/" + path + "\n"), "+++ " + ("b/" + path + "\n")] + PartLines(Blocks(segments, 0, 0))
  }

  function PatchText(path: string, segments: seq<Segment>): string {
    Join(PatchLines(path, segments))
  }

  lemma NumeralProper(s: string, tail: string)
    requires Decimal.IsNumeral(s) && Proper(tail)
    ensures Proper(s + tail)
  {
    assert (s + tail)[..|s + tail| - 1] == s + tail[..|tail| - 1];
  }

  lemma WordProper(word: string, tail: string)
    requires '\n' !in word && '\0' !in word && Proper(tail)
    ensures Proper(word + tail)
  {
    assert (word + tail)[..|word + tail| - 1] == word + tail[..|tail| - 1];
  }

  lemma SpanProper(span: Span, tail: string)
    requires span.Wf() && Proper(tail)
    ensures Proper(span.Spell(tail))
  {
    hide Proper;
    if span.Single? {
      NumeralProper(span.start, tail);
    } else {
      NumeralProper(span.count, tail);
      WordProper(",", span.count + tail);
      NumeralProper(span.start, "," + (span.count + tail));
    }
  }

  lemma HeaderLineProper(oldAt: nat, olds: nat, newAt: nat, news: nat)
    ensures var line := HeaderLine(oldAt, olds, newAt, news); Proper(line) && !Marked(line)
  {
    var before, after := RangeSpan(oldAt, olds), RangeSpan(newAt, news);
    assert Proper("\n");
    hide Proper, RangeSpan;
    WordProper(" @@", "\n");
    SpanProper(after, " @@" + "\n");
    WordProper(" +", after.Spell(" @@" + "\n"));
    SpanProper(before, " +" + after.Spell(" @@" + "\n"));
    WordProper("@@ -", before.Spell(" +" + after.Spell(" @@" + "\n")));
    assert HeaderLine(oldAt, olds, newAt, news)[0] == '@';
  }

  lemma EditMarked(e: Edit)
    ensures Marked(e.Line()) <==> HeaderLike(e)
    ensures Proper(e.text) ==> Proper(e.Line())
  {
    assert e.Line()[1..] == e.text;
    if Proper(e.text) { WordProper([e.Line()[0]], e.text); }
    if e.Drop? {
      assert OLD_MARK == "-" + "-- ";
      if "-- " <= e.text { assert OLD_MARK <= "-" + e.text; }
      if OLD_MARK <= e.Line() { assert e.Line()[1..4] == "-- "; }
    } else if e.Add? {
      if "++ " <= e.text { assert NEW_MARK <= "+" + e.text; }
      if NEW_MARK <= e.Line() { assert e.Line()[1..4] == "++ "; }
    }
  }

  lemma {:induction false} SidesMembers(edits: seq<Edit>)
    ensures forall e | e in edits :: e.text in OldSide(edits) || e.text in NewSide(edits)
  {
    if edits != [] {
      SidesMembers(edits[1..]);
      assert edits == [edits[0]] + edits[1..];
    }
  }

  lemma UnmistakableCons(s: Segment, rest: seq<Segment>)
    ensures Unmistakable([s] + rest) <==>
            (s.Shown? ==> forall e | e in s.edits :: !HeaderLike(e)) && Unmistakable(rest)
  {
    hide HeaderLike;
    var all := [s] + rest;
    assert s in all;
    assert forall r | r in rest :: r in all;
    assert forall r | r in all :: r == s || r in rest;
  }

  predicate AllProper(lines: seq<string>) { forall l | l in lines :: Proper(l) }

  predicate NoneMarked(lines: seq<string>) { forall l | l in lines :: !Marked(l) }

  lemma ProperConcat(a: seq<string>, b: seq<string>)
    ensures AllProper(a + b) <==> AllProper(a) && AllProper(b)
    ensures NoneMarked(a + b) <==> NoneMarked(a) && NoneMarked(b)
  {
    hide Proper, Marked;
    assert forall l | l in a :: l in a + b;
    assert forall l | l in b :: l in a + b;
  }

  /** No printed line reads as a file header unless a shown body line does. */
  lemma {:induction false} BlockMarks(segments: seq<Segment>, oldAt: nat, newAt: nat)
    ensures Unmistakable(segments) <==> NoneMarked(PartLines(Blocks(segments, oldAt, newAt)))
    decreases |segments|
  {
    hide *;
    if segments == [] {
      NoLines(oldAt, newAt);
    } else {
      var s, rest := segments[0], segments[1..];
      assert segments == [s] + rest;
      UnmistakableCons(s, rest);
      BlockMarks(rest, oldAt + |s.Olds()|, newAt + |s.News()|);
      BlocksCons(segments, oldAt, newAt);
      if s.Shown? {
        var header := HeaderLine(oldAt, |s.Olds()|, newAt, |s.News()|);
        var tail := PartLines(Blocks(rest, oldAt + |s.Olds()|, newAt + |s.News()|));
        ShownMarks(header, oldAt, |s.Olds()|, newAt, |s.News()|, s.edits);
        ProperConcat([header] + EditLines(s.edits), tail);
      }
    }
  }

  lemma NoLines(oldAt: nat, newAt: nat)
    ensures PartLines(Blocks([], oldAt, newAt)) == [] && NoneMarked([]) && Unmistakable([])
    ensures ShownTexts([]) == []
  {
  }

  lemma BlocksCons(segments: seq<Segment>, oldAt: nat, newAt: nat)
    requires segments != []
    ensures var s := segments[0];
            var tail := PartLines(Blocks(segments[1..], oldAt + |s.Olds()|, newAt + |s.News()|));
            PartLines(Blocks(segments, oldAt, newAt)) ==
              if s.Skip? then tail
              else [HeaderLine(oldAt, |s.Olds()|, newAt, |s.News()|)] + EditLines(s.edits) + tail
  {
    hide HeaderLine, OldSide, NewSide, EditLines;
    var s := segments[0];
    var tail := Blocks(segments[1..], oldAt + |s.Olds()|, newAt + |s.News()|);
    if s.Shown? {
      var block := Block(HeaderLine(oldAt, |s.Olds()|, newAt, |s.News()|), s.edits);
      assert ([block] + tail)[1..] == tail;
    } else {
      NoGap([], tail);
    }
  }

  lemma ShownMarks(header: string, oldAt: nat, olds: nat, newAt: nat, news: nat, edits: seq<Edit>)
    requires header == HeaderLine(oldAt, olds, newAt, news)
    ensures NoneMarked([header] + EditLines(edits)) <==> forall e | e in edits :: !HeaderLike(e)
  {
    hide HeaderLine, Proper, Marked, HeaderLike;
    HeaderLineProper(oldAt, olds, newAt, news);
    var lines := EditLines(edits);
    ProperConcat([header], lines);
    forall e | e in edits ensures e.Line() in lines && (Marked(e.Line()) <==> HeaderLike(e)) {
      var i :| 0 <= i < |edits| && edits[i] == e;
      assert lines[i] in lines;
      EditMarked(e);
    }
    forall l | l in lines ensures exists e :: e in edits && e.Line() == l {
      var i :| 0 <= i < |lines| && lines[i] == l;
      assert edits[i] in edits && edits[i].Line() == l;
    }
  }

  // ---------- Which printed lines lack their line feed

  function Texts(edits: seq<Edit>): seq<string> { seq(|edits|, i requires 0 <= i < |edits| => edits[i].text) }

  /** The texts of all printed body lines. */
  function ShownTexts(segments: seq<Segment>): seq<string> {
    if segments == [] then [] else (if segments[0].Shown? then Texts(segments[0].edits) else []) + ShownTexts(segments[1..])
  }

  lemma LineOfText(e: Edit)
    ensures Terminated(e.text) ==> Terminated(e.Line())
    ensures IsLine(e.text) ==> IsLine(e.Line())
    ensures NulFree(e.text) ==> NulFree(e.Line())
  {
    assert e.Line() == [e.Line()[0]] + e.text;
    if e.text != "" { assert e.Line()[..|e.Line()| - 1] == [e.Line()[0]] + e.text[..|e.text| - 1]; }
  }

  lemma SplitAlike(texts: seq<string>, lines: seq<string>)
    requires |texts| == |lines| && WellSplit(texts)
    requires forall i | 0 <= i < |texts| ::
               (Terminated(texts[i]) ==> Terminated(lines[i])) && (IsLine(texts[i]) ==> IsLine(lines[i]))
    ensures WellSplit(lines)
    ensures AllTerminated(texts) ==> AllTerminated(lines)
  {
    hide Terminated;
    if texts != [] { assert IsLine(texts[|texts| - 1]); }
  }

  lemma EditLinesSplit(edits: seq<Edit>)
    requires WellSplit(Texts(edits))
    ensures WellSplit(EditLines(edits))
    ensures AllTerminated(Texts(edits)) ==> AllTerminated(EditLines(edits))
  {
    hide Terminated, IsLine, WellSplit;
    var texts, lines := Texts(edits), EditLines(edits);
    forall i | 0 <= i < |texts|
      ensures (Terminated(texts[i]) ==> Terminated(lines[i])) && (IsLine(texts[i]) ==> IsLine(lines[i]))
    {
      LineOfText(edits[i]);
    }
    SplitAlike(texts, lines);
  }

  lemma ShownTextsCons(segments: seq<Segment>)
    requires segments != []
    ensures ShownTexts(segments) ==
              (if segments[0].Shown? then Texts(segments[0].edits) else []) + ShownTexts(segments[1..])
    ensures segments[0].Skip? ==> ShownTexts(segments) == ShownTexts(segments[1..])
  {
    hide Texts;
    if segments[0].Skip? { NoGap([], ShownTexts(segments[1..])); }
  }

  /** Printed lines are well split when the printed texts are. */
  lemma {:induction false} BlockSplit(segments: seq<Segment>, oldAt: nat, newAt: nat)
    requires Anchored(segments) && WellSplit(ShownTexts(segments))
    ensures WellSplit(PartLines(Blocks(segments, oldAt, newAt)))
    ensures ShownTexts(segments) == [] ==> PartLines(Blocks(segments, oldAt, newAt)) == []
    decreases |segments|
  {
    hide *;
    if segments == [] {
      NoLines(oldAt, newAt);
      TerminatedWellSplit([]);
    } else {
      var s, rest := segments[0], segments[1..];
      Peel(segments);
      ShownTextsCons(segments);
      BlocksCons(segments, oldAt, newAt);
      var oldNext, newNext := oldAt + |s.Olds()|, newAt + |s.News()|;
      if s.Skip? {
        BlockSplit(rest, oldNext, newNext);
      } else {
        var texts, more := Texts(s.edits), ShownTexts(rest);
        SuffixWellSplit(texts + more, |texts|);
        assert (texts + more)[|texts|..] == more && (texts + more)[..|texts|] == texts;
        PrefixWellSplit(texts + more, |texts|);
        BlockSplit(rest, oldNext, newNext);
        EditLinesSplit(s.edits);
        SomeText(s.edits);
        HeaderLineProper(oldAt, |s.Olds()|, newAt, |s.News()|);
        var header := HeaderLine(oldAt, |s.Olds()|, newAt, |s.News()|);
        ShownSplit(header, EditLines(s.edits), PartLines(Blocks(rest, oldNext, newNext)));
      }
    }
  }

  lemma SomeText(edits: seq<Edit>)
    ensures OldSide(edits) != [] ==> Texts(edits) != []
  {
  }

  lemma ShownSplit(header: string, body: seq<string>, tail: seq<string>)
    requires Proper(header) && WellSplit(body) && WellSplit(tail)
    requires tail != [] ==> AllTerminated(body)
    ensures WellSplit([header] + body + tail)
  {
    hide WellSplit;
    assert AllTerminated([header]);
    if tail == [] {
      WellSplitConcat([header], body);
      assert [header] + body + tail == [header] + body;
    } else {
      AllTerminatedConcat([header], body);
      WellSplitConcat([header] + body, tail);
    }
  }

  lemma {:induction false} ShownTextsFrom(segments: seq<Segment>)
    ensures forall t | t in ShownTexts(segments) :: t in SegmentOlds(segments) || t in SegmentNews(segments)
  {
    hide OldSide, NewSide, Texts;
    if segments != [] {
      ShownTextsFrom(segments[1..]);
      if segments[0].Shown? { TextsFrom(segments[0].edits); }
    }
  }

  lemma TextsFrom(edits: seq<Edit>)
    ensures forall t | t in Texts(edits) :: t in OldSide(edits) || t in NewSide(edits)
  {
    hide OldSide, NewSide;
    SidesMembers(edits);
    forall t | t in Texts(edits) ensures t in OldSide(edits) || t in NewSide(edits) {
      var i :| 0 <= i < |edits| && edits[i].text == t;
      assert edits[i] in edits;
    }
  }

  lemma {:induction false} BlockNulFree(segments: seq<Segment>, oldAt: nat, newAt: nat)
    requires forall t | t in ShownTexts(segments) :: NulFree(t)
    ensures forall l | l in PartLines(Blocks(segments, oldAt, newAt)) :: NulFree(l)
    decreases |segments|
  {
    hide *;
    if segments == [] {
      NoLines(oldAt, newAt);
    } else {
      var s, rest := segments[0], segments[1..];
      ShownTextsCons(segments);
      BlocksCons(segments, oldAt, newAt);
      BlockNulFree(rest, oldAt + |s.Olds()|, newAt + |s.News()|);
      if s.Shown? {
        BodyNulFree(s.edits);
        HeaderLineProper(oldAt, |s.Olds()|, newAt, |s.News()|);
        ProperNulFree(HeaderLine(oldAt, |s.Olds()|, newAt, |s.News()|));
      }
    }
  }

  lemma ProperNulFree(line: string)
    requires Proper(line)
    ensures NulFree(line)
  {
  }

  lemma BodyNulFree(edits: seq<Edit>)
    requires forall t | t in Texts(edits) :: NulFree(t)
    ensures forall l | l in EditLines(edits) :: NulFree(l)
  {
    hide NulFree;
    forall i | 0 <= i < |edits| ensures NulFree(EditLines(edits)[i]) {
      assert Texts(edits)[i] in Texts(edits);
      LineOfText(edits[i]);
    }
  }

  // ---------- Printing and applying

  lemma NulFreeConcat(a: string, b: string)
    ensures NulFree(a + b) <==> NulFree(a) && NulFree(b)
  {
    assert forall c | c in a :: c in a + b;
    assert forall c | c in b :: c in a + b;
  }

  lemma {:induction false} JoinNulFree(lines: seq<string>)
    ensures NulFree(Join(lines)) <==> forall l | l in lines :: NulFree(l)
  {
    if lines != [] {
      hide NulFree;
      JoinNulFree(lines[1..]);
      NulFreeConcat(lines[0], Join(lines[1..]));
      assert lines == [lines[0]] + lines[1..];
    } else {
      assert Join(lines) == "";
    }
  }

  lemma {:induction false} NoHeaders(lines: seq<string>)
    ensures NoneMarked(lines) <==> FileHeaders(lines, OLD_MARK) == [] && FileHeaders(lines, NEW_MARK) == []
  {
    hide FileHeaders;
    FileHeadersMembers(lines, OLD_MARK);
    FileHeadersMembers(lines, NEW_MARK);
    if FileHeaders(lines, OLD_MARK) != [] { assert FileHeaders(lines, OLD_MARK)[0] in lines; }
    if FileHeaders(lines, NEW_MARK) != [] { assert FileHeaders(lines, NEW_MARK)[0] in lines; }
  }

  lemma HeadersOfPatch(path: string, tail: seq<string>)
    requires PlainPath(path)
    ensures HeadersName(["--- " + ("a/" + path + "\n"), "+++ " + ("b/" + path + "\n")] + tail, path) <==>
            NoneMarked(tail)
  {
    hide HeaderPath, NoneMarked, FileHeaders;
    var o, n := "--- " + ("a/" + path + "\n"), "+++ " + ("b/" + path + "\n");
    assert [o, n] + tail == [o] + ([n] + tail);
    FileHeadersCons(o, [n] + tail, OLD_MARK);
    FileHeadersCons(o, [n] + tail, NEW_MARK);
    FileHeadersCons(n, tail, OLD_MARK);
    FileHeadersCons(n, tail, NEW_MARK);
    assert o[0] != n[0];
    NoHeaders(tail);
    HeaderPathOf("a/", path);
    HeaderPathOf("b/", path);
    assert o[4..] == "a/" + path + "\n";
    assert n[4..] == "b/" + path + "\n";
  }

  lemma NotAHunkHeader(line: string)
    requires line != "" && line[0] != '@'
    ensures HunkHeader(line) == None
  {
    assert "@@ -"[0] == '@';
  }

  lemma ReadingOfPatch(base: seq<string>, path: string, segments: seq<Segment>)
    requires Anchored(segments) && base == SegmentOlds(segments)
    ensures var hs := Hunks(Blocks(segments, 0, 0));
            Reading(base, 0, PatchLines(path, segments)) == Some((|hs|, SegmentNews(segments)))
  {
    hide HunkHeader, Blocks, ReadPatch, FitsFrom, Spliced, Hunks, PartLines, SegmentOlds, SegmentNews, Anchored;
    var blocks := Blocks(segments, 0, 0);
    var lines := PatchLines(path, segments);
    var o, n := lines[0], lines[1];
    NotAHunkHeader(o);
    NotAHunkHeader(n);
    assert lines[1..] == [n] + PartLines(blocks);
    assert lines[1..][1..] == PartLines(blocks);
    ReadingNoise(base, 0, lines);
    ReadingNoise(base, 0, lines[1..]);
    BlocksWf(segments, 0, 0);
    ReadPatchOf(blocks);
    assert base[0..] == base;
    BlocksSplice(base, 0, 0, 0, segments);
    NoGap(base[0..0], SegmentNews(segments));
  }

  lemma FileLineProper(mark: string, path: string)
    requires '\n' !in mark && NulFree(mark) && PlainPath(path)
    ensures Proper(mark + (path + "\n"))
  {
    assert Proper("\n");
    WordProper(path, "\n");
    WordProper(mark, path + "\n");
  }

  lemma PatchTextLines(path: string, segments: seq<Segment>)
    requires PlainPath(path) && Anchored(segments) && WellSplit(ShownTexts(segments))
    requires forall t | t in ShownTexts(segments) :: NulFree(t)
    ensures Lines(PatchText(path, segments)) == PatchLines(path, segments)
    ensures NulFree(PatchText(path, segments))
  {
    hide Lines, Join, PlainPath, Proper, Blocks, PartLines, Anchored, ShownTexts, NulFree, WellSplit;
    var o, n := "--- " + ("a/" + path + "\n"), "+++ " + ("b/" + path + "\n");
    var body := PartLines(Blocks(segments, 0, 0));
    FileLineProper("--- a/", path);
    FileLineProper("+++ b/", path);
    assert o == "--- a/" + (path + "\n") && n == "+++ b/" + (path + "\n");
    ProperNulFree(o);
    ProperNulFree(n);
    BothTerminated(o, n);
    BlockSplit(segments, 0, 0);
    BlockNulFree(segments, 0, 0);
    WellSplitConcat([o, n], body);
    LinesOfJoin([o, n] + body);
    JoinNulFree([o, n] + body);
  }

  lemma BothTerminated(a: string, b: string)
    requires Proper(a) && Proper(b)
    ensures AllTerminated([a, b])
  {
  }

  lemma TextsNulFree(baseline: string, target: string, segments: seq<Segment>)
    requires NulFree(baseline) && NulFree(target)
    requires SegmentOlds(segments) == Lines(baseline) && SegmentNews(segments) == Lines(target)
    ensures forall t | t in ShownTexts(segments) :: NulFree(t)
  {
    hide NulFree, Lines, Join, ShownTexts, SegmentOlds, SegmentNews;
    JoinLines(baseline);
    JoinLines(target);
    JoinNulFree(Lines(baseline));
    JoinNulFree(Lines(target));
    ShownTextsFrom(segments);
  }

  /** Applying a printed patch, of which only the last line may lack its line
      feed, gives exactly the text it was printed for; it is refused exactly
      when the path cannot be read back, or a body line reads as a file header. */
  lemma PrintedOutcome(baseline: string, target: string, path: string, segments: seq<Segment>)
    requires NulFree(baseline) && NulFree(target) && baseline != target
    requires SegmentOlds(segments) == Lines(baseline) && SegmentNews(segments) == Lines(target)
    requires Anchored(segments) && WellSplit(ShownTexts(segments))
    ensures Outcome(baseline, PatchText(path, segments), path) ==
              if PlainPath(path) && Unmistakable(segments) then Some(target) else None
  {
    hide Blocks, Reading, PatchText, PatchLines, HeadersName, Lines, Join, NulFree, Unmistakable,
         ShownTexts, WellSplit, Tidy, Anchored;
    var text := PatchText(path, segments);
    if PlainPath(path) {
      TextsNulFree(baseline, target, segments);
      PatchTextLines(path, segments);
      JoinLines(target);
      JoinLines(baseline);
      PatchHeadersOk(path, segments);
      ReadingOfPatch(Lines(baseline), path, segments);
      if |Hunks(Blocks(segments, 0, 0))| == 0 { NoHunkNoChange(Lines(baseline), segments); }
    } else {
      NamedPathShape(text, path);
      PathInText(path, segments);
    }
  }

  lemma PatchHeadersOk(path: string, segments: seq<Segment>)
    requires PlainPath(path)
    ensures HeadersName(PatchLines(path, segments), path) <==> Unmistakable(segments)
  {
    hide HeadersName, Unmistakable, PlainPath, NoneMarked;
    BlockMarks(segments, 0, 0);
    HeadersOfPatch(path, PartLines(Blocks(segments, 0, 0)));
  }

  lemma NoHunkNoChange(base: seq<string>, segments: seq<Segment>)
    requires Anchored(segments) && base == SegmentOlds(segments)
    requires |Hunks(Blocks(segments, 0, 0))| == 0
    ensures SegmentNews(segments) == base
  {
    hide Blocks, Anchored, SegmentOlds, SegmentNews;
    assert base[0..] == base;
    BlocksSplice(base, 0, 0, 0, segments);
    NoGap(base[0..0], SegmentNews(segments));
  }

  lemma PathInText(path: string, segments: seq<Segment>)
    ensures NulFree(PatchText(path, segments)) ==> NulFree(path)
  {
    hide Blocks, Join, NulFree;
    var lines := PatchLines(path, segments);
    JoinNulFree(lines);
    assert lines[0] in lines;
    NulFreeConcat("--- ", "a/" + path + "\n");
    NulFreeConcat("a/" + path, "\n");
    NulFreeConcat("a/", path);
  }
}
