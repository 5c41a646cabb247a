/** The unified patch format as `apply_single_file_unified_patch` reads it:
    hunk headers, body lines, and the layout of a whole patch. */
module Unified {
  import opened Text
  import Decimal

  /** One side of a hunk header as written: `start` or `start,count`. */
  datatype Span = Single(start: string) | Sized(start: string, count: string) {

    predicate Wf() {
      Decimal.IsNumeral(start) && (Sized? ==> Decimal.IsNumeral(count))
    }

    /** The span as written, followed by `tail`. */
    function Spell(tail: string): string {
      if Single? then start + tail else start + ("," + (count + tail))
    }

    function First(): nat
      requires Wf()
    {
      Decimal.Value(start)
    }

    function Count(): nat
      requires Wf()
    {
      if Single? then 1 else Decimal.Value(count)
    }
  }

  /** `@@ -old +new @@`, without what follows the closing marker. */
  datatype Header = Header(before: Span, after: Span) {
    predicate Wf() { before.Wf() && after.Wf() }

    function Spell(tail: string): string {
      "@@ -" + before.Spell(" +" + after.Spell(" @@" + tail))
    }
  }

  function Expect(s: string, word: string): (r: Option<string>)
    ensures r.Some? ==> s == word + r.value
  {
    if word <= s then Some(s[|word|..]) else None
  }

  function ReadSpan(s: string): (r: Option<(Span, string)>)
    ensures r.Some? ==> r.value.0.Wf() && s == r.value.0.Spell(r.value.1)
  {
    var (start, rest) :- Decimal.ReadNumeral(s);
    if rest == "" || rest[0] != ',' then Some((Single(start), rest)) else
    var (count, tail) :- Decimal.ReadNumeral(rest[1..]);
    assert rest == "," + rest[1..];
    Some((Sized(start, count), tail))
  }

  /** Reads up to the closing `@@`; returns the header and what follows it. */
  function ReadHeader(s: string): (r: Option<(Header, string)>)
    ensures r.Some? ==> r.value.0.Wf() && s == r.value.0.Spell(r.value.1)
  {
    var s1 :- Expect(s, "@@ -");
    var (before, s2) :- ReadSpan(s1);
    var s3 :- Expect(s2, " +");
    var (after, s4) :- ReadSpan(s3);
    var tail :- Expect(s4, " @@");
    Some((Header(before, after), tail))
  }

  /** `(?: .*)?(?:\n)?$` after the closing marker of a line. */
  predicate TailOk(tail: string) { tail == "" || tail == "\n" || tail[0] == ' ' }

  /** The `_HUNK` match of one line. */
  function HunkHeader(line: string): (r: Option<Header>)
    ensures r.Some? ==> r.value.Wf()
  {
    var (h, tail) :- ReadHeader(line);
    if TailOk(tail) then Some(h) else None
  }

  lemma ReadSpanOf(span: Span, rest: string)
    requires span.Wf()
    requires rest == "" || (!Decimal.IsDigit(rest[0]) && rest[0] != ',')
    ensures ReadSpan(span.Spell(rest)) == Some((span, rest))
  {
    if span.Single? {
      Decimal.ReadNumeralOf(span.start, rest);
    } else {
      var tail := span.count + rest;
      Decimal.ReadNumeralOf(span.start, "," + tail);
      assert ("," + tail)[1..] == tail;
      Decimal.ReadNumeralOf(span.count, rest);
    }
  }

  lemma ExpectOf(word: string, rest: string)
    ensures Expect(word + rest, word) == Some(rest)
  {
    assert (word + rest)[|word|..] == rest;
  }

  lemma ReadHeaderOf(h: Header, tail: string)
    requires h.Wf()
    ensures ReadHeader(h.Spell(tail)) == Some((h, tail))
  {
    var s4 := " @@" + tail;
    var s3 := h.after.Spell(s4);
    var s2 := " +" + s3;
    var s1 := h.before.Spell(s2);
    ExpectOf("@@ -", s1);
    ReadSpanOf(h.before, s2);
    ExpectOf(" +", s3);
    ReadSpanOf(h.after, s4);
    ExpectOf(" @@", tail);
  }

  // ---------- Body lines

  /** One body line of a hunk: context, deletion or insertion of a line of text. */
  datatype Edit = Keep(text: string) | Drop(text: string) | Add(text: string) {
    function Line(): string {
      (match this case Keep(_) => " " case Drop(_) => "-" case Add(_) => "+") + text
    }
  }

  function ReadEdit(line: string): (r: Option<Edit>)
    ensures r.Some? ==> line == r.value.Line()
    ensures r.None? ==> forall e: Edit :: line != e.Line()
  {
    if line == "" then None
    else
      assert line == [line[0]] + line[1..];
      match line[0]
      case ' ' => Some(Keep(line[1..]))
      case '-' => Some(Drop(line[1..]))
      case '+' => Some(Add(line[1..]))
      case _ => None
  }

  lemma ReadEditOf(e: Edit)
    ensures ReadEdit(e.Line()) == Some(e)
  {
    assert e.Line()[1..] == e.text;
  }

  /** The lines a hunk body claims to find, and the lines it leaves. */
  function OldSide(edits: seq<Edit>): seq<string> {
    if edits == [] then []
    else (if edits[0].Add? then [] else [edits[0].text]) + OldSide(edits[1..])
  }

  function NewSide(edits: seq<Edit>): seq<string> {
    if edits == [] then []
    else (if edits[0].Drop? then [] else [edits[0].text]) + NewSide(edits[1..])
  }

  function EditLines(edits: seq<Edit>): (lines: seq<string>)
    ensures |lines| == |edits|
    ensures forall i | 0 <= i < |edits| :: lines[i] == edits[i].Line()
  {
    if edits == [] then [] else [edits[0].Line()] + EditLines(edits[1..])
  }

  // ---------- Layout of a whole patch

  /** A patch is a run of parts: ignored lines, and hunks with their bodies. */
  datatype Part = Noise(line: string) | Block(header: string, edits: seq<Edit>) {

    /** Ignored lines are not hunk headers; a hunk's declared counts are those of its body. */
    predicate Wf() {
      match this
      case Noise(line) => HunkHeader(line).None?
      case Block(header, edits) =>
        var h := HunkHeader(header);
        && h.Some?
        && h.value.before.Count() == |OldSide(edits)|
        && h.value.after.Count() == |NewSide(edits)|
    }

    function Lines(): seq<string> {
      match this
      case Noise(line) => [line]
      case Block(header, edits) => [header] + EditLines(edits)
    }
  }

  predicate AllWf(parts: seq<Part>) {
    forall i | 0 <= i < |parts| :: parts[i].Wf()
  }

  function PartLines(parts: seq<Part>): seq<string> {
    if parts == [] then [] else parts[0].Lines() + PartLines(parts[1..])
  }

  /** Reads body lines until both declared counts are used up, exactly. */
  function ReadBody(lines: seq<string>, olds: nat, news: nat): (r: Option<seq<Edit>>)
    ensures r.Some? ==> |r.value| <= |lines|
  {
    if olds == 0 && news == 0 then Some([])
    else if lines == [] then None
    else
      var e :- ReadEdit(lines[0]);
      if (!e.Add? && olds == 0) || (!e.Drop? && news == 0) then None
      else
        var rest :- ReadBody(lines[1..],
                             if e.Add? then olds else olds - 1,
                             if e.Drop? then news else news - 1);
        Some([e] + rest)
  }

  function ReadPatch(lines: seq<string>): (r: Option<seq<Part>>)
    decreases |lines|
  {
    if lines == [] then Some([])
    else
      var h := HunkHeader(lines[0]);
      if h.None? then
        var rest :- ReadPatch(lines[1..]);
        Some([Noise(lines[0])] + rest)
      else
        var edits :- ReadBody(lines[1..], h.value.before.Count(), h.value.after.Count());
        var rest :- ReadPatch(lines[1 + |edits|..]);
        Some([Block(lines[0], edits)] + rest)
  }

  lemma {:induction false} ReadBodySound(lines: seq<string>, olds: nat, news: nat)
    ensures var r := ReadBody(lines, olds, news);
            r.Some? ==> && EditLines(r.value) == lines[..|r.value|]
                        && |OldSide(r.value)| == olds && |NewSide(r.value)| == news
  {
    var r := ReadBody(lines, olds, news);
    if r.Some? && !(olds == 0 && news == 0) {
      var e := ReadEdit(lines[0]).value;
      var olds', news' := if e.Add? then olds else olds - 1, if e.Drop? then news else news - 1;
      ReadBodySound(lines[1..], olds', news');
      var rest := ReadBody(lines[1..], olds', news').value;
      SidesCons(e, rest);
      assert lines[..1 + |rest|] == [lines[0]] + lines[1..][..|rest|];
    }
  }

  lemma SidesCons(e: Edit, rest: seq<Edit>)
    ensures OldSide([e] + rest) == (if e.Add? then [] else [e.text]) + OldSide(rest)
    ensures NewSide([e] + rest) == (if e.Drop? then [] else [e.text]) + NewSide(rest)
    ensures EditLines([e] + rest) == [e.Line()] + EditLines(rest)
  {
    assert ([e] + rest)[1..] == rest;
  }

  lemma {:induction false} ReadBodyOf(edits: seq<Edit>, rest: seq<string>)
    ensures ReadBody(EditLines(edits) + rest, |OldSide(edits)|, |NewSide(edits)|) == Some(edits)
  {
    if edits != [] {
      var tail := EditLines(edits[1..]) + rest;
      assert edits == [edits[0]] + edits[1..];
      SidesCons(edits[0], edits[1..]);
      assert EditLines(edits) + rest == [edits[0].Line()] + tail;
      assert ([edits[0].Line()] + tail)[1..] == tail;
      ReadEditOf(edits[0]);
      ReadBodyOf(edits[1..], rest);
    }
  }

  /** The first part of a patch that reads, and the lines after it. */
  lemma ReadPatchStep(lines: seq<string>)
    requires lines != [] && ReadPatch(lines).Some?
    ensures match HunkHeader(lines[0])
            case None =>
              ReadPatch(lines[1..]).Some?
              && ReadPatch(lines).value == [Noise(lines[0])] + ReadPatch(lines[1..]).value
            case Some(h) =>
              var body := ReadBody(lines[1..], h.before.Count(), h.after.Count());
              body.Some? && 1 + |body.value| <= |lines| && ReadPatch(lines[1 + |body.value|..]).Some?
              && ReadPatch(lines).value ==
                   [Block(lines[0], body.value)] + ReadPatch(lines[1 + |body.value|..]).value
  {
    hide HunkHeader, ReadBody;
  }

  lemma {:induction false} ReadPatchSound(lines: seq<string>)
    ensures ReadPatch(lines).Some? ==>
              AllWf(ReadPatch(lines).value) && PartLines(ReadPatch(lines).value) == lines
    decreases |lines|
  {
    hide ReadPatch, ReadBody, HunkHeader, PartLines, AllWf, EditLines, OldSide, NewSide;
    if lines == [] {
      ReadNothing();
    } else if ReadPatch(lines).Some? {
      ReadPatchStep(lines);
      var h := HunkHeader(lines[0]);
      if h.None? {
        ReadPatchSound(lines[1..]);
        NoiseSound(lines[0], ReadPatch(lines[1..]).value);
        assert lines == [lines[0]] + lines[1..];
      } else {
        var edits := ReadBody(lines[1..], h.value.before.Count(), h.value.after.Count()).value;
        ReadBodySound(lines[1..], h.value.before.Count(), h.value.after.Count());
        var rest := lines[1 + |edits|..];
        ReadPatchSound(rest);
        BlockSound(lines[0], h.value, edits, ReadPatch(rest).value);
        CutAt(lines, |edits|);
      }
    }
  }

  lemma ReadNothing()
    ensures ReadPatch([]) == Some([]) && AllWf([]) && PartLines([]) == []
  {
  }

  lemma NoiseSound(line: string, rest: seq<Part>)
    requires HunkHeader(line).None? && AllWf(rest)
    ensures AllWf([Noise(line)] + rest) && PartLines([Noise(line)] + rest) == [line] + PartLines(rest)
  {
    hide HunkHeader, AllWf, PartLines;
    Prepend(Noise(line), rest);
  }

  lemma BlockSound(header: string, h: Header, edits: seq<Edit>, rest: seq<Part>)
    requires HunkHeader(header) == Some(h) && AllWf(rest)
    requires h.before.Count() == |OldSide(edits)| && h.after.Count() == |NewSide(edits)|
    ensures AllWf([Block(header, edits)] + rest)
    ensures PartLines([Block(header, edits)] + rest) == [header] + EditLines(edits) + PartLines(rest)
  {
    hide HunkHeader, AllWf, PartLines, EditLines, OldSide, NewSide;
    Prepend(Block(header, edits), rest);
  }

  lemma CutAt(lines: seq<string>, n: nat)
    requires n < |lines|
    ensures lines == [lines[0]] + lines[1..][..n] + lines[1 + n..]
  {
  }

  lemma Prepend(part: Part, rest: seq<Part>)
    requires part.Wf() && AllWf(rest)
    ensures AllWf([part] + rest)
    ensures PartLines([part] + rest) == part.Lines() + PartLines(rest)
  {
    assert ([part] + rest)[1..] == rest;
  }

  /** Reading is the inverse of laying out: with `ReadPatchSound`, a patch has
      exactly one layout or none. */
  lemma {:induction false} ReadPatchOf(parts: seq<Part>)
    requires AllWf(parts)
    ensures ReadPatch(PartLines(parts)) == Some(parts)
  {
    hide *;
    if parts == [] {
      ReadNothing();
    } else {
      PeelParts(parts);
      ReadPatchOf(parts[1..]);
      ReadPatchCons(parts[0], PartLines(parts[1..]));
      assert parts == [parts[0]] + parts[1..];
    }
  }

  lemma PeelParts(parts: seq<Part>)
    requires parts != []
    ensures PartLines(parts) == parts[0].Lines() + PartLines(parts[1..])
    ensures AllWf(parts) ==> parts[0].Wf() && AllWf(parts[1..])
  {
    hide HunkHeader, EditLines;
    assert forall i | 0 <= i < |parts[1..]| :: parts[1..][i] == parts[i + 1];
  }

  lemma ReadPatchCons(part: Part, tail: seq<string>)
    requires part.Wf() && ReadPatch(tail).Some?
    ensures ReadPatch(part.Lines() + tail) == Some([part] + ReadPatch(tail).value)
  {
    hide HunkHeader;
    match part
    case Noise(line) =>
      assert ([line] + tail)[1..] == tail;
    case Block(header, edits) =>
      ReadBodyOf(edits, tail);
      ReadPatchBlock(header, edits, tail);
      assert [header] + EditLines(edits) + tail == [header] + (EditLines(edits) + tail);
  }

  lemma ReadPatchBlock(header: string, edits: seq<Edit>, tail: seq<string>)
    requires HunkHeader(header).Some? && ReadPatch(tail).Some?
    requires var h := HunkHeader(header).value;
             ReadBody(EditLines(edits) + tail, h.before.Count(), h.after.Count()) == Some(edits)
    ensures ReadPatch([header] + (EditLines(edits) + tail)) ==
              Some([Block(header, edits)] + ReadPatch(tail).value)
  {
    hide *;
    var lines := [header] + (EditLines(edits) + tail);
    Layered(header, EditLines(edits), tail);
    ReadPatchUnfold(lines, edits, ReadPatch(tail).value);
  }

  lemma Layered(header: string, body: seq<string>, tail: seq<string>)
    ensures var lines := [header] + (body + tail);
            lines[0] == header && lines[1..] == body + tail && lines[1 + |body|..] == tail
  {
  }

  lemma ReadPatchUnfold(lines: seq<string>, edits: seq<Edit>, rest: seq<Part>)
    requires lines != [] && HunkHeader(lines[0]).Some? && 1 + |edits| <= |lines|
    requires var h := HunkHeader(lines[0]).value;
             ReadBody(lines[1..], h.before.Count(), h.after.Count()) == Some(edits)
    requires ReadPatch(lines[1 + |edits|..]) == Some(rest)
    ensures ReadPatch(lines) == Some([Block(lines[0], edits)] + rest)
  {
    hide HunkHeader, ReadBody;
  }
}
