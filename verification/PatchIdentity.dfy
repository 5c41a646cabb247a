/** `normalize_patch_v1`: the byte form that gives a patch its identity. */
module PatchIdentity {
  import opened Text
  import opened Applier
  import opened HeaderNames

  datatype IdentityError = NulText

  // ---------- Line ends

  /** `replace("\r\n", "\n")`. */
  function FoldCrLf(s: string): string {
    if s == "" then ""
    else if |s| >= 2 && s[0] == '\r' && s[1] == '\n' then "\n" + FoldCrLf(s[2..])
    else [s[0]] + FoldCrLf(s[1..])
  }

  /** `replace("\r", "\n")`. */
  function FoldCr(s: string): string {
    if s == "" then "" else [if s[0] == '\r' then '\n' else s[0]] + FoldCr(s[1..])
  }

  /** `split("\n")`: always at least one piece. */
  function Pieces(s: string): (ps: seq<string>)
    ensures ps != []
    ensures forall i | 0 <= i < |ps| :: '\n' !in ps[i]
  {
    if s == "" then [""]
    else if s[0] == '\n' then [""] + Pieces(s[1..])
    else
      var rest := Pieces(s[1..]);
      [[s[0]] + rest[0]] + rest[1..]
  }

  /** `"\n".join(...)`. */
  function JoinLf(lines: seq<string>): string {
    if lines == [] then ""
    else if |lines| == 1 then lines[0]
    else lines[0] + ("\n" + JoinLf(lines[1..]))
  }

  // ---------- One line

  predicate IsBlank(c: char) { c == ' ' || c == '\t' }

  /** `rstrip(" \t")`. */
  function RStrip(s: string): string {
    if s != "" && IsBlank(s[|s| - 1]) then RStrip(s[..|s| - 1]) else s
  }

  predicate FileHeader(line: string) { OLD_MARK <= line || NEW_MARK <= line }

  /** The normal form of a line, or nothing for an index line. */
  function NormalLine(piece: string): Option<string> {
    var line := RStrip(piece);
    if "index " <= line then None
    else if FileHeader(line) then Some(UntilTab(line))
    else Some(line)
  }

  function NormalLines(pieces: seq<string>): seq<string> {
    if pieces == [] then [] else Kept(pieces[0]) + NormalLines(pieces[1..])
  }

  function PopBlank(lines: seq<string>): seq<string> {
    if lines != [] && lines[|lines| - 1] == "" then PopBlank(lines[..|lines| - 1]) else lines
  }

  function Identity(raw: string): seq<string> {
    PopBlank(NormalLines(Pieces(FoldCr(FoldCrLf(raw)))))
  }

  function Normalize(raw: string): string { JoinLf(Identity(raw)) + "\n" }

  function Kept(piece: string): seq<string> {
    match NormalLine(piece) case None => [] case Some(l) => [l]
  }

  lemma {:induction false} NormalLinesSnoc(pieces: seq<string>, piece: string)
    ensures NormalLines(pieces + [piece]) == NormalLines(pieces) + Kept(piece)
  {
    hide Kept;
    if pieces == [] {
      assert [piece][1..] == [];
    } else {
      assert (pieces + [piece])[1..] == pieces[1..] + [piece];
      NormalLinesSnoc(pieces[1..], piece);
      Assoc(Kept(pieces[0]), NormalLines(pieces[1..]), Kept(piece));
    }
  }

  method NormalizePatch(raw: string) returns (r: Result<string, IdentityError>)
    ensures r == if NulFree(raw) then Ok(Normalize(raw)) else Err(NulText)
  {
    hide NormalLine, NormalLines, PopBlank, FoldCr, FoldCrLf, NulFree;
    if !NulFree(raw) { return Err(NulText); }
    var pieces := Pieces(FoldCr(FoldCrLf(raw)));
    var lines: seq<string> := [];
    assert pieces[..0] == [];
    NoNormalLines();
    for i := 0 to |pieces|
      invariant lines == NormalLines(pieces[..i])
    {
      NormalLinesSnoc(pieces[..i], pieces[i]);
      assert pieces[..i + 1] == pieces[..i] + [pieces[i]];
      KeptLine(pieces[i]);
      var line := RStrip(pieces[i]);
      if "index " <= line { continue; }
      if FileHeader(line) { line := UntilTab(line); }
      lines := lines + [line];
    }
    assert pieces[..|pieces|] == pieces;
    ghost var all := lines;
    while lines != [] && lines[|lines| - 1] == ""
      invariant PopBlank(lines) == PopBlank(all)
    {
      PopBlankStep(lines);
      lines := lines[..|lines| - 1];
    }
    PopBlankStep(lines);
    return Ok(JoinLf(lines) + "\n");
  }

  lemma NoNormalLines()
    ensures NormalLines([]) == []
  {
  }

  lemma KeptLine(piece: string)
    ensures var line := RStrip(piece);
            NormalLine(piece) ==
              if "index " <= line then None
              else Some(if FileHeader(line) then UntilTab(line) else line)
  {
  }

  lemma PopBlankStep(lines: seq<string>)
    ensures PopBlank(lines) ==
              if lines != [] && lines[|lines| - 1] == "" then PopBlank(lines[..|lines| - 1]) else lines
  {
  }

  // ---------- Joining and splitting again

  lemma {:induction false} PiecesOfLine(line: string, rest: string)
    requires '\n' !in line
    ensures Pieces(line + ("\n" + rest)) == [line] + Pieces(rest)
    ensures Pieces(line) == [line]
  {
    if line == "" {
      assert line + ("\n" + rest) == "\n" + rest;
      assert ("\n" + rest)[1..] == rest;
    } else {
      var s := line + ("\n" + rest);
      assert s[1..] == line[1..] + ("\n" + rest);
      assert s[0] == line[0] && line[0] in line;
      PiecesOfLine(line[1..], rest);
      assert line == [line[0]] + line[1..];
    }
  }

  lemma {:induction false} PiecesOfJoin(lines: seq<string>)
    requires lines != [] && forall i | 0 <= i < |lines| :: '\n' !in lines[i]
    ensures Pieces(JoinLf(lines)) == lines
  {
    hide Pieces;
    if |lines| == 1 {
      PiecesOfLine(lines[0], "");
    } else {
      assert forall i | 0 <= i < |lines[1..]| :: lines[1..][i] == lines[i + 1];
      PiecesOfJoin(lines[1..]);
      PiecesOfLine(lines[0], JoinLf(lines[1..]));
      assert lines == [lines[0]] + lines[1..];
    }
  }

  lemma {:induction false} JoinLfSnoc(lines: seq<string>)
    requires lines != []
    ensures JoinLf(lines) + "\n" == JoinLf(lines + [""])
  {
    var all := lines + [""];
    if |lines| == 1 {
      assert all[1..] == [""];
    } else {
      JoinLfSnoc(lines[1..]);
      assert all[1..] == lines[1..] + [""];
    }
  }

  predicate CrFree(s: string) { '\r' !in s }

  lemma {:induction false} FoldFixed(s: string)
    requires CrFree(s)
    ensures FoldCrLf(s) == s && FoldCr(s) == s
  {
    if s != "" {
      assert s == [s[0]] + s[1..];
      FoldFixed(s[1..]);
    }
  }

  lemma {:induction false} FoldCrFree(s: string)
    ensures CrFree(FoldCr(s))
  {
    if s != "" { FoldCrFree(s[1..]); }
  }

  lemma {:induction false} PiecesCrFree(s: string)
    requires CrFree(s)
    ensures forall i | 0 <= i < |Pieces(s)| :: CrFree(Pieces(s)[i])
  {
    if s != "" {
      assert s == [s[0]] + s[1..];
      PiecesCrFree(s[1..]);
    }
  }

  lemma {:induction false} JoinLfCrFree(lines: seq<string>)
    requires forall i | 0 <= i < |lines| :: CrFree(lines[i])
    ensures CrFree(JoinLf(lines))
  {
    if |lines| > 1 {
      assert forall i | 0 <= i < |lines[1..]| :: lines[1..][i] == lines[i + 1];
      JoinLfCrFree(lines[1..]);
    }
  }

  // ---------- Trailing blanks

  lemma {:induction false} RStripShape(s: string)
    ensures RStrip(s) <= s
    ensures RStrip(s) != "" ==> !IsBlank(RStrip(s)[|RStrip(s)| - 1])
    ensures forall i | |RStrip(s)| <= i < |s| :: IsBlank(s[i])
    decreases |s|
  {
    if s != "" && IsBlank(s[|s| - 1]) { RStripShape(s[..|s| - 1]); }
  }

  lemma RStripFixed(s: string)
    ensures RStrip(s) == s <==> (s == "" || !IsBlank(s[|s| - 1]))
    ensures RStrip(RStrip(s)) == RStrip(s)
  {
    RStripShape(s);
  }

  // ---------- What one application leaves for the next

  /** A line a first application can leave: rid of its trailing blanks, or a
      file header cut at its tab. */
  predicate Settled(line: string) {
    && '\n' !in line && CrFree(line)
    && (FileHeader(line) ==> '\t' !in line)
    && (!FileHeader(line) ==> RStrip(line) == line && !("index " <= line))
  }

  lemma NormalLineSettled(piece: string)
    requires '\n' !in piece && CrFree(piece)
    ensures NormalLine(piece).Some? ==> Settled(NormalLine(piece).value)
  {
    hide RStrip, UntilTab;
    var line := RStrip(piece);
    RStripShape(piece);
    RStripFixed(piece);
    UntilTabShape(line);
    assert forall c | c in line :: c in piece;
    assert forall c | c in UntilTab(line) :: c in line;
    if FileHeader(line) { CutHeader(line); }
  }

  lemma {:induction false} UntilTabPrefix(mark: string, line: string)
    requires mark <= line && '\t' !in mark
    ensures mark <= UntilTab(line)
  {
    if mark != "" {
      assert mark[0] in mark;
      assert forall c | c in mark[1..] :: c in mark;
      UntilTabPrefix(mark[1..], line[1..]);
    }
  }

  lemma CutHeader(line: string)
    requires FileHeader(line)
    ensures FileHeader(UntilTab(line)) && UntilTab(line) != ""
  {
    hide UntilTab;
    if OLD_MARK <= line { UntilTabPrefix(OLD_MARK, line); } else { UntilTabPrefix(NEW_MARK, line); }
  }

  /** A second application only strips trailing blanks. */
  lemma SettledAgain(line: string)
    requires Settled(line)
    ensures NormalLine(line) == Some(RStrip(line))
    ensures Settled(RStrip(line))
    ensures line != "" ==> RStrip(line) != ""
  {
    hide RStrip, UntilTab;
    RStripShape(line);
    RStripFixed(line);
    assert forall c | c in RStrip(line) :: c in line;
    UntilTabShape(RStrip(line));
    if FileHeader(line) {
      assert !IsBlank(line[0]) && line[0] != 'i';
      assert RStrip(line) != "";
    }
  }

  predicate AllSettled(lines: seq<string>) { forall i | 0 <= i < |lines| :: Settled(lines[i]) }

  function Stripped(lines: seq<string>): (r: seq<string>)
    ensures |r| == |lines| && forall i | 0 <= i < |lines| :: r[i] == RStrip(lines[i])
  {
    seq(|lines|, i requires 0 <= i < |lines| => RStrip(lines[i]))
  }

  lemma {:induction false} NormalLinesSettled(pieces: seq<string>)
    requires forall i | 0 <= i < |pieces| :: '\n' !in pieces[i] && CrFree(pieces[i])
    ensures AllSettled(NormalLines(pieces))
  {
    if pieces != [] {
      hide NormalLine, Settled, CrFree;
      assert forall i | 0 <= i < |pieces[1..]| :: pieces[1..][i] == pieces[i + 1];
      NormalLinesSettled(pieces[1..]);
      NormalLineSettled(pieces[0]);
    }
  }

  lemma {:induction false} NormalLinesAgain(lines: seq<string>)
    requires AllSettled(lines)
    ensures NormalLines(lines) == Stripped(lines)
  {
    if lines != [] {
      hide NormalLine, Settled, RStrip;
      assert forall i | 0 <= i < |lines[1..]| :: lines[1..][i] == lines[i + 1];
      NormalLinesAgain(lines[1..]);
      SettledAgain(lines[0]);
      assert Stripped(lines) == [RStrip(lines[0])] + Stripped(lines[1..]);
    }
  }

  predicate Trimmed(lines: seq<string>) { lines != [] ==> lines[|lines| - 1] != "" }

  lemma {:induction false} PopBlankShape(lines: seq<string>)
    ensures PopBlank(lines) <= lines && Trimmed(PopBlank(lines))
    ensures forall i | |PopBlank(lines)| <= i < |lines| :: lines[i] == ""
    decreases |lines|
  {
    if lines != [] && lines[|lines| - 1] == "" { PopBlankShape(lines[..|lines| - 1]); }
  }

  lemma IdentitySettled(raw: string)
    ensures AllSettled(Identity(raw)) && Trimmed(Identity(raw))
  {
    hide Settled, NormalLines, PopBlank, FoldCr, FoldCrLf, Pieces;
    var s := FoldCr(FoldCrLf(raw));
    FoldCrFree(FoldCrLf(raw));
    PiecesCrFree(s);
    NormalLinesSettled(Pieces(s));
    PopBlankShape(NormalLines(Pieces(s)));
  }

  /** The identity of a text already normal, line by line. */
  lemma IdentityAgain(lines: seq<string>)
    requires AllSettled(lines) && Trimmed(lines)
    ensures Identity(JoinLf(lines) + "\n") == Stripped(lines)
    ensures AllSettled(Stripped(lines)) && Trimmed(Stripped(lines))
  {
    hide Settled, NormalLines, PopBlank, FoldCr, FoldCrLf, Pieces, RStrip, JoinLf;
    StrippedSettled(lines);
    if lines == [] {
      EmptyAgain();
    } else {
      var all := lines + [""];
      JoinLfSnoc(lines);
      SettledPlain(lines);
      JoinLfCrFree(all);
      FoldFixed(JoinLf(all));
      PiecesOfJoin(all);
      NormalLinesSnoc(lines, "");
      BlankLine();
      NormalLinesAgain(lines);
      PopOne(Stripped(lines));
    }
  }

  lemma StrippedSettled(lines: seq<string>)
    requires AllSettled(lines) && Trimmed(lines)
    ensures AllSettled(Stripped(lines)) && Trimmed(Stripped(lines))
  {
    hide Settled, RStrip;
    forall i | 0 <= i < |lines| ensures Settled(Stripped(lines)[i]) && (lines[i] != "" ==> Stripped(lines)[i] != "") {
      SettledAgain(lines[i]);
    }
  }

  lemma SettledPlain(lines: seq<string>)
    requires AllSettled(lines)
    ensures forall i | 0 <= i < |lines + [""]| :: '\n' !in (lines + [""])[i] && CrFree((lines + [""])[i])
  {
  }

  lemma BlankLine()
    ensures NormalLine("") == Some("")
  {
  }

  lemma EmptyAgain()
    ensures Identity(JoinLf([]) + "\n") == [] && Stripped([]) == []
  {
    assert JoinLf([]) + "\n" == "\n";
    assert "\n"[1..] == "";
    assert ["", ""][1..] == [""];
    assert Pieces("\n") == ["", ""];
    FoldFixed("\n");
    assert ["", ""][..1] == [""];
    assert [""][..0] == [];
    BlankLine();
    assert NormalLines([""]) == [""];
    assert NormalLines(["", ""]) == ["", ""];
    PopBlankStep(["", ""]);
    PopBlankStep([""]);
    PopBlankStep([]);
  }

  lemma PopOne(lines: seq<string>)
    requires Trimmed(lines)
    ensures PopBlank(lines + [""]) == lines
  {
    assert (lines + [""])[..|lines|] == lines;
  }

  // ---------- Normalization stabilises

  lemma StrippedTwice(lines: seq<string>)
    ensures Stripped(Stripped(lines)) == Stripped(lines)
  {
    forall i | 0 <= i < |lines| ensures RStrip(RStrip(lines[i])) == RStrip(lines[i]) { RStripFixed(lines[i]); }
  }

  /** For every text, with any line ends: three applications equal two. */
  lemma NormalizeStabilises(raw: string)
    ensures Normalize(Normalize(Normalize(raw))) == Normalize(Normalize(raw))
  {
    hide Identity, JoinLf, Stripped, AllSettled, Trimmed;
    IdentitySettled(raw);
    IdentityAgain(Identity(raw));
    IdentityAgain(Stripped(Identity(raw)));
    StrippedTwice(Identity(raw));
  }

  /** A file header with a blank just before its first tab. */
  predicate BlankBeforeTab(piece: string) {
    var line := RStrip(piece);
    && FileHeader(line) && '\t' in line
    && var cut := UntilTab(line); cut != "" && IsBlank(cut[|cut| - 1])
  }

  lemma FixedLine(piece: string)
    ensures NormalLine(piece).Some? ==>
              (RStrip(NormalLine(piece).value) == NormalLine(piece).value <==> !BlankBeforeTab(piece))
    ensures NormalLine(piece).None? ==> !BlankBeforeTab(piece)
  {
    hide RStrip, UntilTab;
    var line := RStrip(piece);
    RStripFixed(piece);
    UntilTabShape(line);
    if FileHeader(line) {
      CutHeader(line);
      RStripFixed(UntilTab(line));
      assert line[0] != "index "[0];
    }
  }

  lemma {:induction false} FixedLines(pieces: seq<string>)
    ensures Stripped(NormalLines(pieces)) == NormalLines(pieces) <==>
            forall i | 0 <= i < |pieces| :: !BlankBeforeTab(pieces[i])
  {
    if pieces != [] {
      hide NormalLine, BlankBeforeTab, RStrip;
      var p, rest := pieces[0], pieces[1..];
      FixedLine(p);
      FixedLines(rest);
      assert forall i | 0 <= i < |rest| :: rest[i] == pieces[i + 1];
      if NormalLine(p).Some? {
        StrippedCons(NormalLine(p).value, NormalLines(rest));
      } else {
        NoGap([], NormalLines(rest));
      }
    }
  }

  lemma StrippedCons(line: string, rest: seq<string>)
    ensures Stripped([line] + rest) == [line] + rest <==> RStrip(line) == line && Stripped(rest) == rest
  {
    hide RStrip;
    var all := [line] + rest;
    assert all[0] == line && all[1..] == rest;
    assert Stripped(all) == [RStrip(line)] + Stripped(rest);
    assert ([RStrip(line)] + Stripped(rest))[1..] == Stripped(rest);
  }

  lemma StrippedPopped(lines: seq<string>)
    ensures Stripped(PopBlank(lines)) == PopBlank(lines) <==> Stripped(lines) == lines
  {
    hide PopBlank;
    PopBlankShape(lines);
    var kept := PopBlank(lines);
    assert RStrip("") == "";
    hide RStrip;
    if Stripped(kept) == kept {
      forall i | 0 <= i < |lines| ensures RStrip(lines[i]) == lines[i] {
        if i < |kept| { assert lines[i] == kept[i] == Stripped(kept)[i]; }
      }
      assert Stripped(lines) == lines;
    }
    if Stripped(lines) == lines {
      forall i | 0 <= i < |kept| ensures RStrip(kept[i]) == kept[i] {
        assert kept[i] == lines[i] == Stripped(lines)[i];
      }
      assert Stripped(kept) == kept;
    }
  }

  lemma JoinLfInjective(a: seq<string>, b: seq<string>)
    requires |a| == |b| && JoinLf(a) + "\n" == JoinLf(b) + "\n"
    requires forall i | 0 <= i < |a| :: '\n' !in a[i] && '\n' !in b[i]
    ensures a == b
  {
    hide JoinLf, Pieces;
    if a != [] {
      assert (JoinLf(a) + "\n")[..|JoinLf(a) + "\n"| - 1] == JoinLf(a);
      assert (JoinLf(b) + "\n")[..|JoinLf(b) + "\n"| - 1] == JoinLf(b);
      PiecesOfJoin(a);
      PiecesOfJoin(b);
    }
  }

  lemma NoLfInside(lines: seq<string>)
    requires AllSettled(lines)
    ensures forall i | 0 <= i < |lines| :: '\n' !in lines[i]
  {
  }

  /** Two applications equal one exactly when no file header line has a blank
      just before its first tab. */
  lemma NormalizeIdempotentIff(raw: string)
    ensures Normalize(Normalize(raw)) == Normalize(raw) <==>
            forall i | 0 <= i < |Pieces(FoldCr(FoldCrLf(raw)))| ::
              !BlankBeforeTab(Pieces(FoldCr(FoldCrLf(raw)))[i])
  {
    hide JoinLf, Stripped, AllSettled, Trimmed, Pieces, NormalLines, PopBlank, FoldCr, FoldCrLf, BlankBeforeTab;
    var lines := Identity(raw);
    IdentitySettled(raw);
    IdentityAgain(lines);
    NoLfInside(lines);
    NoLfInside(Stripped(lines));
    if Normalize(Normalize(raw)) == Normalize(raw) { JoinLfInjective(lines, Stripped(lines)); }
    FixedLines(Pieces(FoldCr(FoldCrLf(raw))));
    StrippedPopped(NormalLines(Pieces(FoldCr(FoldCrLf(raw)))));
  }
}