/** What a patch's identity does not depend on. */
module IdentityIgnores {
  import opened Text
  import opened Applier
  import opened PatchIdentity
  import Dedupe

  predicate LineFree(line: string) { '\n' !in line && CrFree(line) }

  predicate AllLineFree(lines: seq<string>) { forall i | 0 <= i < |lines| :: LineFree(lines[i]) }

  /** Two patches share an identity exactly when the same lines are left, after
      each is normalized and trailing empty ones are dropped. */
  lemma SameIdentityIff(p: string, q: string)
    ensures Normalize(p) == Normalize(q) <==> Identity(p) == Identity(q)
  {
    hide Identity, JoinLf, AllSettled, Trimmed;
    IdentitySettled(p);
    IdentitySettled(q);
    if Normalize(p) == Normalize(q) { Dedupe.JoinLfSame(Identity(p), Identity(q)); }
  }

  lemma IdentityOfLines(lines: seq<string>)
    requires lines != [] && AllLineFree(lines)
    ensures Identity(JoinLf(lines)) == PopBlank(NormalLines(lines))
  {
    hide JoinLf, NormalLines, PopBlank, FoldCr, FoldCrLf, Pieces;
    assert forall i | 0 <= i < |lines| :: LineFree(lines[i]);
    JoinLfCrFree(lines);
    FoldFixed(JoinLf(lines));
    PiecesOfJoin(lines);
  }

  lemma {:induction false} NormalLinesConcat(a: seq<string>, b: seq<string>)
    ensures NormalLines(a + b) == NormalLines(a) + NormalLines(b)
  {
    hide Kept;
    if a == [] {
      assert a + b == b;
    } else {
      assert (a + b)[0] == a[0] && (a + b)[1..] == a[1..] + b;
      NormalLinesConcat(a[1..], b);
      Assoc(Kept(a[0]), NormalLines(a[1..]), NormalLines(b));
    }
  }

  lemma NormalLinesMiddle(a: seq<string>, x: string, b: seq<string>)
    ensures NormalLines(a + [x] + b) == NormalLines(a) + Kept(x) + NormalLines(b)
  {
    hide NormalLines, Kept;
    NormalLinesConcat(a + [x], b);
    NormalLinesSnoc(a, x);
  }

  /** One line may be replaced by any line with the same normal form. */
  lemma SameNormalLineIgnored(a: seq<string>, x: string, y: string, b: seq<string>)
    requires AllLineFree(a) && LineFree(x) && LineFree(y) && AllLineFree(b) && NormalLine(x) == NormalLine(y)
    ensures Normalize(JoinLf(a + [x] + b)) == Normalize(JoinLf(a + [y] + b))
  {
    hide JoinLf, NormalLines, PopBlank, Identity, NormalLine, LineFree;
    IdentityOfLines(a + [x] + b);
    IdentityOfLines(a + [y] + b);
    NormalLinesMiddle(a, x, b);
    NormalLinesMiddle(a, y, b);
  }

  lemma IndexLineDropped(rest: string)
    requires LineFree(rest) && rest != "" && !IsBlank(rest[|rest| - 1])
    ensures Kept("index " + rest) == [] && LineFree("index " + rest)
  {
    var x := "index " + rest;
    assert x[|x| - 1] == rest[|rest| - 1];
    RStripFixed(x);
  }

  lemma Together(a: seq<string>, x: string, b: seq<string>)
    requires AllLineFree(a) && LineFree(x) && AllLineFree(b)
    ensures AllLineFree(a + [x] + b) && AllLineFree(a + b)
  {
    hide LineFree;
  }

  /** Index lines do not count. */
  lemma IndexLineIgnored(a: seq<string>, rest: string, b: seq<string>)
    requires AllLineFree(a) && LineFree(rest) && AllLineFree(b) && a + b != []
    requires rest != "" && !IsBlank(rest[|rest| - 1])
    ensures Normalize(JoinLf(a + ["index " + rest] + b)) == Normalize(JoinLf(a + b))
  {
    hide *;
    var x := "index " + rest;
    IndexLineDropped(rest);
    Together(a, x, b);
    IdentityOfLines(a + [x] + b);
    IdentityOfLines(a + b);
    NormalLinesMiddle(a, x, b);
    NormalLinesConcat(a, b);
    assert NormalLines(a) + [] + NormalLines(b) == NormalLines(a) + NormalLines(b);
    SameIdentityIff(JoinLf(a + [x] + b), JoinLf(a + b));
  }

  /** Blank lines at the end do not count. */
  lemma BlankTailIgnored(a: seq<string>, blanks: string)
    requires AllLineFree(a) && a != [] && forall i | 0 <= i < |blanks| :: IsBlank(blanks[i])
    ensures Normalize(JoinLf(a + [blanks])) == Normalize(JoinLf(a))
  {
    hide *;
    BlankKept(blanks);
    NoLines();
    Together(a, blanks, []);
    assert a + [blanks] + [] == a + [blanks] && a + [] == a;
    IdentityOfLines(a + [blanks]);
    IdentityOfLines(a);
    NormalLinesSnoc(a, blanks);
    PopMore(NormalLines(a));
    SameIdentityIff(JoinLf(a + [blanks]), JoinLf(a));
  }

  lemma NoLines()
    ensures AllLineFree([])
  {
  }

  lemma PopMore(lines: seq<string>)
    ensures PopBlank(lines + [""]) == PopBlank(lines)
  {
    assert (lines + [""])[..|lines|] == lines;
  }

  lemma BlankKept(blanks: string)
    requires forall i | 0 <= i < |blanks| :: IsBlank(blanks[i])
    ensures Kept(blanks) == [""] && LineFree(blanks)
  {
    RStripMore("", blanks);
    assert "" + blanks == blanks;
  }

  lemma {:induction false} RStripMore(line: string, blanks: string)
    requires forall i | 0 <= i < |blanks| :: IsBlank(blanks[i])
    ensures RStrip(line + blanks) == RStrip(line)
  {
    if blanks == "" {
      assert line + blanks == line;
    } else {
      var n := |blanks| - 1;
      assert (line + blanks)[..|line| + n] == line + blanks[..n];
      RStripMore(line, blanks[..n]);
    }
  }

  /** Blanks at the end of a line do not count. */
  lemma TrailingBlanksIgnored(a: seq<string>, line: string, blanks: string, b: seq<string>)
    requires AllLineFree(a) && LineFree(line) && AllLineFree(b)
    requires forall i | 0 <= i < |blanks| :: IsBlank(blanks[i])
    ensures Normalize(JoinLf(a + [line + blanks] + b)) == Normalize(JoinLf(a + [line] + b))
  {
    hide Normalize, JoinLf;
    RStripMore(line, blanks);
    SameNormalLineIgnored(a, line + blanks, line, b);
  }

  lemma {:induction false} UntilTabOf(head: string, rest: string)
    requires '\t' !in head
    ensures UntilTab(head + "\t" + rest) == head && UntilTab(head) == head
  {
    if head == "" {
      assert head + "\t" + rest == "\t" + rest;
    } else {
      assert (head + "\t" + rest)[1..] == head[1..] + "\t" + rest;
      UntilTabOf(head[1..], rest);
    }
  }

  /** Time stamps after a file header's tab do not count. */
  lemma StampIgnored(a: seq<string>, header: string, stamp: string, b: seq<string>)
    requires AllLineFree(a) && LineFree(header) && LineFree(stamp) && AllLineFree(b)
    requires FileHeader(header) && '\t' !in header && RStrip(header) == header
    ensures Normalize(JoinLf(a + [header + "\t" + stamp] + b)) == Normalize(JoinLf(a + [header] + b))
  {
    hide Normalize, JoinLf;
    StampedHeader(header, stamp);
    SameNormalLineIgnored(a, header + "\t" + stamp, header, b);
  }

  lemma StampedHeader(header: string, stamp: string)
    requires FileHeader(header) && '\t' !in header && RStrip(header) == header
    ensures NormalLine(header + "\t" + stamp) == NormalLine(header)
  {
    var line := header + "\t" + stamp;
    hide RStrip, UntilTab;
    UntilTabOf(header, "");
    var short := RStrip(stamp);
    RStripShape(stamp);
    if short == "" {
      assert forall i | 0 <= i < |"\t" + stamp| :: IsBlank(("\t" + stamp)[i]);
      RStripMore(header, "\t" + stamp);
      assert line == header + ("\t" + stamp);
    } else {
      assert line == header + "\t" + short + stamp[|short|..];
      RStripMore(header + "\t" + short, stamp[|short|..]);
      var kept := header + "\t" + short;
      assert kept[|kept| - 1] == short[|short| - 1];
      RStripFixed(kept);
      UntilTabOf(header, short);
      HeaderPrefix(header, "\t" + short);
    }
  }

  lemma HeaderPrefix(header: string, more: string)
    requires FileHeader(header)
    ensures FileHeader(header + more) && !("index " <= header + more) && !("index " <= header)
  {
    assert (header + more)[0] == header[0];
  }

  /** The same text with CRLF line ends. */
  function ToCrLf(s: string): string {
    if s == "" then "" else (if s[0] == '\n' then "\r\n" else [s[0]]) + ToCrLf(s[1..])
  }

  lemma {:induction false} FoldBack(s: string)
    requires CrFree(s)
    ensures FoldCrLf(ToCrLf(s)) == s
  {
    if s != "" {
      FoldBack(s[1..]);
      var rest := ToCrLf(s[1..]);
      if s[0] == '\n' {
        assert ToCrLf(s) == "\r\n" + rest && ("\r\n" + rest)[2..] == rest;
      } else {
        assert ToCrLf(s) == [s[0]] + rest && ([s[0]] + rest)[1..] == rest;
      }
    }
  }

  /** Line ends do not count. */
  lemma LineEndsIgnored(s: string)
    requires CrFree(s)
    ensures Normalize(ToCrLf(s)) == Normalize(s)
  {
    hide FoldCrLf, FoldCr, Pieces, NormalLines, PopBlank, JoinLf, ToCrLf;
    FoldBack(s);
    FoldFixed(s);
  }

  /** The same text with CR line ends. */
  function ToCr(s: string): string {
    if s == "" then "" else [if s[0] == '\n' then '\r' else s[0]] + ToCr(s[1..])
  }

  lemma {:induction false} FoldCrBack(s: string)
    requires CrFree(s)
    ensures FoldCrLf(ToCr(s)) == ToCr(s) && FoldCr(ToCr(s)) == s && '\n' !in ToCr(s)
  {
    if s != "" {
      FoldCrBack(s[1..]);
      assert ToCr(s)[1..] == ToCr(s[1..]);
    }
  }

  /** Nor do the line ends of old Macs. */
  lemma CrEndsIgnored(s: string)
    requires CrFree(s)
    ensures Normalize(ToCr(s)) == Normalize(s)
  {
    hide FoldCrLf, FoldCr, Pieces, NormalLines, PopBlank, JoinLf, ToCr;
    FoldCrBack(s);
    FoldFixed(s);
  }
}
