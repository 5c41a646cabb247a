/** Patches as POSIX.1 reads them: a hunk whose old range is empty goes after
    the line that its header names, and not before it. */
module Posix {
  import opened Text
  import opened Unified
  import opened Splice
  import opened Applier
  import opened Undo

  predicate Inserts(h: Hunk) { h.Olds() == [] }

  /** The same hunk where POSIX.1 puts it. */
  function Placed(h: Hunk): (r: Hunk)
    ensures r.Olds() == h.Olds() && r.News() == h.News()
  {
    if Inserts(h) then Hunk(h.pos + 1, h.edits) else h
  }

  function PlacedAll(hs: seq<Hunk>): (r: seq<Hunk>)
    ensures |r| == |hs| && forall i | 0 <= i < |hs| :: r[i] == Placed(hs[i])
  {
    seq(|hs|, i requires 0 <= i < |hs| => Placed(hs[i]))
  }

  /** Every line that is inserted equals the line it is put before. */
  predicate Indifferent(base: seq<string>, h: Hunk) {
    Inserts(h) ==> 0 <= h.pos < |base| && forall l | l in h.News() :: l == base[h.pos]
  }

  predicate AllIndifferent(base: seq<string>, hs: seq<Hunk>) {
    forall i | 0 <= i < |hs| :: Indifferent(base, hs[i])
  }

  lemma PlacedAllCons(hs: seq<Hunk>)
    requires hs != []
    ensures PlacedAll(hs)[0] == Placed(hs[0]) && PlacedAll(hs)[1..] == PlacedAll(hs[1..])
  {
  }

  lemma IndifferentCons(base: seq<string>, hs: seq<Hunk>)
    requires hs != []
    ensures AllIndifferent(base, hs) <==> Indifferent(base, hs[0]) && AllIndifferent(base, hs[1..])
  {
    hide Indifferent;
    assert forall i | 0 <= i < |hs[1..]| :: hs[1..][i] == hs[i + 1];
  }

  /** New lines and a line commute exactly when all of them are that line. */
  lemma {:induction false} CommutesIff(news: seq<string>, line: string)
    ensures news + [line] == [line] + news <==> forall l | l in news :: l == line
  {
    if news != [] {
      var rest := news[1..];
      CommutesIff(rest, line);
      assert news == [news[0]] + rest;
      if news + [line] == [line] + news {
        assert (news + [line])[0] == ([line] + news)[0];
        assert rest + [line] == (news + [line])[1..];
        assert news == ([line] + news)[1..];
      }
      if forall l | l in news :: l == line {
        assert news[0] in news && forall l | l in rest :: l in news;
        assert news + [line] == [line] + (rest + [line]);
        assert [line] + news == [line] + ([line] + rest);
      }
    }
  }

  lemma SameEnds(pre: seq<string>, a: seq<string>, x: seq<string>, b: seq<string>, y: seq<string>)
    requires |a| == |b|
    ensures pre + (a + x) == pre + (b + y) <==> a == b && x == y
  {
    if pre + (a + x) == pre + (b + y) {
      assert (pre + (a + x))[|pre|..] == a + x && (pre + (b + y))[|pre|..] == b + y;
      assert (a + x)[..|a|] == a && (b + y)[..|b|] == b;
      assert (a + x)[|a|..] == x && (b + y)[|b|..] == y;
    }
  }

  lemma Step(base: seq<string>, at: nat, hs: seq<Hunk>)
    requires FitsFrom(base, at, hs) && hs != []
    ensures at <= hs[0].pos <= hs[0].End() <= |base| && FitsFrom(base, hs[0].End(), hs[1..])
    ensures Spliced(base, at, hs) == base[at..hs[0].pos] + (hs[0].News() + Spliced(base, hs[0].End(), hs[1..]))
  {
    Assoc(base[at..hs[0].pos], hs[0].News(), Spliced(base, hs[0].End(), hs[1..]));
  }

  lemma FitsLater(base: seq<string>, at: nat, hs: seq<Hunk>)
    requires FitsFrom(base, at, hs) && at < |base| && (hs != [] ==> at < hs[0].pos)
    ensures FitsFrom(base, at + 1, hs)
    ensures hs == [] ==> Spliced(base, at, hs) == base[at..] && Spliced(base, at + 1, hs) == base[at + 1..]
  {
    hide OldSide, NewSide;
  }

  /** Nothing happens to line `at` when the first hunk is further on. */
  lemma StepOver(base: seq<string>, at: nat, hs: seq<Hunk>)
    requires FitsFrom(base, at, hs) && at < |base| && (hs != [] ==> at < hs[0].pos)
    ensures FitsFrom(base, at + 1, hs)
    ensures Spliced(base, at, hs) == [base[at]] + Spliced(base, at + 1, hs)
  {
    hide *;
    FitsLater(base, at, hs);
    if hs == [] {
      SliceCons(base, at, |base|);
    } else {
      Step(base, at, hs);
      Step(base, at + 1, hs);
      SliceCons(base, at, hs[0].pos);
      Assoc([base[at]], base[at + 1..hs[0].pos], hs[0].News() + Spliced(base, hs[0].End(), hs[1..]));
    }
  }

  lemma PlacedShape(base: seq<string>, h: Hunk)
    ensures Inserts(h) <==> h.Olds() == []
    ensures Placed(h).pos == (if Inserts(h) then h.pos + 1 else h.pos)
    ensures Placed(h).End() == Placed(h).pos + |h.Olds()| && h.End() == h.pos + |h.Olds()|
    ensures Indifferent(base, h) <==>
              (Inserts(h) ==> 0 <= h.pos < |base| && forall l | l in h.News() :: l == base[h.pos])
  {
  }

  lemma NoHunks(base: seq<string>, at: nat)
    requires at <= |base|
    ensures PlacedAll([]) == [] && AllIndifferent(base, [])
    ensures FitsFrom(base, at, []) && Spliced(base, at, []) == base[at..]
  {
  }

  /** Two readings of the same hunks from line `at`. */
  lemma {:induction false} SplicesAgree(base: seq<string>, at: nat, hs: seq<Hunk>)
    requires FitsFrom(base, at, hs) && FitsFrom(base, at, PlacedAll(hs))
    ensures Spliced(base, at, hs) == Spliced(base, at, PlacedAll(hs)) <==> AllIndifferent(base, hs)
    decreases |hs|, 0
  {
    hide *;
    FitsFromBound(base, at, hs);
    if hs == [] {
      NoHunks(base, at);
    } else {
      var h, rest := hs[0], hs[1..];
      Step(base, at, hs);
      PlacedAllCons(hs);
      Step(base, at, PlacedAll(hs));
      IndifferentCons(base, hs);
      PlacedShape(base, h);
      if Inserts(h) {
        var n, s, t := h.News(), Spliced(base, h.pos, rest), Spliced(base, h.pos + 1, PlacedAll(rest));
        PendingAgree(base, h.pos, n, rest);
        OneMore(base, at, h.pos, n + t);
        Assoc([base[h.pos]], n, t);
        SameTail(base[at..h.pos], n + s, [base[h.pos]] + n + t);
      } else {
        SplicesAgree(base, h.End(), rest);
        SameEnds(base[at..h.pos], h.News(), Spliced(base, h.End(), rest), h.News(), Spliced(base, h.End(), PlacedAll(rest)));
      }
    }
  }

  lemma OneMore(base: seq<string>, at: nat, k: nat, tail: seq<string>)
    requires at <= k < |base|
    ensures base[at..k + 1] + tail == base[at..k] + ([base[k]] + tail)
  {
  }

  lemma SameTail(pre: seq<string>, x: seq<string>, y: seq<string>)
    ensures pre + x == pre + y <==> x == y
  {
    assert (pre + x)[|pre|..] == x && (pre + y)[|pre|..] == y;
  }

  /** The code has put `n` before line `at`, and POSIX.1 puts it after. */
  lemma {:induction false} PendingAgree(base: seq<string>, at: nat, n: seq<string>, hs: seq<Hunk>)
    requires at < |base| && FitsFrom(base, at, hs) && FitsFrom(base, at + 1, PlacedAll(hs))
    ensures n + Spliced(base, at, hs) == [base[at]] + n + Spliced(base, at + 1, PlacedAll(hs)) <==>
              (forall l | l in n :: l == base[at]) && AllIndifferent(base, hs)
    decreases |hs|, 1
  {
    hide *;
    var line := base[at];
    CommutesIff(n, line);
    if hs != [] && hs[0].pos == at {
      var h, rest := hs[0], hs[1..];
      Step(base, at, hs);
      PlacedAllCons(hs);
      Step(base, at + 1, PlacedAll(hs));
      IndifferentCons(base, hs);
      PlacedShape(base, h);
      PendingAgree(base, at, n + h.News(), rest);
      var s, t := Spliced(base, at, rest), Spliced(base, at + 1, PlacedAll(rest));
      Assoc(n, h.News(), s);
      Assoc([line], n, h.News());
      Assoc([line] + n, h.News(), t);
      NoGap(base[at..at], h.News() + s);
      NoGap(base[at + 1..at + 1], h.News() + t);
      assert forall l | l in n + h.News() :: l in n || l in h.News();
      assert forall l | l in n || l in h.News() :: l in n + h.News();
    } else {
      if hs != [] { Step(base, at, hs); }
      StepOver(base, at, hs);
      SplicesAgree(base, at + 1, hs);
      var s, t := Spliced(base, at + 1, hs), Spliced(base, at + 1, PlacedAll(hs));
      Assoc(n, [line], s);
      SameEnds([], n + [line], s, [line] + n, t);
      NoGap([], n + [line] + s);
      NoGap([], [line] + n + t);
    }
  }

  // ---------- Which hunks each reading accepts

  lemma PlacedFits(base: seq<string>, h: Hunk)
    ensures FitsAt(base, 0, Placed(h)) <==>
              if Inserts(h) then 0 <= h.pos + 1 <= |base| else FitsAt(base, 0, h)
    ensures Inserts(h) ==> (FitsAt(base, 0, h) <==> 0 <= h.pos <= |base|)
    ensures h.End() >= h.pos && (h.End() > h.pos <==> !Inserts(h))
    ensures Placed(h).pos == (if Inserts(h) then h.pos + 1 else h.pos)
    ensures Placed(h).End() == (if Inserts(h) then h.pos + 1 else h.End())
  {
    hide OldSide, NewSide;
  }

  /** What the code accepts POSIX.1 accepts too, unless an insertion goes past
      the last line, or the next hunk replaces the very line it stands before. */
  predicate RoomAfter(base: seq<string>, hs: seq<Hunk>) {
    forall j | 0 <= j < |hs| ::
      && (Inserts(hs[j]) ==> hs[j].pos < |base|)
      && (j > 0 && Inserts(hs[j - 1]) && !Inserts(hs[j]) ==> hs[j - 1].pos < hs[j].pos)
  }

  /** What POSIX.1 accepts the code accepts too, unless an insertion goes before
      the first line, or right after lines that the hunk before it replaces. */
  predicate RoomBefore(hs: seq<Hunk>) {
    forall j | 0 <= j < |hs| && Inserts(hs[j]) ::
      hs[j].pos >= 0 && (j > 0 && !Inserts(hs[j - 1]) ==> hs[j - 1].End() <= hs[j].pos)
  }

  lemma PosixAcceptsIff(base: seq<string>, hs: seq<Hunk>)
    requires FitsFrom(base, 0, hs)
    ensures FitsFrom(base, 0, PlacedAll(hs)) <==> RoomAfter(base, hs)
  {
    hide *;
    FitsFromIsValidSplice(base, hs);
    FitsFromIsValidSplice(base, PlacedAll(hs));
    RoomAfterIff(base, hs);
  }

  lemma RoomAfterIff(base: seq<string>, hs: seq<Hunk>)
    requires ValidSplice(base, hs)
    ensures ValidSplice(base, PlacedAll(hs)) <==> RoomAfter(base, hs)
  {
    hide FitsAt, Inserts, Placed, OldSide, NewSide;
    var ps := PlacedAll(hs);
    forall i | 0 <= i < |hs|
      ensures ps[i] == Placed(hs[i])
    {
      PlacedFits(base, hs[i]);
    }
    if ValidSplice(base, ps) {
      forall j | 0 <= j < |hs|
        ensures (Inserts(hs[j]) ==> hs[j].pos < |base|)
        ensures (j > 0 && Inserts(hs[j - 1]) && !Inserts(hs[j]) ==> hs[j - 1].pos < hs[j].pos)
      {
        PlacedFits(base, hs[j]);
        assert FitsAt(base, 0, ps[j]);
        if j > 0 {
          PlacedFits(base, hs[j - 1]);
          assert ps[j - 1].End() <= ps[j].pos;
        }
      }
    }
    if RoomAfter(base, hs) {
      forall i | 0 <= i < |hs| ensures FitsAt(base, 0, ps[i]) { 
        PlacedFits(base, hs[i]);
        assert FitsAt(base, 0, hs[i]);
      }
      forall i, j | 0 <= i < j < |hs| ensures ps[i].End() <= ps[j].pos {
        PlacedFits(base, hs[i]);
        PlacedFits(base, hs[j]);
        PlacedFits(base, hs[j - 1]);
        if i < j - 1 { assert hs[i].End() <= hs[j - 1].pos; }
      }
    }
  }

  lemma CodeAcceptsIff(base: seq<string>, hs: seq<Hunk>)
    requires FitsFrom(base, 0, PlacedAll(hs))
    ensures FitsFrom(base, 0, hs) <==> RoomBefore(hs)
  {
    hide *;
    FitsFromIsValidSplice(base, hs);
    FitsFromIsValidSplice(base, PlacedAll(hs));
    RoomBeforeIff(base, hs);
  }

  lemma {:induction false} ReplacedBefore(base: seq<string>, hs: seq<Hunk>, i: nat, j: nat)
    requires ValidSplice(base, PlacedAll(hs)) && RoomBefore(hs) && i < j < |hs|
    ensures hs[i].End() <= hs[j].pos
    decreases j
  {
    hide FitsAt, Inserts, Placed, OldSide, NewSide;
    var ps := PlacedAll(hs);
    PlacedFits(base, hs[i]);
    PlacedFits(base, hs[j]);
    PlacedFits(base, hs[j - 1]);
    assert ps[i].End() <= ps[j].pos;
    if i < j - 1 {
      ReplacedBefore(base, hs, i, j - 1);
      assert ps[j - 1].End() <= ps[j].pos;
    }
  }

  lemma RoomBeforeIff(base: seq<string>, hs: seq<Hunk>)
    requires ValidSplice(base, PlacedAll(hs))
    ensures ValidSplice(base, hs) <==> RoomBefore(hs)
  {
    hide FitsAt, Inserts, Placed, OldSide, NewSide;
    var ps := PlacedAll(hs);
    if ValidSplice(base, hs) {
      forall j | 0 <= j < |hs| && Inserts(hs[j])
        ensures hs[j].pos >= 0 && (j > 0 && !Inserts(hs[j - 1]) ==> hs[j - 1].End() <= hs[j].pos)
      {
        PlacedFits(base, hs[j]);
        assert FitsAt(base, 0, hs[j]);
      }
    }
    if RoomBefore(hs) {
      forall i | 0 <= i < |hs| ensures FitsAt(base, 0, hs[i]) {
        PlacedFits(base, hs[i]);
        assert FitsAt(base, 0, ps[i]);
      }
      forall i, j | 0 <= i < j < |hs| ensures hs[i].End() <= hs[j].pos { ReplacedBefore(base, hs, i, j); }
    }
  }

  // ---------- Whole patches

  function PosixReading(base: seq<string>, lines: seq<string>): Progress {
    match ReadPatch(lines)
    case None => None
    case Some(parts) => Splicing(base, 0, PlacedAll(Hunks(parts)))
  }

  /** The candidate under POSIX.1's reading of the hunks, all else equal. */
  function PosixOutcome(baseline: string, patch: string, path: string): Option<string> {
    if !NulFree(baseline) || !NulFree(patch) || !HeadersName(Lines(patch), path) then None
    else
      match PosixReading(Lines(baseline), Lines(patch))
      case None => None
      case Some((hunks, lines)) =>
        if hunks == 0 || Join(lines) == baseline then None else Some(Join(lines))
  }

  lemma {:induction false} SplicedTerminated(base: seq<string>, at: nat, hs: seq<Hunk>)
    requires AllTerminated(base) && FitsFrom(base, at, hs) && HunksTerminated(hs)
    ensures AllTerminated(Spliced(base, at, hs))
    decreases |hs|
  {
    hide *;
    FitsFromBound(base, at, hs);
    if hs == [] {
      SpliceNothing(base, at);
      SliceOfTerminated(base, at, |base|);
    } else {
      Step(base, at, hs);
      TailTerminated(hs);
      SplicedTerminated(base, hs[0].End(), hs[1..]);
      SidesTerminated(hs[0].edits);
      SliceOfTerminated(base, at, hs[0].pos);
      AllTerminatedConcat(hs[0].News(), Spliced(base, hs[0].End(), hs[1..]));
      AllTerminatedConcat(base[at..hs[0].pos], hs[0].News() + Spliced(base, hs[0].End(), hs[1..]));
    }
  }

  lemma SliceOfTerminated(base: seq<string>, i: nat, j: nat)
    requires AllTerminated(base) && i <= j <= |base|
    ensures AllTerminated(base[i..j]) && base[i..|base|] == base[i..]
  {
  }

  lemma TailTerminated(hs: seq<Hunk>)
    requires HunksTerminated(hs) && hs != []
    ensures TextsTerminated(hs[0].edits) && HunksTerminated(hs[1..])
    ensures hs[0].News() == NewSide(hs[0].edits)
  {
    hide TextsTerminated;
    assert forall i | 0 <= i < |hs[1..]| :: hs[1..][i] == hs[i + 1];
  }

  lemma PlacedTerminated(hs: seq<Hunk>)
    requires HunksTerminated(hs)
    ensures HunksTerminated(PlacedAll(hs))
  {
    hide TextsTerminated;
  }

  lemma LinesDecide(a: seq<string>, b: seq<string>)
    requires AllTerminated(a) && AllTerminated(b)
    ensures Join(a) == Join(b) <==> a == b
  {
    hide Join, Lines;
    JoinOfTerminated(a);
    JoinOfTerminated(b);
  }

  /** For LF-terminated texts: where both readings accept the hunks of a patch
      that names the file, they give the same answer exactly when every
      insertion is indifferent to its place. */
  lemma OutcomesAgreeIff(baseline: string, patch: string, path: string)
    requires LfTerminated(baseline) && LfTerminated(patch) && NulFree(baseline) && NulFree(patch)
    requires HeadersName(Lines(patch), path) && ReadPatch(Lines(patch)).Some?
    requires var hs := Hunks(Layout(patch));
             FitsFrom(Lines(baseline), 0, hs) && RoomAfter(Lines(baseline), hs)
    ensures Outcome(baseline, patch, path) == PosixOutcome(baseline, patch, path) <==>
              AllIndifferent(Lines(baseline), Hunks(Layout(patch)))
  {
    hide Lines, Join, ReadPatch, NulFree, LfTerminated, HeadersName, FitsFrom, Spliced, Hunks, HunksTerminated,
         AllIndifferent, RoomAfter, PlacedAll, AllTerminated;
    var base, hs := Lines(baseline), Hunks(Layout(patch));
    LayoutTerminated(patch);
    LinesOfTerminated(baseline);
    PosixAcceptsIff(base, hs);
    PlacedTerminated(hs);
    SplicedTerminated(base, 0, hs);
    SplicedTerminated(base, 0, PlacedAll(hs));
    LinesDecide(Spliced(base, 0, hs), Spliced(base, 0, PlacedAll(hs)));
    SplicesAgree(base, 0, hs);
    JoinLines(baseline);
    NoneForNone(base, hs);
  }

  lemma NoneForNone(base: seq<string>, hs: seq<Hunk>)
    ensures |PlacedAll(hs)| == |hs|
    ensures hs == [] ==> AllIndifferent(base, hs)
  {
  }
}
