/** Undoing a patch: swap insertions and deletions, and move every hunk to
    where it stands in the candidate. */
module Inverse {
  import opened Text
  import Decimal
  import opened Unified
  import opened Splice

  function InvertEdit(e: Edit): Edit {
    match e
    case Keep(t) => Keep(t)
    case Drop(t) => Add(t)
    case Add(t) => Drop(t)
  }

  function InvertEdits(edits: seq<Edit>): seq<Edit> {
    if edits == [] then [] else [InvertEdit(edits[0])] + InvertEdits(edits[1..])
  }

  lemma {:induction false} InvertedSides(edits: seq<Edit>)
    ensures OldSide(InvertEdits(edits)) == NewSide(edits)
    ensures NewSide(InvertEdits(edits)) == OldSide(edits)
    ensures |InvertEdits(edits)| == |edits|
    ensures forall i | 0 <= i < |edits| :: InvertEdits(edits)[i] == InvertEdit(edits[i])
  {
    if edits != [] {
      InvertedSides(edits[1..]);
      SidesCons(InvertEdit(edits[0]), InvertEdits(edits[1..]));
    }
  }

  // ---------- On splices

  /** The inverse hunks, with `shift` lines already gained before the first one. */
  function InvertHunks(hs: seq<Hunk>, shift: int): seq<Hunk> {
    if hs == [] then []
    else [Hunk(hs[0].pos + shift, InvertEdits(hs[0].edits))] + InvertHunks(hs[1..], shift + hs[0].Growth())
  }

  lemma InvertHunksCons(h: Hunk, hs: seq<Hunk>, shift: int)
    ensures ([h] + hs)[1..] == hs
    ensures InvertHunks([h] + hs, shift) ==
              [Hunk(h.pos + shift, InvertEdits(h.edits))] + InvertHunks(hs, shift + h.Growth())
  {
    assert ([h] + hs)[1..] == hs;
  }

  lemma {:induction false} InvertHunksAt(hs: seq<Hunk>, shift: int)
    ensures |InvertHunks(hs, shift)| == |hs|
    ensures forall i | 0 <= i < |hs| ::
              InvertHunks(hs, shift)[i] == Hunk(hs[i].pos + shift + Growth(hs, i), InvertEdits(hs[i].edits))
    decreases |hs|
  {
    if hs != [] { InvertHunksAt(hs[1..], shift + hs[0].Growth()); }
  }

  /** Splicing the inverse into what the hunks produced gives the baseline back. */
  lemma {:induction false} SpliceInverse(base: seq<string>, at: nat, hs: seq<Hunk>, pre: seq<string>, shift: int)
    requires FitsFrom(base, at, hs) && |pre| == at + shift
    ensures var cand := pre + Spliced(base, at, hs);
            && FitsFrom(cand, |pre|, InvertHunks(hs, shift))
            && Spliced(cand, |pre|, InvertHunks(hs, shift)) == base[at..]
    decreases |hs|
  {
    hide FitsFrom, Spliced, OldSide, NewSide;
    FitsFromBound(base, at, hs);
    if hs == [] {
      InverseDone(base, at, pre);
    } else {
      Unfold(base, at, hs);
      var h, rest := hs[0], hs[1..];
      var lead := base[at..h.pos];
      var tail := Spliced(base, h.End(), rest);
      var next := pre + lead + h.News();
      SpliceInverse(base, h.End(), rest, next, shift + h.Growth());
      assert pre + (lead + h.News() + tail) == next + tail by { Regroup(pre, lead, h.News(), tail); }
      InvertedSides(h.edits);
      InverseStep(pre, lead, h.News(), tail, Hunk(h.pos + shift, InvertEdits(h.edits)),
                  InvertHunks(rest, shift + h.Growth()));
      CutLines(base, at, h.pos, h.End());
    }
  }

  lemma InverseDone(base: seq<string>, at: nat, pre: seq<string>)
    requires at <= |base|
    ensures var cand := pre + Spliced(base, at, []);
            FitsFrom(cand, |pre|, []) && Spliced(cand, |pre|, []) == base[at..]
  {
  }

  lemma Unfold(base: seq<string>, at: nat, hs: seq<Hunk>)
    requires FitsFrom(base, at, hs) && hs != []
    ensures FitsAt(base, at, hs[0]) && FitsFrom(base, hs[0].End(), hs[1..])
    ensures Spliced(base, at, hs) == base[at..hs[0].pos] + hs[0].News() + Spliced(base, hs[0].End(), hs[1..])
  {
  }

  lemma Regroup(a: seq<string>, b: seq<string>, c: seq<string>, d: seq<string>)
    ensures a + (b + c + d) == a + b + c + d
  {
  }

  lemma CutLines(base: seq<string>, i: nat, j: nat, k: nat)
    requires i <= j <= k <= |base|
    ensures base[i..j] + base[j..k] + base[k..] == base[i..]
  {
  }

  /** One inverse hunk `h`, that expects `news` right after `lead`. */
  lemma InverseStep(pre: seq<string>, lead: seq<string>, news: seq<string>, tail: seq<string>, h: Hunk, rest: seq<Hunk>)
    requires h.pos == |pre| + |lead| && h.Olds() == news
    requires FitsFrom(pre + lead + news + tail, |pre + lead + news|, rest)
    ensures var cand := pre + lead + news + tail;
            && FitsFrom(cand, |pre|, [h] + rest)
            && Spliced(cand, |pre|, [h] + rest) == lead + h.News() + Spliced(cand, |pre + lead + news|, rest)
  {
    hide OldSide, NewSide;
    var cand := pre + lead + news + tail;
    assert ([h] + rest)[1..] == rest;
    assert cand[|pre|..h.pos] == lead;
    assert cand[h.pos..h.End()] == news;
  }

  // ---------- On patches

  function InverseHeader(start: nat, olds: nat, newStart: nat, news: nat): string {
    Header(Sized(Decimal.Show(start), Decimal.Show(olds)),
           Sized(Decimal.Show(newStart), Decimal.Show(news))).Spell("\n")
  }

  lemma InverseHeaderReads(start: nat, olds: nat, newStart: nat, news: nat)
    ensures var h := HunkHeader(InverseHeader(start, olds, newStart, news));
            && h.Some? && h.value.before.First() == start
            && h.value.before.Count() == olds && h.value.after.Count() == news
  {
    ReadHeaderOf(Header(Sized(Decimal.Show(start), Decimal.Show(olds)),
                        Sized(Decimal.Show(newStart), Decimal.Show(news))), "\n");
  }

  function Start(line: string): nat {
    match HunkHeader(line)
    case Some(h) => h.before.First()
    case None => 0
  }

  function PartGrowth(part: Part): int {
    if part.Noise? then 0 else |NewSide(part.edits)| - |OldSide(part.edits)|
  }

  /** Ignored lines stay, also the file headers. */
  function InvertPart(part: Part, shift: int): Part {
    match part
    case Noise(_) => part
    case Block(header, edits) =>
      var start := Start(header);
      var moved := if start + shift >= 0 then start + shift else 0;
      Block(InverseHeader(moved, |NewSide(edits)|, start, |OldSide(edits)|), InvertEdits(edits))
  }

  function InvertParts(parts: seq<Part>, shift: int): seq<Part> {
    if parts == [] then []
    else [InvertPart(parts[0], shift)] + InvertParts(parts[1..], shift + PartGrowth(parts[0]))
  }

  function InversePatch(patch: string): string {
    match ReadPatch(Lines(patch))
    case None => patch
    case Some(parts) => Join(PartLines(InvertParts(parts, 0)))
  }

  lemma PartsCons(part: Part, rest: seq<Part>)
    ensures AllWf([part] + rest) <==> part.Wf() && AllWf(rest)
    ensures PartLines([part] + rest) == part.Lines() + PartLines(rest)
    ensures Hunks([part] + rest) == PartHunks(part) + Hunks(rest)
  {
    hide HunkHeader, PartHunks;
    var all := [part] + rest;
    assert all[1..] == rest;
    assert all[0] == part;
    assert forall i | 0 <= i < |rest| :: all[i + 1] == rest[i];
  }

  lemma InvertPartReads(part: Part, shift: int)
    requires part.Wf()
    ensures InvertPart(part, shift).Wf()
    ensures part.Block? && Start(part.header) + shift >= 0 ==>
              PartHunks(InvertPart(part, shift)) == [Hunk(Start(part.header) - 1 + shift, InvertEdits(part.edits))]
    ensures part.Block? ==> PartHunks(part) == [Hunk(Start(part.header) - 1, part.edits)]
  {
    hide HunkHeader, InverseHeader, OldSide, NewSide;
    if part.Block? {
      var start, olds, news := Start(part.header), |OldSide(part.edits)|, |NewSide(part.edits)|;
      var moved := if start + shift >= 0 then start + shift else 0;
      InverseHeaderReads(moved, news, start, olds);
      InvertedSides(part.edits);
    }
  }

  lemma {:induction false} InvertPartsWf(parts: seq<Part>, shift: int)
    requires AllWf(parts)
    ensures AllWf(InvertParts(parts, shift))
    decreases |parts|
  {
    hide AllWf, InvertPart, PartGrowth, PartHunks, Hunks, PartLines;
    if parts == [] {
      NoParts();
    } else {
      var part, rest := parts[0], parts[1..];
      assert parts == [part] + rest;
      PartsCons(part, rest);
      InvertPartReads(part, shift);
      InvertPartsWf(rest, shift + PartGrowth(part));
      PartsCons(InvertPart(part, shift), InvertParts(rest, shift + PartGrowth(part)));
    }
  }

  /** The hunks of the inverse layout are the inverse hunks. */
  lemma {:induction false} InvertPartsHunks(base: seq<string>, at: nat, parts: seq<Part>, shift: int)
    requires AllWf(parts) && FitsFrom(base, at, Hunks(parts)) && at + shift >= 0
    ensures Hunks(InvertParts(parts, shift)) == InvertHunks(Hunks(parts), shift)
    decreases |parts|
  {
    hide *;
    if parts == [] {
      NoParts();
    } else {
      PeelWf(parts);
      PeelHunks(parts, shift);
      InvertPartReads(parts[0], shift);
      if parts[0].Noise? {
        NoiseGrowth(parts[0], Hunks(parts[1..]));
        InvertPartsHunks(base, at, parts[1..], shift);
        NoiseStep(parts, shift);
      } else {
        var h := Hunk(Start(parts[0].header) - 1, parts[0].edits);
        FitsPeel(base, at, parts[0], h, Hunks(parts[1..]), shift);
        InvertPartsHunks(base, h.End(), parts[1..], shift + PartGrowth(parts[0]));
        BlockStep(parts, shift, h);
      }
    }
  }

  lemma FitsPeel(base: seq<string>, at: nat, part: Part, h: Hunk, hs: seq<Hunk>, shift: int)
    requires part.Block? && part.edits == h.edits
    requires FitsFrom(base, at, [h] + hs)
    ensures at <= h.pos <= h.End() && FitsFrom(base, h.End(), hs)
    ensures at + shift >= 0 ==> h.End() + shift + PartGrowth(part) >= 0
  {
    hide OldSide, NewSide;
    assert ([h] + hs)[1..] == hs;
  }

  lemma NoiseGrowth(part: Part, hs: seq<Hunk>)
    requires part.Noise?
    ensures PartHunks(part) + hs == hs && PartGrowth(part) == 0
  {
  }

  lemma NoiseStep(parts: seq<Part>, shift: int)
    requires parts != [] && parts[0].Noise?
    requires Hunks(InvertParts(parts[1..], shift)) == InvertHunks(Hunks(parts[1..]), shift)
    ensures Hunks(InvertParts(parts, shift)) == InvertHunks(Hunks(parts), shift)
  {
    hide InvertHunks;
    PeelHunks(parts, shift);
    AddHunks(parts[0], InvertParts(parts[1..], shift));
    NoGap([], Hunks(parts[1..]));
    NoGap([], Hunks(InvertParts(parts[1..], shift)));
  }

  lemma BlockStep(parts: seq<Part>, shift: int, h: Hunk)
    requires parts != [] && parts[0].Block?
    requires h == Hunk(Start(parts[0].header) - 1, parts[0].edits)
    requires PartHunks(parts[0]) == [h]
    requires PartHunks(InvertPart(parts[0], shift)) == [Hunk(h.pos + shift, InvertEdits(h.edits))]
    requires var shift' := shift + PartGrowth(parts[0]);
             Hunks(InvertParts(parts[1..], shift')) == InvertHunks(Hunks(parts[1..]), shift')
    ensures Hunks(InvertParts(parts, shift)) == InvertHunks(Hunks(parts), shift)
  {
    hide InvertHunks, InvertParts, InvertPart, Hunks, PartHunks, Start, OldSide, NewSide;
    var shift' := shift + PartGrowth(parts[0]);
    var tail := InvertParts(parts[1..], shift');
    PeelHunks(parts, shift);
    AddHunks(InvertPart(parts[0], shift), tail);
    InvertHunksCons(h, Hunks(parts[1..]), shift);
    assert PartGrowth(parts[0]) == h.Growth();
  }

  lemma AddHunks(part: Part, rest: seq<Part>)
    ensures Hunks([part] + rest) == PartHunks(part) + Hunks(rest)
  {
    hide PartHunks;
    assert ([part] + rest)[1..] == rest;
  }

  lemma PeelHunks(parts: seq<Part>, shift: int)
    requires parts != []
    ensures Hunks(parts) == PartHunks(parts[0]) + Hunks(parts[1..])
    ensures InvertParts(parts, shift) ==
              [InvertPart(parts[0], shift)] + InvertParts(parts[1..], shift + PartGrowth(parts[0]))
  {
    hide PartHunks, InvertPart, PartGrowth;
  }

  lemma PeelWf(parts: seq<Part>)
    requires parts != [] && AllWf(parts)
    ensures parts[0].Wf() && AllWf(parts[1..])
  {
  }

  lemma NoParts()
    ensures AllWf([]) && Hunks([]) == [] 
    ensures forall shift :: InvertHunks([], shift) == [] && InvertParts([], shift) == []
  {
  }
}
