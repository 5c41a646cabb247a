/** What a patch means: an ordered, non-overlapping replacement of runs of
    baseline lines. */
module Splice {
  import opened Unified

  /** Replace the old side of `edits`, found at line `pos` (counted from zero), by its new side. */
  datatype Hunk = Hunk(pos: int, edits: seq<Edit>) {
    function Olds(): seq<string> { OldSide(edits) }
    function News(): seq<string> { NewSide(edits) }
    function End(): int { pos + |Olds()| }
    function Growth(): int { |News()| - |Olds()| }
  }

  /** The hunks of a layout. A start number counts from one, also for an empty
      old range, and the number of the new range is not used. */
  function Hunks(parts: seq<Part>): seq<Hunk> {
    if parts == [] then [] else PartHunks(parts[0]) + Hunks(parts[1..])
  }

  function PartHunks(part: Part): seq<Hunk> {
    match part
    case Noise(_) => []
    case Block(header, edits) =>
      var h := HunkHeader(header);
      if h.None? then [] else [Hunk(h.value.before.First() - 1, edits)]
  }

  predicate FitsAt(base: seq<string>, at: int, h: Hunk) {
    0 <= at <= h.pos && h.End() <= |base| && base[h.pos..h.End()] == h.Olds()
  }

  /** Every hunk lies inside the baseline and names the lines that are there,
      and each ends before the next starts. */
  ghost predicate ValidSplice(base: seq<string>, hs: seq<Hunk>) {
    && (forall i | 0 <= i < |hs| :: FitsAt(base, 0, hs[i]))
    && (forall i, j | 0 <= i < j < |hs| :: hs[i].End() <= hs[j].pos)
  }

  /** The same, as a left-to-right reading from line `at`. */
  predicate FitsFrom(base: seq<string>, at: nat, hs: seq<Hunk>)
    decreases |hs|
  {
    if hs == [] then at <= |base|
    else FitsAt(base, at, hs[0]) && FitsFrom(base, hs[0].End(), hs[1..])
  }

  function Spliced(base: seq<string>, at: nat, hs: seq<Hunk>): seq<string>
    requires FitsFrom(base, at, hs)
    decreases |hs|
  {
    if hs == [] then base[at..]
    else base[at..hs[0].pos] + hs[0].News() + Spliced(base, hs[0].End(), hs[1..])
  }

  lemma {:induction false} FitsFromBound(base: seq<string>, at: nat, hs: seq<Hunk>)
    requires FitsFrom(base, at, hs)
    ensures at <= |base|
    ensures forall i | 0 <= i < |hs| :: FitsAt(base, at, hs[i])
    decreases |hs|
  {
    if hs != [] {
      FitsFromBound(base, hs[0].End(), hs[1..]);
      forall i | 0 < i < |hs| ensures FitsAt(base, at, hs[i]) {
        assert FitsAt(base, hs[0].End(), hs[1..][i - 1]);
      }
    }
  }

  lemma {:induction false} FitsFromOrder(base: seq<string>, at: nat, hs: seq<Hunk>, i: nat, j: nat)
    requires FitsFrom(base, at, hs) && i < j < |hs|
    ensures hs[i].End() <= hs[j].pos
    decreases |hs|
  {
    if i == 0 {
      FitsFromBound(base, hs[0].End(), hs[1..]);
      assert FitsAt(base, hs[0].End(), hs[1..][j - 1]);
    } else {
      FitsFromOrder(base, hs[0].End(), hs[1..], i - 1, j - 1);
    }
  }

  lemma {:induction false} FitsFromOf(base: seq<string>, at: nat, hs: seq<Hunk>)
    requires at <= |base|
    requires forall i | 0 <= i < |hs| :: FitsAt(base, at, hs[i])
    requires forall i, j | 0 <= i < j < |hs| :: hs[i].End() <= hs[j].pos
    ensures FitsFrom(base, at, hs)
    decreases |hs|
  {
    if hs != [] {
      var tail := hs[1..];
      assert FitsAt(base, at, hs[0]);
      forall i | 0 <= i < |tail| ensures FitsAt(base, hs[0].End(), tail[i]) {
        assert tail[i] == hs[i + 1] && FitsAt(base, at, hs[i + 1]);
      }
      FitsFromOf(base, hs[0].End(), tail);
    }
  }

  lemma FitsFromIsValidSplice(base: seq<string>, hs: seq<Hunk>)
    ensures FitsFrom(base, 0, hs) <==> ValidSplice(base, hs)
  {
    if FitsFrom(base, 0, hs) {
      FitsFromBound(base, 0, hs);
      forall i, j | 0 <= i < j < |hs| ensures hs[i].End() <= hs[j].pos {
        FitsFromOrder(base, 0, hs, i, j);
      }
    }
    if ValidSplice(base, hs) { FitsFromOf(base, 0, hs); }
  }

  /** Lines gained by the first `n` hunks. */
  function Growth(hs: seq<Hunk>, n: nat): int
    requires n <= |hs|
  {
    if n == 0 then 0 else hs[0].Growth() + Growth(hs[1..], n - 1)
  }

  lemma {:induction false} SplicedLength(base: seq<string>, at: nat, hs: seq<Hunk>)
    requires FitsFrom(base, at, hs)
    ensures at <= |base|
    ensures |Spliced(base, at, hs)| == |base| - at + Growth(hs, |hs|)
    decreases |hs|
  {
    if hs != [] { SplicedLength(base, hs[0].End(), hs[1..]); }
  }

  lemma SplicedPeel(base: seq<string>, at: nat, hs: seq<Hunk>)
    requires FitsFrom(base, at, hs) && hs != []
    ensures at <= hs[0].pos <= |base| && FitsFrom(base, hs[0].End(), hs[1..])
    ensures Spliced(base, at, hs) == base[at..hs[0].pos] + hs[0].News() + Spliced(base, hs[0].End(), hs[1..])
  {
  }

  lemma SplicedTail(base: seq<string>, at: nat, hs: seq<Hunk>, k: nat)
    requires FitsFrom(base, at, hs) && hs != []
    requires k < |Spliced(base, hs[0].End(), hs[1..])|
    ensures 0 <= hs[0].pos - at + |hs[0].News()| + k < |Spliced(base, at, hs)|
    ensures Spliced(base, at, hs)[hs[0].pos - at + |hs[0].News()| + k]
         == Spliced(base, hs[0].End(), hs[1..])[k]
  {
    hide *;
    SplicedPeel(base, at, hs);
  }

  lemma SplicedHead(base: seq<string>, at: nat, hs: seq<Hunk>, j: nat)
    requires FitsFrom(base, at, hs) && hs != []
    requires j < |hs[0].News()|
    ensures hs[0].pos - at + j < |Spliced(base, at, hs)|
    ensures Spliced(base, at, hs)[hs[0].pos - at + j] == hs[0].News()[j]
  {
  }

  /** Line `j` of the new side of hunk `i` stands where the earlier hunks have moved it. */
  lemma {:induction false} SplicedNewLine(base: seq<string>, at: nat, hs: seq<Hunk>, i: nat, j: nat)
    requires FitsFrom(base, at, hs) && i < |hs| && j < |hs[i].News()|
    ensures 0 <= hs[i].pos - at + Growth(hs, i) + j < |Spliced(base, at, hs)|
    ensures Spliced(base, at, hs)[hs[i].pos - at + Growth(hs, i) + j] == hs[i].News()[j]
    decreases |hs|
  {
    hide Spliced;
    if i == 0 {
      SplicedHead(base, at, hs, j);
    } else {
      SplicedNewLine(base, hs[0].End(), hs[1..], i - 1, j);
      SplicedTail(base, at, hs, hs[i].pos - hs[0].End() + Growth(hs[1..], i - 1) + j);
    }
  }

  /** Baseline line `k`, after the first `i` hunks and before the next one, is
      untouched and moved by what those hunks gained. */
  lemma {:induction false} SplicedUntouched(base: seq<string>, at: nat, hs: seq<Hunk>, i: nat, k: nat)
    requires FitsFrom(base, at, hs) && i <= |hs|
    requires at <= k < |base|
    requires i > 0 ==> hs[i - 1].End() <= k
    requires i < |hs| ==> k < hs[i].pos
    ensures 0 <= k - at + Growth(hs, i) < |Spliced(base, at, hs)|
    ensures Spliced(base, at, hs)[k - at + Growth(hs, i)] == base[k]
    decreases |hs|
  {
    if i > 0 {
      hide Spliced;
      assert hs[0].End() <= k by {
        if i > 1 { FitsFromOrder(base, at, hs, 0, i - 1); }
      }
      SplicedUntouched(base, hs[0].End(), hs[1..], i - 1, k);
      SplicedTail(base, at, hs, k - hs[0].End() + Growth(hs[1..], i - 1));
    }
  }
}
