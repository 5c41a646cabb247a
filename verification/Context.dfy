/** How much of the unchanged text a printed hunk shows. */
module Context {
  import opened Unified
  import opened Printer
  import opened Grouping

  function LeadKeeps(edits: seq<Edit>): nat {
    if edits == [] || !edits[0].Keep? then 0 else 1 + LeadKeeps(edits[1..])
  }

  function TrailKeeps(edits: seq<Edit>): nat {
    if edits == [] || !edits[|edits| - 1].Keep? then 0 else 1 + TrailKeeps(edits[..|edits| - 1])
  }

  predicate AllKeep(edits: seq<Edit>) { forall e | e in edits :: e.Keep? }

  /** A printed hunk shows a change, and at most three unchanged lines on
      either side of what it shows. */
  predicate Tight(segments: seq<Segment>) {
    forall s | s in segments && s.Shown? ::
      !AllKeep(s.edits) && LeadKeeps(s.edits) <= 3 && TrailKeeps(s.edits) <= 3
  }

  /** Opcodes alternate, and a change changes something. */
  predicate Alternating(ops: seq<Op>) {
    && (forall i | 0 <= i < |ops| - 1 :: ops[i].Equal? ==> ops[i + 1].Change?)
    && forall op | op in ops && op.Change? :: op.dropped != [] || op.added != []
  }

  // ---------- Keeps at the ends

  lemma {:induction false} LeadOfConcat(a: seq<Edit>, b: seq<Edit>)
    ensures LeadKeeps(a + b) == if AllKeep(a) then |a| + LeadKeeps(b) else LeadKeeps(a)
  {
    if a == [] {
      assert a + b == b;
    } else {
      LeadOfConcat(a[1..], b);
      assert (a + b)[0] == a[0] && (a + b)[1..] == a[1..] + b;
      assert a == [a[0]] + a[1..];
    }
  }

  lemma {:induction false} TrailOfConcat(a: seq<Edit>, b: seq<Edit>)
    requires AllKeep(b)
    ensures TrailKeeps(a + b) == TrailKeeps(a) + |b|
  {
    if b == [] {
      assert a + b == a;
    } else {
      var n := |b| - 1;
      assert forall e | e in b[..n] :: e in b;
      TrailOfConcat(a, b[..n]);
      assert b[n] in b && (a + b)[|a| + n] == b[n];
      assert (a + b)[..|a| + n] == a + b[..n];
    }
  }

  lemma {:induction false} KeepsKept(lines: seq<string>)
    ensures |Keeps(lines)| == |lines| && AllKeep(Keeps(lines)) && LeadKeeps(Keeps(lines)) == |lines|
  {
    if lines != [] {
      KeepsKept(lines[1..]);
      assert Keeps(lines) == [Keep(lines[0])] + Keeps(lines[1..]);
      assert Keeps(lines)[1..] == Keeps(lines[1..]);
    }
  }

  predicate EndsOpen(group: seq<Edit>) { group == [] || !group[|group| - 1].Keep? }

  lemma ChangeEdits(op: Op)
    requires op.Change? && (op.dropped != [] || op.added != [])
    ensures op.Edits() != [] && LeadKeeps(op.Edits()) == 0 && EndsOpen(op.Edits())
  {
    DropsDropped(op.dropped);
    AddsAdded(op.added);
  }

  lemma {:induction false} DropsDropped(lines: seq<string>)
    ensures |Drops(lines)| == |lines| && forall e | e in Drops(lines) :: e.Drop?
  {
    if lines != [] { DropsDropped(lines[1..]); }
  }

  lemma {:induction false} AddsAdded(lines: seq<string>)
    ensures |Adds(lines)| == |lines| && forall e | e in Adds(lines) :: e.Add?
  {
    if lines != [] { AddsAdded(lines[1..]); }
  }

  // ---------- The pending group

  /** What is true of the pending group before the remaining opcodes: it leads
      with at most three unchanged lines, and it ends in a change before
      another unchanged stretch and at the end. */
  predicate Pending(ops: seq<Op>, group: seq<Edit>) {
    && LeadKeeps(group) <= CONTEXT
    && (ops == [] || ops[0].Equal? ==> EndsOpen(group))
    && (group == [] && |ops| > 1 && ops[0].Equal? ==> |ops[0].lines| <= CONTEXT)
  }

  lemma OpenHasChange(group: seq<Edit>)
    requires EndsOpen(group) && group != []
    ensures !AllKeep(group) && TrailKeeps(group) == 0
  {
    assert group[|group| - 1] in group;
  }

  lemma TightConcat(a: seq<Segment>, b: seq<Segment>)
    requires Tight(a) && Tight(b)
    ensures Tight(a + b)
  {
    hide LeadKeeps, TrailKeeps, AllKeep;
  }

  /** A group that ends in a change, with up to three unchanged lines added. */
  lemma ShownTight(group: seq<Edit>, lines: seq<string>)
    requires LeadKeeps(group) <= CONTEXT && EndsOpen(group) && group != [] && |lines| <= CONTEXT
    ensures Tight([Shown(group + Keeps(lines))])
  {
    KeepsKept(lines);
    OpenHasChange(group);
    var e :| e in group && !e.Keep?;
    assert e in group + Keeps(lines);
    LeadOfConcat(group, Keeps(lines));
    TrailOfConcat(group, Keeps(lines));
  }

  lemma CloseTight(group: seq<Edit>, lines: seq<string>)
    requires LeadKeeps(group) <= CONTEXT && EndsOpen(group) && |lines| <= CONTEXT
    ensures Tight(Close(group + Keeps(lines)))
  {
    KeepsKept(lines);
    if group == [] {
      assert group + Keeps(lines) == Keeps(lines);
    } else {
      ShownTight(group, lines);
    }
  }

  lemma ChangePending(ops: seq<Op>, group: seq<Edit>)
    requires Alternating(ops) && ops != [] && ops[0].Change? && Pending(ops, group)
    ensures Pending(ops[1..], group + ops[0].Edits())
  {
    assert ops[0] in ops;
    ChangeEdits(ops[0]);
    LeadOfConcat(group, ops[0].Edits());
    LeadBound(group);
  }

  lemma {:induction false} LeadBound(edits: seq<Edit>)
    ensures LeadKeeps(edits) <= |edits|
    ensures AllKeep(edits) ==> LeadKeeps(edits) == |edits|
  {
    if edits != [] {
      LeadBound(edits[1..]);
      assert edits == [edits[0]] + edits[1..];
    }
  }

  lemma EqualPending(ops: seq<Op>, group: seq<Edit>)
    requires Alternating(ops) && |ops| > 1 && ops[0].Equal? && Pending(ops, group)
    ensures Pending(ops[1..], group + Keeps(ops[0].lines))
  {
    KeepsKept(ops[0].lines);
    LeadOfConcat(group, Keeps(ops[0].lines));
    if group != [] { OpenHasChange(group); }
    assert ops[1..][0] == ops[1];
  }

  lemma AlternatingTail(ops: seq<Op>)
    requires Alternating(ops) && ops != []
    ensures Alternating(ops[1..])
  {
    assert forall o | o in ops[1..] :: o in ops;
    assert forall i | 0 <= i < |ops[1..]| :: ops[1..][i] == ops[i + 1];
  }

  lemma {:induction false} SplitTight(ops: seq<Op>, group: seq<Edit>)
    requires Alternating(ops) && Pending(ops, group)
    ensures Tight(Split(ops, group))
    decreases |ops|
  {
    hide Alternating, LeadKeeps, TrailKeeps, AllKeep, Tight, Keeps, Close, EndsOpen;
    if ops == [] {
      CloseTight(group, []);
      assert group + Keeps([]) == group by { KeepsKept([]); }
    } else {
      AlternatingTail(ops);
      if ops[0].Change? {
        ChangePending(ops, group);
        SplitTight(ops[1..], group + ops[0].Edits());
      } else {
        SplitEqual(ops, group);
        if |ops| > 1 { EqualsThenChange(ops); }
        if |ops| > 1 && |ops[0].lines| <= 2 * CONTEXT {
          EqualPending(ops, group);
          SplitTight(ops[1..], group + Keeps(ops[0].lines));
        } else if |ops| > 1 {
          var m := |ops[0].lines| - CONTEXT;
          KeepsPending(ops[1..], ops[0].lines[m..]);
          SplitTight(ops[1..], Keeps(ops[0].lines[m..]));
        }
      }
    }
  }

  lemma EqualsThenChange(ops: seq<Op>)
    requires Alternating(ops) && |ops| > 1 && ops[0].Equal?
    ensures ops[1..] != [] && ops[1..][0].Change?
  {
  }

  lemma KeepsPending(rest: seq<Op>, lines: seq<string>)
    requires rest != [] && rest[0].Change? && |lines| == CONTEXT
    ensures Pending(rest, Keeps(lines))
  {
    KeepsKept(lines);
  }

  /** What an unchanged stretch prints right away. */
  lemma SplitEqual(ops: seq<Op>, group: seq<Edit>)
    requires ops != [] && ops[0].Equal? && Pending(ops, group)
    requires |ops| > 1 ==> Alternating(ops)
    ensures |ops| == 1 ==> Tight(Split(ops, group))
    ensures |ops| > 1 && |ops[0].lines| > 2 * CONTEXT ==>
              var rest := Split(ops[1..], Keeps(ops[0].lines[|ops[0].lines| - CONTEXT..]));
              Tight(rest) ==> Tight(Split(ops, group))
  {
    hide LeadKeeps, TrailKeeps, AllKeep, Tight, Keeps, Close, Alternating;
    var ls := ops[0].lines;
    if |ops| == 1 {
      var n := if |ls| < CONTEXT then |ls| else CONTEXT;
      CloseTight(group, ls[..n]);
      SkipTight(ls[n..]);
      TightConcat(Close(group + Keeps(ls[..n])), [Skip(ls[n..])]);
    } else if |ls| > 2 * CONTEXT {
      var m := |ls| - CONTEXT;
      var shown := Shown(group + Keeps(ls[..CONTEXT]));
      ShownTight(group, ls[..CONTEXT]);
      SkipTight(ls[CONTEXT..m]);
      TightConcat([shown], [Skip(ls[CONTEXT..m])]);
      assert [shown] + [Skip(ls[CONTEXT..m])] == [shown, Skip(ls[CONTEXT..m])];
      var rest := Split(ops[1..], Keeps(ls[m..]));
      if Tight(rest) { TightConcat([shown, Skip(ls[CONTEXT..m])], rest); }
    }
  }

  lemma SkipTight(lines: seq<string>)
    ensures Tight([Skip(lines)])
  {
  }

  /** Every printed hunk shows a change, with up to three lines of context. */
  lemma GroupedTight(ops: seq<Op>)
    requires Alternating(ops)
    ensures Tight(Grouped(ops))
  {
    hide LeadKeeps, TrailKeeps, AllKeep, Tight, Split, Alternating;
    if |ops| > 1 && ops[0].Equal? && |ops[0].lines| > CONTEXT {
      var m := |ops[0].lines| - CONTEXT;
      var trimmed := [Equal(ops[0].lines[m..])] + ops[1..];
      TrimmedAlternating(ops, ops[0].lines[m..]);
      NothingPending();
      SplitTight(trimmed, []);
      SkipTight(ops[0].lines[..m]);
      TightConcat([Skip(ops[0].lines[..m])], Split(trimmed, []));
    } else {
      NothingPending();
      SplitTight(ops, []);
    }
  }

  lemma NothingPending()
    ensures LeadKeeps([]) == 0 && EndsOpen([])
  {
  }

  lemma TrimmedAlternating(ops: seq<Op>, lines: seq<string>)
    requires Alternating(ops) && ops != [] && ops[0].Equal?
    ensures Alternating([Equal(lines)] + ops[1..])
  {
    var trimmed := [Equal(lines)] + ops[1..];
    assert forall i | 1 <= i < |ops| :: trimmed[i] == ops[i];
    assert forall o | o in ops[1..] :: o in ops;
  }

  // ---------- no less context than three lines

  /** Where lines are left out before or after a printed hunk, it shows three
      unchanged lines on that side. */
  predicate Full(skipped: bool, segments: seq<Segment>)
    decreases |segments|
  {
    segments == [] ||
    match segments[0]
    case Skip(lines) => Full(skipped || lines != [], segments[1..])
    case Shown(edits) =>
      && (skipped ==> LeadKeeps(edits) == 3)
      && (|segments| > 1 && segments[1].Skip? && segments[1].lines != [] ==> TrailKeeps(edits) == 3)
      && Full(false, segments[1..])
  }

  /** After left-out lines the pending group leads with three. */
  predicate Leads(skipped: bool, ops: seq<Op>, group: seq<Edit>) {
    skipped ==>
      if group == [] then |ops| > 1 && ops[0].Equal? && |ops[0].lines| == 3
      else LeadKeeps(group) == 3 && (AllKeep(group) ==> ops != [] && ops[0].Change?)
  }

  lemma SkipFull(skipped: bool, lines: seq<string>, rest: seq<Segment>)
    ensures Full(skipped, [Skip(lines)] + rest) == Full(skipped || lines != [], rest)
    ensures Full(skipped, [])
  {
    assert ([Skip(lines)] + rest)[1..] == rest;
  }

  lemma ShownFull(skipped: bool, edits: seq<Edit>, lines: seq<string>, rest: seq<Segment>)
    requires (skipped ==> LeadKeeps(edits) == 3) && (lines != [] ==> TrailKeeps(edits) == 3)
    ensures Full(skipped, [Shown(edits), Skip(lines)] + rest) == Full(lines != [], rest)
    ensures Full(skipped, [Shown(edits)])
  {
    hide LeadKeeps, TrailKeeps;
    var all := [Shown(edits), Skip(lines)] + rest;
    assert all[1..] == [Skip(lines)] + rest && all[1] == Skip(lines);
    SkipFull(false, lines, rest);
    assert [Shown(edits)][1..] == [];
  }

  /** A group that ends in a change, with unchanged lines after it. */
  lemma OpenWith(group: seq<Edit>, lines: seq<string>)
    requires EndsOpen(group) && group != []
    ensures LeadKeeps(group + Keeps(lines)) == LeadKeeps(group) && TrailKeeps(group + Keeps(lines)) == |lines|
    ensures !AllKeep(group + Keeps(lines)) && Close(group + Keeps(lines)) == [Shown(group + Keeps(lines))]
  {
    KeepsKept(lines);
    OpenHasChange(group);
    var e :| e in group && !e.Keep?;
    assert e in group + Keeps(lines);
    LeadOfConcat(group, Keeps(lines));
    TrailOfConcat(group, Keeps(lines));
  }

  lemma ChangeLeads(skipped: bool, ops: seq<Op>, group: seq<Edit>)
    requires Alternating(ops) && ops != [] && ops[0].Change? && Leads(skipped, ops, group)
    ensures Leads(skipped, ops[1..], group + ops[0].Edits())
  {
    assert ops[0] in ops;
    ChangeEdits(ops[0]);
    LeadOfConcat(group, ops[0].Edits());
    LeadBound(group);
    var e := ops[0].Edits()[|ops[0].Edits()| - 1];
    assert e in group + ops[0].Edits() && !e.Keep?;
  }

  lemma EqualLeads(skipped: bool, ops: seq<Op>, group: seq<Edit>)
    requires Alternating(ops) && |ops| > 1 && ops[0].Equal? && Pending(ops, group) && Leads(skipped, ops, group)
    ensures Leads(skipped, ops[1..], group + Keeps(ops[0].lines))
  {
    KeepsKept(ops[0].lines);
    if group == [] {
      assert group + Keeps(ops[0].lines) == Keeps(ops[0].lines);
    } else {
      OpenWith(group, ops[0].lines);
    }
  }

  lemma KeptClose(lines: seq<string>)
    ensures exists olds :: Close(Keeps(lines)) == [Skip(olds)] && (lines == [] ==> olds == [])
  {
    KeepsKept(lines);
    assert Close(Keeps(lines)) == [Skip(OldSide(Keeps(lines)))];
    if lines == [] {
      assert Keeps(lines) == [];
      NoSides([]);
    }
  }

  lemma {:induction false} SplitFull(skipped: bool, ops: seq<Op>, group: seq<Edit>)
    requires Alternating(ops) && Pending(ops, group) && Leads(skipped, ops, group)
    ensures Full(skipped, Split(ops, group))
    decreases |ops|
  {
    hide Alternating, LeadKeeps, TrailKeeps, AllKeep, Keeps, Close, EndsOpen, Full, Leads;
    if ops == [] {
      LastFull(skipped, ops, group, [], []);
      assert group + Keeps([]) == group by { KeepsKept([]); }
      NoTail(skipped, Close(group));
    } else {
      AlternatingTail(ops);
      if ops[0].Change? {
        ChangePending(ops, group);
        ChangeLeads(skipped, ops, group);
        SplitFull(skipped, ops[1..], group + ops[0].Edits());
      } else if |ops| == 1 {
        var ls := ops[0].lines;
        var n := if |ls| < CONTEXT then |ls| else CONTEXT;
        LastFull(skipped, ops, group, ls[..n], ls[n..]);
      } else {
        EqualsThenChange(ops);
        var ls := ops[0].lines;
        if |ls| <= 2 * CONTEXT {
          EqualPending(ops, group);
          EqualLeads(skipped, ops, group);
          SplitFull(skipped, ops[1..], group + Keeps(ls));
        } else {
          var m := |ls| - CONTEXT;
          KeepsPending(ops[1..], ls[m..]);
          KeepsLead(ops[1..], ls[m..]);
          SplitFull(true, ops[1..], Keeps(ls[m..]));
          GroupLeads(skipped, ops, group, ls[..CONTEXT]);
          ShownFull(skipped, group + Keeps(ls[..CONTEXT]), ls[CONTEXT..m], Split(ops[1..], Keeps(ls[m..])));
        }
      }
    }
  }

  lemma KeepsLead(rest: seq<Op>, lines: seq<string>)
    requires rest != [] && rest[0].Change? && |lines| == 3
    ensures Leads(true, rest, Keeps(lines))
  {
    KeepsKept(lines);
  }

  lemma GroupLeads(skipped: bool, ops: seq<Op>, group: seq<Edit>, lines: seq<string>)
    requires |ops| > 1 && ops[0].Equal? && |ops[0].lines| > 3 && Pending(ops, group) && Leads(skipped, ops, group)
    ensures skipped ==> LeadKeeps(group + Keeps(lines)) == 3
    ensures TrailKeeps(group + Keeps(lines)) == |lines|
  {
    OpenWith(group, lines);
  }

  /** The end of the script: what is pending, some lines more, and those left out. */
  lemma LastFull(skipped: bool, ops: seq<Op>, group: seq<Edit>, shown: seq<string>, rest: seq<string>)
    requires |ops| <= 1 && (ops != [] ==> ops[0].Equal?) && EndsOpen(group) && Leads(skipped, ops, group)
    requires rest != [] ==> |shown| == 3
    ensures Full(skipped, Close(group + Keeps(shown)) + [Skip(rest)])
  {
    hide LeadKeeps, TrailKeeps, AllKeep, Keeps, Close, Full;
    if group == [] {
      KeptClose(shown);
      assert group + Keeps(shown) == Keeps(shown);
      var olds :| Close(Keeps(shown)) == [Skip(olds)];
      SkipFull(skipped, olds, [Skip(rest)]);
      SkipFull(skipped || olds != [], rest, []);
      assert [Skip(rest)] + [] == [Skip(rest)];
      SkipFull(skipped || olds != [] || rest != [], [], []);
    } else {
      OpenWith(group, shown);
      var edits := group + Keeps(shown);
      ShownFull(skipped, edits, rest, []);
      assert [Shown(edits), Skip(rest)] + [] == [Shown(edits)] + [Skip(rest)];
      SkipFull(rest != [], [], []);
    }
  }

  lemma NoTail(skipped: bool, segments: seq<Segment>)
    requires Full(skipped, segments + [Skip([])])
    ensures Full(skipped, segments)
    decreases |segments|
  {
    var all := segments + [Skip([])];
    if segments != [] {
      assert all[1..] == segments[1..] + [Skip([])] && all[0] == segments[0];
      match segments[0]
      case Skip(lines) => NoTail(skipped || lines != [], segments[1..]);
      case Shown(edits) =>
        NoTail(false, segments[1..]);
        assert |segments| > 1 ==> all[1] == segments[1];
    }
  }

  /** Where a printed hunk leaves lines out, before it or after it, it shows
      exactly three unchanged ones. */
  lemma GroupedFull(ops: seq<Op>)
    requires Alternating(ops)
    ensures Full(false, Grouped(ops))
  {
    hide LeadKeeps, TrailKeeps, AllKeep, Full, Split, Alternating;
    NothingPending();
    if |ops| > 1 && ops[0].Equal? && |ops[0].lines| > CONTEXT {
      var m := |ops[0].lines| - CONTEXT;
      var trimmed := [Equal(ops[0].lines[m..])] + ops[1..];
      TrimmedAlternating(ops, ops[0].lines[m..]);
      SplitFull(true, trimmed, []);
      SkipFull(false, ops[0].lines[..m], Split(trimmed, []));
    } else {
      SplitFull(false, ops, []);
    }
  }
}
