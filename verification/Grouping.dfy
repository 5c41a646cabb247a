/** Cutting an edit script into hunks with three lines of context, as
    `difflib.SequenceMatcher.get_grouped_opcodes` does for `unified_diff`. */
module Grouping {
  import opened Text
  import opened Unified
  import opened Printer

  /** A pending group is printed unless it shows no change. */
  function Close(group: seq<Edit>): seq<Segment> {
    if forall e | e in group :: e.Keep? then [Skip(OldSide(group))] else [Shown(group)]
  }

  /** The loop over the opcodes, with the pending group. */
  function Split(ops: seq<Op>, group: seq<Edit>): seq<Segment>
    decreases |ops|
  {
    if ops == [] then Close(group)
    else if ops[0].Change? then Split(ops[1..], group + ops[0].Edits())
    else
      var ls := ops[0].lines;
      if |ops| == 1 then
        var n := if |ls| < CONTEXT then |ls| else CONTEXT;
        Close(group + Keeps(ls[..n])) + [Skip(ls[n..])]
      else if |ls| > 2 * CONTEXT then
        var m := |ls| - CONTEXT;
        [Shown(group + Keeps(ls[..CONTEXT])), Skip(ls[CONTEXT..m])] + Split(ops[1..], Keeps(ls[m..]))
      else
        Split(ops[1..], group + Keeps(ls))
  }

  /** A leading unchanged stretch keeps its last three lines only. */
  function Grouped(ops: seq<Op>): seq<Segment> {
    if |ops| > 1 && ops[0].Equal? && |ops[0].lines| > CONTEXT then
      var m := |ops[0].lines| - CONTEXT;
      [Skip(ops[0].lines[..m])] + Split([Equal(ops[0].lines[m..])] + ops[1..], [])
    else Split(ops, [])
  }

  // ---------- Nothing is lost or invented

  lemma NoSides(b: seq<Edit>)
    ensures OldSide([]) == [] && NewSide([]) == []
    ensures [] + b == b && [] + OldSide(b) == OldSide(b) && [] + NewSide(b) == NewSide(b)
  {
  }

  lemma {:induction false} SidesConcat(a: seq<Edit>, b: seq<Edit>)
    ensures OldSide(a + b) == OldSide(a) + OldSide(b)
    ensures NewSide(a + b) == NewSide(a) + NewSide(b)
  {
    hide OldSide, NewSide;
    if a == [] {
      NoSides(b);
    } else {
      var e, rest := a[0], a[1..];
      SidesConcat(rest, b);
      SidesCons(e, rest);
      SidesCons(e, rest + b);
      Assoc([e], rest, b);
      assert a == [e] + rest;
      Assoc(if e.Add? then [] else [e.text], OldSide(rest), OldSide(b));
      Assoc(if e.Drop? then [] else [e.text], NewSide(rest), NewSide(b));
    }
  }

  lemma {:induction false} KeepsSides(lines: seq<string>)
    ensures OldSide(Keeps(lines)) == lines && NewSide(Keeps(lines)) == lines
    ensures forall e | e in Keeps(lines) :: e.Keep?
  {
    if lines != [] {
      KeepsSides(lines[1..]);
      assert Keeps(lines) == [Keep(lines[0])] + Keeps(lines[1..]);
      SidesCons(Keep(lines[0]), Keeps(lines[1..]));
    }
  }

  lemma {:induction false} DropsSides(lines: seq<string>)
    ensures OldSide(Drops(lines)) == lines && NewSide(Drops(lines)) == []
  {
    if lines != [] {
      DropsSides(lines[1..]);
      assert Drops(lines) == [Drop(lines[0])] + Drops(lines[1..]);
      SidesCons(Drop(lines[0]), Drops(lines[1..]));
    }
  }

  lemma {:induction false} AddsSides(lines: seq<string>)
    ensures OldSide(Adds(lines)) == [] && NewSide(Adds(lines)) == lines
  {
    if lines != [] {
      AddsSides(lines[1..]);
      assert Adds(lines) == [Add(lines[0])] + Adds(lines[1..]);
      SidesCons(Add(lines[0]), Adds(lines[1..]));
    }
  }

  lemma EditsSides(op: Op)
    ensures OldSide(op.Edits()) == op.Olds() && NewSide(op.Edits()) == op.News()
  {
    if op.Equal? {
      KeepsSides(op.lines);
    } else {
      DropsSides(op.dropped);
      AddsSides(op.added);
      SidesConcat(Drops(op.dropped), Adds(op.added));
    }
  }

  lemma {:induction false} KeptSides(group: seq<Edit>)
    requires forall e | e in group :: e.Keep?
    ensures OldSide(group) == NewSide(group)
  {
    if group != [] {
      assert group[0] in group && forall e | e in group[1..] :: e in group;
      KeptSides(group[1..]);
    }
  }

  lemma CloseSides(group: seq<Edit>)
    ensures SegmentOlds(Close(group)) == OldSide(group)
    ensures SegmentNews(Close(group)) == NewSide(group)
  {
    if forall e | e in group :: e.Keep? { KeptSides(group); }
    assert Close(group)[1..] == [];
  }

  lemma SegmentsCons(s: Segment, rest: seq<Segment>)
    ensures SegmentOlds([s] + rest) == s.Olds() + SegmentOlds(rest)
    ensures SegmentNews([s] + rest) == s.News() + SegmentNews(rest)
  {
    assert ([s] + rest)[1..] == rest;
  }

  lemma CloseSkip(group: seq<Edit>, lines: seq<string>)
    ensures SegmentOlds(Close(group) + [Skip(lines)]) == OldSide(group) + lines
    ensures SegmentNews(Close(group) + [Skip(lines)]) == NewSide(group) + lines
  {
    if forall e | e in group :: e.Keep? { KeptSides(group); }
    SegmentsCons(Skip(lines), []);
    SegmentsCons(Close(group)[0], [Skip(lines)]);
  }

  lemma Cut3(lines: seq<string>, i: nat, j: nat)
    requires i <= j <= |lines|
    ensures lines == lines[..i] + lines[i..j] + lines[j..]
  {
  }

  lemma OpsCons(op: Op, rest: seq<Op>)
    ensures OldLines([op] + rest) == op.Olds() + OldLines(rest)
    ensures NewLines([op] + rest) == op.News() + NewLines(rest)
  {
    assert ([op] + rest)[1..] == rest;
  }

  /** A group that grows by an opcode's own edits keeps the sides of the script. */
  lemma GrowSides(group: seq<Edit>, op: Op, rest: seq<Op>)
    ensures OldSide(group + op.Edits()) + OldLines(rest) == OldSide(group) + OldLines([op] + rest)
    ensures NewSide(group + op.Edits()) + NewLines(rest) == NewSide(group) + NewLines([op] + rest)
  {
    hide OldSide, NewSide, OldLines, NewLines;
    EditsSides(op);
    SidesConcat(group, op.Edits());
    OpsCons(op, rest);
    Assoc(OldSide(group), op.Olds(), OldLines(rest));
    Assoc(NewSide(group), op.News(), NewLines(rest));
  }

  lemma LastSides(group: seq<Edit>, ls: seq<string>, n: nat)
    requires n <= |ls|
    ensures var out := Close(group + Keeps(ls[..n])) + [Skip(ls[n..])];
            && SegmentOlds(out) == OldSide(group) + OldLines([Equal(ls)])
            && SegmentNews(out) == NewSide(group) + NewLines([Equal(ls)])
  {
    hide OldSide, NewSide, Close, SegmentOlds, SegmentNews, Keeps;
    KeepsSides(ls[..n]);
    SidesConcat(group, Keeps(ls[..n]));
    CloseSkip(group + Keeps(ls[..n]), ls[n..]);
    Assoc(OldSide(group), ls[..n], ls[n..]);
    Assoc(NewSide(group), ls[..n], ls[n..]);
    assert ls[..n] + ls[n..] == ls;
    assert OldLines([Equal(ls)]) == ls && NewLines([Equal(ls)]) == ls;
  }

  lemma SplitNothing(group: seq<Edit>)
    ensures SegmentOlds(Split([], group)) == OldSide(group) + OldLines([])
    ensures SegmentNews(Split([], group)) == NewSide(group) + NewLines([])
  {
    CloseSides(group);
  }

  /** Sides of the pieces, read in order, are the sides of the script. */
  lemma {:induction false} SplitSides(ops: seq<Op>, group: seq<Edit>)
    ensures SegmentOlds(Split(ops, group)) == OldSide(group) + OldLines(ops)
    ensures SegmentNews(Split(ops, group)) == NewSide(group) + NewLines(ops)
    decreases |ops|
  {
    hide OldSide, NewSide, SegmentOlds, SegmentNews, OldLines, NewLines, Keeps, Drops, Adds, Close;
    if ops == [] {
      SplitNothing(group);
    } else {
      var op, rest := ops[0], ops[1..];
      assert ops == [op] + rest;
      if op.Change? || (|ops| > 1 && |op.lines| <= 2 * CONTEXT) {
        GrowSides(group, op, rest);
        SplitSides(rest, group + op.Edits());
      } else if |ops| == 1 {
        LastSides(group, op.lines, if |op.lines| < CONTEXT then |op.lines| else CONTEXT);
        assert ops == [Equal(op.lines)];
      } else {
        var m := |op.lines| - CONTEXT;
        SplitSides(rest, Keeps(op.lines[m..]));
        OpsCons(op, rest);
        BreakSides(group, op.lines, m, Split(rest, Keeps(op.lines[m..])), OldLines(rest), NewLines(rest));
      }
    }
  }

  lemma BreakSides(group: seq<Edit>, ls: seq<string>, m: nat, tail: seq<Segment>, olds: seq<string>, news: seq<string>)
    requires CONTEXT <= m <= |ls|
    requires SegmentOlds(tail) == OldSide(Keeps(ls[m..])) + olds
    requires SegmentNews(tail) == NewSide(Keeps(ls[m..])) + news
    ensures var all := [Shown(group + Keeps(ls[..CONTEXT])), Skip(ls[CONTEXT..m])] + tail;
            && SegmentOlds(all) == OldSide(group) + (ls + olds)
            && SegmentNews(all) == NewSide(group) + (ls + news)
  {
    hide OldSide, NewSide, SegmentOlds, SegmentNews, Keeps;
    var lead, gap := ls[..CONTEXT], ls[CONTEXT..m];
    KeepsSides(lead);
    KeepsSides(ls[m..]);
    SidesConcat(group, Keeps(lead));
    SegmentsCons(Skip(gap), tail);
    SegmentsCons(Shown(group + Keeps(lead)), [Skip(gap)] + tail);
    assert [Shown(group + Keeps(lead)), Skip(gap)] + tail == [Shown(group + Keeps(lead))] + ([Skip(gap)] + tail);
    Cut3(ls, CONTEXT, m);
    Reassociate(OldSide(group), lead, gap, ls[m..], olds);
    Reassociate(NewSide(group), lead, gap, ls[m..], news);
  }

  lemma Reassociate(g: seq<string>, a: seq<string>, b: seq<string>, c: seq<string>, rest: seq<string>)
    ensures (g + a) + (b + (c + rest)) == g + ((a + b + c) + rest)
  {
  }

  lemma TrimmedSides(ls: seq<string>, m: nat, rest: seq<Op>, tail: seq<Segment>)
    requires m <= |ls|
    requires SegmentOlds(tail) == OldLines([Equal(ls[m..])] + rest)
    requires SegmentNews(tail) == NewLines([Equal(ls[m..])] + rest)
    ensures SegmentOlds([Skip(ls[..m])] + tail) == OldLines([Equal(ls)] + rest)
    ensures SegmentNews([Skip(ls[..m])] + tail) == NewLines([Equal(ls)] + rest)
  {
    hide SegmentOlds, SegmentNews, OldLines, NewLines;
    SegmentsCons(Skip(ls[..m]), tail);
    OpsCons(Equal(ls), rest);
    OpsCons(Equal(ls[m..]), rest);
    assert ls[..m] + ls[m..] == ls;
    Assoc(ls[..m], ls[m..], OldLines(rest));
    Assoc(ls[..m], ls[m..], NewLines(rest));
  }

  lemma SplitAllSides(ops: seq<Op>)
    ensures SegmentOlds(Split(ops, [])) == OldLines(ops)
    ensures SegmentNews(Split(ops, [])) == NewLines(ops)
  {
    hide Split, SegmentOlds, SegmentNews, OldLines, NewLines;
    SplitSides(ops, []);
    assert [] + OldLines(ops) == OldLines(ops) && [] + NewLines(ops) == NewLines(ops);
  }

  lemma GroupedSides(ops: seq<Op>)
    ensures SegmentOlds(Grouped(ops)) == OldLines(ops)
    ensures SegmentNews(Grouped(ops)) == NewLines(ops)
  {
    hide Split, SegmentOlds, SegmentNews, OldLines, NewLines;
    if |ops| > 1 && ops[0].Equal? && |ops[0].lines| > CONTEXT {
      var ls, rest := ops[0].lines, ops[1..];
      var m := |ls| - CONTEXT;
      SplitAllSides([Equal(ls[m..])] + rest);
      TrimmedSides(ls, m, rest, Split([Equal(ls[m..])] + rest, []));
      assert ops == [Equal(ls)] + rest;
    } else {
      SplitAllSides(ops);
    }
  }

  // ---------- Every printed group has an old line

  /** Opcodes never report an empty unchanged stretch. */
  predicate Stretches(ops: seq<Op>) { forall op | op in ops && op.Equal? :: op.lines != [] }

  lemma AnchoredConcat(a: seq<Segment>, b: seq<Segment>)
    ensures Anchored(a + b) <==> Anchored(a) && Anchored(b)
  {
    assert forall s | s in a :: s in a + b;
    assert forall s | s in b :: s in a + b;
  }

  lemma ShownAnchored(group: seq<Edit>, lines: seq<string>)
    requires lines != []
    ensures OldSide(group + Keeps(lines)) != []
    ensures Anchored([Shown(group + Keeps(lines))]) && Anchored(Close(group + Keeps(lines)))
  {
    KeepsSides(lines);
    SidesConcat(group, Keeps(lines));
  }

  lemma {:induction false} SplitAnchored(ops: seq<Op>, group: seq<Edit>)
    requires Stretches(ops)
    requires OldSide(group) != [] || OldLines(ops) != []
    ensures Anchored(Split(ops, group))
    decreases |ops|
  {
    hide OldSide, NewSide, OldLines, Keeps, Drops, Adds, Close, Anchored;
    if ops == [] {
      assert Anchored(Close(group)) by { CloseAnchored(group); }
    } else {
      var op, rest := ops[0], ops[1..];
      assert ops == [op] + rest;
      assert op in ops && forall o | o in rest :: o in ops;
      if op.Change? || (|ops| > 1 && |op.lines| <= 2 * CONTEXT) {
        GrowSides(group, op, rest);
        SplitAnchored(rest, group + op.Edits());
      } else if |ops| == 1 {
        var n := if |op.lines| < CONTEXT then |op.lines| else CONTEXT;
        ShownAnchored(group, op.lines[..n]);
        SkipAnchored(op.lines[n..]);
        AnchoredConcat(Close(group + Keeps(op.lines[..n])), [Skip(op.lines[n..])]);
      } else {
        var m := |op.lines| - CONTEXT;
        var lead, gap := Shown(group + Keeps(op.lines[..CONTEXT])), Skip(op.lines[CONTEXT..m]);
        ShownAnchored(group, op.lines[..CONTEXT]);
        ShownAnchored([], op.lines[m..]);
        assert [] + Keeps(op.lines[m..]) == Keeps(op.lines[m..]);
        SplitAnchored(rest, Keeps(op.lines[m..]));
        SkipAnchored(gap.lines);
        AnchoredConcat([lead], [gap]);
        assert [lead] + [gap] == [lead, gap];
        AnchoredConcat([lead, gap], Split(rest, Keeps(op.lines[m..])));
      }
    }
  }

  lemma CloseAnchored(group: seq<Edit>)
    requires OldSide(group) != [] || OldLines([]) != []
    ensures Anchored(Close(group))
  {
  }

  lemma SkipAnchored(lines: seq<string>)
    ensures Anchored([Skip(lines)])
  {
  }

  lemma GroupedAnchored(ops: seq<Op>)
    requires Stretches(ops) && OldLines(ops) != []
    ensures Anchored(Grouped(ops))
  {
    hide Split, Anchored, OldSide;
    if |ops| > 1 && ops[0].Equal? && |ops[0].lines| > CONTEXT {
      var m := |ops[0].lines| - CONTEXT;
      var trimmed := [Equal(ops[0].lines[m..])] + ops[1..];
      assert trimmed[0].Olds() != [];
      assert Stretches(trimmed) by { assert forall o | o in ops[1..] :: o in ops; }
      SplitAnchored(trimmed, []);
      SkipAnchored(ops[0].lines[..m]);
      AnchoredConcat([Skip(ops[0].lines[..m])], Split(trimmed, []));
    } else {
      SplitAnchored(ops, []);
    }
  }

  // ---------- Which printed lines read as file headers

  /** No deleted line starts with `-- ` and no inserted line with `++ `. */
  predicate Plain(op: Op) {
    op.Change? ==>
      && (forall l | l in op.dropped :: !("-- " <= l))
      && (forall l | l in op.added :: !("++ " <= l))
  }

  predicate AllPlain(ops: seq<Op>) { forall op | op in ops :: Plain(op) }

  lemma CalmConcat(a: seq<Edit>, b: seq<Edit>)
    ensures Calm(a + b) <==> Calm(a) && Calm(b)
  {
    hide HeaderLike;
    assert forall e | e in a :: e in a + b;
    assert forall e | e in b :: e in a + b;
  }

  lemma CalmEdits(op: Op)
    ensures Calm(op.Edits()) <==> Plain(op)
  {
    if op.Equal? {
    } else {
      var d, a := Drops(op.dropped), Adds(op.added);
      CalmConcat(d, a);
      CalmDrops(op.dropped);
      CalmAdds(op.added);
    }
  }

  lemma CalmDrops(lines: seq<string>)
    ensures Calm(Drops(lines)) <==> forall l | l in lines :: !("-- " <= l)
  {
    var edits := Drops(lines);
    forall l | l in lines ensures Drop(l) in edits {
      var i :| 0 <= i < |lines| && lines[i] == l;
      assert edits[i] == Drop(l);
    }
    if Calm(edits) {
      forall l | l in lines ensures !("-- " <= l) { assert !HeaderLike(Drop(l)); }
    }
    if forall l | l in lines :: !("-- " <= l) {
      forall e | e in edits ensures !HeaderLike(e) {
        var i :| 0 <= i < |edits| && edits[i] == e;
        assert e == Drop(lines[i]) && lines[i] in lines;
      }
    }
  }

  lemma CalmAdds(lines: seq<string>)
    ensures Calm(Adds(lines)) <==> forall l | l in lines :: !("++ " <= l)
  {
    var edits := Adds(lines);
    forall l | l in lines ensures Add(l) in edits {
      var i :| 0 <= i < |lines| && lines[i] == l;
      assert edits[i] == Add(l);
    }
    if Calm(edits) {
      forall l | l in lines ensures !("++ " <= l) { assert !HeaderLike(Add(l)); }
    }
    if forall l | l in lines :: !("++ " <= l) {
      forall e | e in edits ensures !HeaderLike(e) {
        var i :| 0 <= i < |edits| && edits[i] == e;
        assert e == Add(lines[i]) && lines[i] in lines;
      }
    }
  }

  lemma CalmKeeps(lines: seq<string>)
    ensures Calm(Keeps(lines))
  {
  }

  lemma UnmistakableConcat(a: seq<Segment>, b: seq<Segment>)
    ensures Unmistakable(a + b) <==> Unmistakable(a) && Unmistakable(b)
  {
    hide HeaderLike;
    assert forall s | s in a :: s in a + b;
    assert forall s | s in b :: s in a + b;
  }

  lemma ClosePlain(group: seq<Edit>)
    ensures Unmistakable(Close(group)) <==> Calm(group)
    ensures Unmistakable([Shown(group)]) <==> Calm(group)
    ensures Unmistakable([Skip(OldSide(group))])
  {
  }

  lemma SkipPlain(lines: seq<string>)
    ensures Unmistakable([Skip(lines)])
  {
  }

  lemma AllPlainCons(op: Op, rest: seq<Op>)
    ensures AllPlain([op] + rest) <==> Plain(op) && AllPlain(rest)
  {
    hide Plain;
    assert op in [op] + rest && forall o | o in rest :: o in [op] + rest;
  }

  lemma {:induction false} SplitPlain(ops: seq<Op>, group: seq<Edit>)
    ensures Unmistakable(Split(ops, group)) <==> Calm(group) && AllPlain(ops)
    decreases |ops|
  {
    hide Keeps, Drops, Adds, Close, Unmistakable, Calm, Plain;
    ClosePlain(group);
    if ops != [] {
      var op, rest := ops[0], ops[1..];
      assert ops == [op] + rest;
      AllPlainCons(op, rest);
      CalmEdits(op);
      CalmConcat(group, op.Edits());
      if op.Change? || (|ops| > 1 && |op.lines| <= 2 * CONTEXT) {
        SplitPlain(rest, group + op.Edits());
      } else if |ops| == 1 {
        var n := if |op.lines| < CONTEXT then |op.lines| else CONTEXT;
        CalmKeeps(op.lines[..n]);
        CalmKeeps(op.lines);
        CalmConcat(group, Keeps(op.lines[..n]));
        ClosePlain(group + Keeps(op.lines[..n]));
        SkipPlain(op.lines[n..]);
        UnmistakableConcat(Close(group + Keeps(op.lines[..n])), [Skip(op.lines[n..])]);
      } else {
        var m := |op.lines| - CONTEXT;
        var lead, gap := Shown(group + Keeps(op.lines[..CONTEXT])), Skip(op.lines[CONTEXT..m]);
        CalmKeeps(op.lines[..CONTEXT]);
        CalmKeeps(op.lines);
        CalmKeeps(op.lines[m..]);
        CalmConcat(group, Keeps(op.lines[..CONTEXT]));
        ClosePlain(group + Keeps(op.lines[..CONTEXT]));
        SkipPlain(gap.lines);
        SplitPlain(rest, Keeps(op.lines[m..]));
        UnmistakableConcat([lead], [gap]);
        assert [lead] + [gap] == [lead, gap];
        UnmistakableConcat([lead, gap], Split(rest, Keeps(op.lines[m..])));
      }
    }
  }

  lemma GroupedPlain(ops: seq<Op>)
    ensures Unmistakable(Grouped(ops)) <==> AllPlain(ops)
  {
    hide Split, Unmistakable, AllPlain;
    if |ops| > 1 && ops[0].Equal? && |ops[0].lines| > CONTEXT {
      var m := |ops[0].lines| - CONTEXT;
      var trimmed := [Equal(ops[0].lines[m..])] + ops[1..];
      SplitPlain(trimmed, []);
      SkipPlain(ops[0].lines[..m]);
      UnmistakableConcat([Skip(ops[0].lines[..m])], Split(trimmed, []));
      AllPlainCons(ops[0], ops[1..]);
      AllPlainCons(trimmed[0], ops[1..]);
      assert ops == [ops[0]] + ops[1..];
    } else {
      SplitPlain(ops, []);
    }
  }

  // ---------- Which printed lines lack their line feed

  /** Only the last opcode, if it is an unchanged stretch, may end in a line
      without line feed. */
  predicate OpenAtEndOnly(ops: seq<Op>) {
    forall i | 0 <= i < |ops| ::
      if i == |ops| - 1 && ops[i].Equal? then WellSplit(ops[i].lines)
      else AllTerminated(ops[i].Olds()) && AllTerminated(ops[i].News())
  }

  lemma TextsConcat(a: seq<Edit>, b: seq<Edit>)
    ensures Texts(a + b) == Texts(a) + Texts(b)
  {
  }

  lemma OpTexts(op: Op)
    ensures op.Equal? ==> Texts(op.Edits()) == op.lines
    ensures op.Change? ==> Texts(op.Edits()) == op.dropped + op.added
  {
  }

  lemma {:induction false} ShownTextsConcat(a: seq<Segment>, b: seq<Segment>)
    ensures ShownTexts(a + b) == ShownTexts(a) + ShownTexts(b)
  {
    hide ShownTexts, Texts;
    if a == [] {
      assert a + b == b;
      NoLines(0, 0);
      NoGap(ShownTexts(a), ShownTexts(b));
    } else {
      assert (a + b)[0] == a[0] && (a + b)[1..] == a[1..] + b;
      ShownTextsConcat(a[1..], b);
      ShownTextsCons(a);
      ShownTextsCons(a + b);
      Assoc(if a[0].Shown? then Texts(a[0].edits) else [], ShownTexts(a[1..]), ShownTexts(b));
    }
  }

  lemma OneSegment(s: Segment)
    ensures ShownTexts([s]) == if s.Shown? then Texts(s.edits) else []
  {
    assert [s][1..] == [];
  }

  lemma CloseNeat(group: seq<Edit>)
    requires WellSplit(Texts(group))
    ensures WellSplit(ShownTexts(Close(group)))
  {
    hide Texts, ShownTexts;
    OneSegment(Close(group)[0]);
    TerminatedWellSplit([]);
  }

  lemma GrowNeat(group: seq<Edit>, op: Op)
    requires AllTerminated(Texts(group)) && AllTerminated(op.Olds()) && AllTerminated(op.News())
    ensures AllTerminated(Texts(group + op.Edits()))
  {
    hide Texts, Terminated;
    TextsConcat(group, op.Edits());
    OpTexts(op);
  }

  lemma OpenAtEndTail(ops: seq<Op>)
    requires OpenAtEndOnly(ops) && ops != []
    ensures OpenAtEndOnly(ops[1..])
    ensures |ops| > 1 || ops[0].Change? ==> AllTerminated(ops[0].Olds()) && AllTerminated(ops[0].News())
    ensures |ops| == 1 && ops[0].Equal? ==> WellSplit(ops[0].lines)
  {
    hide WellSplit, AllTerminated;
    assert forall i | 0 <= i < |ops[1..]| :: ops[1..][i] == ops[i + 1];
  }

  lemma {:induction false} SplitNeat(ops: seq<Op>, group: seq<Edit>)
    requires AllTerminated(Texts(group)) && OpenAtEndOnly(ops)
    ensures WellSplit(ShownTexts(Split(ops, group)))
    decreases |ops|
  {
    hide Texts, ShownTexts, Close, Keeps, Drops, Adds, AllTerminated, WellSplit, OpenAtEndOnly;
    if ops == [] {
      TerminatedWellSplit(Texts(group));
      CloseNeat(group);
    } else {
      var op, rest := ops[0], ops[1..];
      OpenAtEndTail(ops);
      if op.Change? || (|ops| > 1 && |op.lines| <= 2 * CONTEXT) {
        GrowNeat(group, op);
        SplitNeat(rest, group + op.Edits());
      } else if |ops| == 1 {
        LastNeat(group, op.lines, if |op.lines| < CONTEXT then |op.lines| else CONTEXT);
      } else {
        var m := |op.lines| - CONTEXT;
        SlicesTerminated(op.lines, m);
        KeepsTexts(op.lines[m..]);
        SplitNeat(rest, Keeps(op.lines[m..]));
        BreakNeat(group, op.lines[..CONTEXT], op.lines[CONTEXT..m], Split(rest, Keeps(op.lines[m..])));
      }
    }
  }

  lemma KeepsTexts(lines: seq<string>)
    ensures Texts(Keeps(lines)) == lines
  {
  }

  lemma SuffixTerminated(lines: seq<string>, m: nat)
    requires AllTerminated(lines) && m <= |lines|
    ensures AllTerminated(lines[m..])
  {
  }

  lemma SlicesTerminated(lines: seq<string>, m: nat)
    requires AllTerminated(lines) && CONTEXT <= m <= |lines|
    ensures AllTerminated(lines[..CONTEXT]) && AllTerminated(lines[m..])
  {
  }

  lemma LastNeat(group: seq<Edit>, ls: seq<string>, n: nat)
    requires AllTerminated(Texts(group)) && WellSplit(ls) && n <= |ls|
    ensures WellSplit(ShownTexts(Close(group + Keeps(ls[..n])) + [Skip(ls[n..])]))
  {
    hide Texts, ShownTexts, Close, Keeps, AllTerminated, WellSplit;
    PrefixWellSplit(ls, n);
    KeepsTexts(ls[..n]);
    TextsConcat(group, Keeps(ls[..n]));
    WellSplitConcat(Texts(group), ls[..n]);
    CloseNeat(group + Keeps(ls[..n]));
    ShownTextsConcat(Close(group + Keeps(ls[..n])), [Skip(ls[n..])]);
    OneSegment(Skip(ls[n..]));
    assert ShownTexts(Close(group + Keeps(ls[..n]))) + [] == ShownTexts(Close(group + Keeps(ls[..n])));
  }

  lemma BreakNeat(group: seq<Edit>, lead: seq<string>, gap: seq<string>, tail: seq<Segment>)
    requires AllTerminated(Texts(group)) && AllTerminated(lead) && WellSplit(ShownTexts(tail))
    ensures WellSplit(ShownTexts([Shown(group + Keeps(lead)), Skip(gap)] + tail))
  {
    hide Texts, ShownTexts, Keeps, AllTerminated, WellSplit;
    var first := Shown(group + Keeps(lead));
    KeepsTexts(lead);
    TextsConcat(group, Keeps(lead));
    AllTerminatedConcat(Texts(group), lead);
    var all := [first, Skip(gap)] + tail;
    assert all[0] == first && all[1..] == [Skip(gap)] + tail && ([Skip(gap)] + tail)[1..] == tail;
    ShownTextsCons(all);
    ShownTextsCons([Skip(gap)] + tail);
    WellSplitConcat(Texts(group) + lead, ShownTexts(tail));
  }

  /** The lines that are printed of such a script are well split. */
  lemma GroupedNeat(ops: seq<Op>)
    requires OpenAtEndOnly(ops)
    ensures WellSplit(ShownTexts(Grouped(ops)))
  {
    hide Split, ShownTexts, Texts, WellSplit;
    assert AllTerminated(Texts([])) by { NoTexts(); }
    if |ops| > 1 && ops[0].Equal? && |ops[0].lines| > CONTEXT {
      var m := |ops[0].lines| - CONTEXT;
      var trimmed := [Equal(ops[0].lines[m..])] + ops[1..];
      assert OpenAtEndOnly(trimmed) by {
        OpenAtEndTail(ops);
        assert forall i | 1 <= i < |trimmed| :: trimmed[i] == ops[i];
        SuffixTerminated(ops[0].lines, m);
      }
      SplitNeat(trimmed, []);
      var all := [Skip(ops[0].lines[..m])] + Split(trimmed, []);
      assert all[1..] == Split(trimmed, []);
      ShownTextsCons(all);
    } else {
      SplitNeat(ops, []);
    }
  }

  lemma NoTexts()
    ensures Texts([]) == []
  {
  }

  // ---------- From the texts

  lemma {:induction false} SidesAllTerminated(ops: seq<Op>)
    requires AllTerminated(OldLines(ops)) && AllTerminated(NewLines(ops))
    ensures forall i | 0 <= i < |ops| :: AllTerminated(ops[i].Olds()) && AllTerminated(ops[i].News())
  {
    hide AllTerminated;
    if ops != [] {
      var op, rest := ops[0], ops[1..];
      PartsTerminated(op.Olds(), OldLines(rest));
      PartsTerminated(op.News(), NewLines(rest));
      SidesAllTerminated(rest);
      assert forall i | 1 <= i < |ops| :: ops[i] == rest[i - 1];
    }
  }

  lemma PartsTerminated(a: seq<string>, b: seq<string>)
    requires AllTerminated(a + b)
    ensures AllTerminated(a) && AllTerminated(b)
  {
    assert forall i | 0 <= i < |a| :: (a + b)[i] == a[i];
    assert forall i | 0 <= i < |b| :: (a + b)[|a| + i] == b[i];
  }

  lemma {:induction false} OpsSnoc(ops: seq<Op>, op: Op)
    ensures OldLines(ops + [op]) == OldLines(ops) + op.Olds()
    ensures NewLines(ops + [op]) == NewLines(ops) + op.News()
  {
    hide OldLines, NewLines;
    if ops == [] {
      assert ops + [op] == [op] + [];
      OpsCons(op, []);
      NoOps();
      NoGap([], op.Olds());
      NoGap([], op.News());
      assert op.Olds() + [] == op.Olds() && op.News() + [] == op.News();
    } else {
      var first, rest := ops[0], ops[1..];
      assert ops == [first] + rest && ops + [op] == [first] + (rest + [op]);
      OpsSnoc(rest, op);
      OpsCons(first, rest);
      OpsCons(first, rest + [op]);
      Assoc(first.Olds(), OldLines(rest), op.Olds());
      Assoc(first.News(), NewLines(rest), op.News());
    }
  }

  lemma NoOps()
    ensures OldLines([]) == [] && NewLines([]) == []
  {
  }

  /** A script of well-split texts is open at its end only, when both texts end
      in a line feed or when it closes with an unchanged stretch. */
  lemma ScriptOpenAtEndOnly(ops: seq<Op>)
    requires WellSplit(OldLines(ops)) && WellSplit(NewLines(ops))
    requires || (AllTerminated(OldLines(ops)) && AllTerminated(NewLines(ops)))
             || (ops != [] && ops[|ops| - 1].Equal? && ops[|ops| - 1].lines != [])
    ensures OpenAtEndOnly(ops)
  {
    hide OldLines, NewLines, WellSplit, AllTerminated;
    if AllTerminated(OldLines(ops)) && AllTerminated(NewLines(ops)) {
      SidesAllTerminated(ops);
      if ops != [] && ops[|ops| - 1].Equal? { TerminatedWellSplit(ops[|ops| - 1].lines); }
    } else {
      var n := |ops| - 1;
      var front, op := ops[..n], ops[n];
      assert ops == front + [op];
      OpsSnoc(front, op);
      SplitParts(OldLines(front), op.lines);
      SplitParts(NewLines(front), op.lines);
      SidesAllTerminated(front);
      assert forall i | 0 <= i < n :: front[i] == ops[i];
    }
  }

  lemma SplitParts(a: seq<string>, b: seq<string>)
    requires WellSplit(a + b) && b != []
    ensures AllTerminated(a) && WellSplit(b)
  {
    hide WellSplit, AllTerminated;
    PrefixWellSplit(a + b, |a|);
    SuffixWellSplit(a + b, |a|);
    assert (a + b)[..|a|] == a && (a + b)[|a|..] == b;
  }
}
