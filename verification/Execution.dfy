/** One execution that nobody disturbs, from the claim to the settlement. */
module Execution {
  import opened Text
  import opened Octets
  import opened AtMostOnce

  /** The state with one more process. */
  function Joined(s: State, role: Role, place: Place): State {
    s.(processes := s.processes + [Process(role, place)])
  }

  /** What the files of an attempt must leave open, and what the outside must
      answer, for an execution to run, to be recorded, and to be settled. */
  predicate MayRun(rules: Rules, s: State, claim: Claim, input: Bytes) {
    var f := FilesOf(s, claim.attempt);
    && (f.claim == None || f.claim == Some(claim)) && rules.authorized(claim, input) && f.started == None
    && (f.input == None || f.input == Some(input))
  }

  predicate Recorded(rules: Rules, s: State, claim: Claim, input: Bytes, receipt: Receipt) {
    && MayRun(rules, s, claim, input) && receipt.attempt == claim.attempt
    && var index := FilesOf(s, claim.attempt).index;
       index == None || index == Some(rules.address(receipt))
  }

  function ResultFor(rules: Rules, claim: Claim, input: Bytes, receipt: Receipt): Returned
    requires rules.rebuild(claim, receipt, input).Some?
  {
    Returned(claim.attempt, rules.address(receipt), rules.rebuild(claim, receipt, input).value)
  }

  predicate Settles(s: State, claim: Claim, result: Returned, w: Outside) {
    && w.valid && claim.attempt in s.rows
    && var row := s.rows[claim.attempt];
       row.token == claim.token && ((row.phase == Running && w.live) || row.phase == Settled(result))
  }

  predicate Completes(rules: Rules, s: State, claim: Claim, input: Bytes, w: Outside) {
    && Recorded(rules, s, claim, input, w.receipt) && rules.rebuild(claim, w.receipt, input).Some?
    && Settles(s, claim, ResultFor(rules, claim, input, w.receipt), w)
  }

  function WithFiles(s: State, a: nat, f: Files): State { s.(files := s.files[a := f]) }

  // ---------- single steps

  lemma JoinedGoes(s: State, role: Role, place: Place, next: Place)
    ensures Goto(Joined(s, role, place), |s.processes|, next) == Joined(s, role, next)
    ensures FilesOf(Joined(s, role, place), role.Attempt()) == FilesOf(s, role.Attempt())
  {
  }

  lemma WriterMoves(rules: Rules, s: State, role: Role, place: Place, w: Outside)
    requires role.Executor? && Writes(place)
    ensures Apply(rules, Joined(s, role, place), Move(|s.processes|, w))
         == MoveExecutor(rules, Joined(s, role, place), |s.processes|, w.receipt)
  {
    hide MoveExecutor;
  }

  lemma ReaderMoves(rules: Rules, s: State, role: Role, place: Place, w: Outside)
    requires !Writes(place) && !place.Settle?
    ensures Apply(rules, Joined(s, role, place), Move(|s.processes|, w))
         == MoveReader(rules, Joined(s, role, place), |s.processes|)
  {
    hide MoveReader;
  }

  /** One move of the newest process. */
  function Next(rules: Rules, s: State, role: Role, place: Place, w: Outside): State {
    Apply(rules, Joined(s, role, place), Move(|s.processes|, w))
  }

  lemma ClaimWritten(rules: Rules, s: State, claim: Claim, input: Bytes, w: Outside)
    ensures var role, f := Executor(claim, input), FilesOf(s, claim.attempt);
            Next(rules, s, role, WriteClaim, w) ==
              if f.claim == None || f.claim == Some(claim) then
                Joined(WithFiles(s, claim.attempt, f.(claim := Some(claim))), role, Mark)
              else Joined(s, role, Stopped)
  {
    WriterMoves(rules, s, Executor(claim, input), WriteClaim, w);
  }

  lemma Marked(rules: Rules, s: State, claim: Claim, input: Bytes, w: Outside)
    ensures var role, f := Executor(claim, input), FilesOf(s, claim.attempt);
            Next(rules, s, role, Mark, w) ==
              if rules.authorized(claim, input) && f.started == None then
                Joined(WithFiles(s, claim.attempt, f.(started := Some(|s.processes|))), role, WriteInput)
              else Joined(s, role, Stopped)
  {
    WriterMoves(rules, s, Executor(claim, input), Mark, w);
  }

  lemma InputWritten(rules: Rules, s: State, claim: Claim, input: Bytes, w: Outside)
    ensures var role, f := Executor(claim, input), FilesOf(s, claim.attempt);
            Next(rules, s, role, WriteInput, w) ==
              if f.input == None || f.input == Some(input) then
                Joined(WithFiles(s, claim.attempt, f.(input := Some(input))), role, Invoke)
              else Joined(s, role, Stopped)
  {
    WriterMoves(rules, s, Executor(claim, input), WriteInput, w);
  }

  lemma Invoked(rules: Rules, s: State, claim: Claim, input: Bytes, w: Outside)
    ensures var role, a := Executor(claim, input), claim.attempt;
            Next(rules, s, role, Invoke, w) ==
              Joined(s.(invocations := s.invocations + [Invocation(|s.processes|, a)]), role,
                     if w.receipt.attempt == a then PublishReceipt(w.receipt) else Stopped)
  {
    WriterMoves(rules, s, Executor(claim, input), Invoke, w);
  }

  lemma ReceiptPublished(rules: Rules, s: State, claim: Claim, input: Bytes, r: Receipt, w: Outside)
    ensures var role := Executor(claim, input);
            Next(rules, s, role, PublishReceipt(r), w) ==
              Joined(s.(receipts := s.receipts[rules.address(r) := r]), role, WriteIndex(rules.address(r)))
  {
    WriterMoves(rules, s, Executor(claim, input), PublishReceipt(r), w);
  }

  lemma IndexWritten(rules: Rules, s: State, claim: Claim, input: Bytes, ref: nat, w: Outside)
    ensures var role, f := Executor(claim, input), FilesOf(s, claim.attempt);
            Next(rules, s, role, WriteIndex(ref), w) ==
              if f.index == None || f.index == Some(ref) then
                Joined(WithFiles(s, claim.attempt, f.(index := Some(ref))), role, ReadInput(claim))
              else Joined(s, role, Stopped)
  {
    WriterMoves(rules, s, Executor(claim, input), WriteIndex(ref), w);
  }

  lemma InputRead(rules: Rules, s: State, claim: Claim, input: Bytes, w: Outside)
    requires FilesOf(s, claim.attempt).input == Some(input)
    ensures var role := Executor(claim, input);
            Next(rules, s, role, ReadInput(claim), w) == Joined(s, role, ReadIndex(claim, input))
  {
    ReaderMoves(rules, s, Executor(claim, input), ReadInput(claim), w);
  }

  lemma IndexRead(rules: Rules, s: State, claim: Claim, input: Bytes, w: Outside)
    requires FilesOf(s, claim.attempt).index.Some?
    ensures var role := Executor(claim, input);
            Next(rules, s, role, ReadIndex(claim, input), w) ==
              Joined(s, role, Load(claim, input, FilesOf(s, claim.attempt).index.value))
  {
    ReaderMoves(rules, s, Executor(claim, input), ReadIndex(claim, input), w);
  }

  lemma Loaded(rules: Rules, s: State, claim: Claim, input: Bytes, ref: nat, w: Outside)
    requires ref in s.receipts
    ensures var role, built := Executor(claim, input), rules.rebuild(claim, s.receipts[ref], input);
            Next(rules, s, role, Load(claim, input, ref), w) ==
              if built.None? then Joined(s, role, Stopped)
              else
                var result := Returned(claim.attempt, ref, built.value);
                Joined(s.(results := s.results + [result]), role, Settle(claim, result))
  {
    ReaderMoves(rules, s, Executor(claim, input), Load(claim, input, ref), w);
  }

  /** Where the settlement leaves the rows. */
  function RowsAfter(s: State, claim: Claim, result: Returned, w: Outside): map<nat, Row> {
    var a := result.attempt;
    if a in s.rows && w.valid && s.rows[a].phase == Running then
      s.rows[a := s.rows[a].(phase :=
        if s.rows[a].token == claim.token && w.live then Settled(result) else if w.live then Running else Lapsed)]
    else s.rows
  }

  lemma SettledThen(rules: Rules, s: State, claim: Claim, input: Bytes, result: Returned, w: Outside)
    requires result.attempt == claim.attempt
    ensures var role := Executor(claim, input);
            Next(rules, s, role, Settle(claim, result), w) ==
              Joined(s.(rows := RowsAfter(s, claim, result, w)), role, if Settles(s, claim, result, w) then Finished else Stopped)
  {
    var role := Executor(claim, input);
    var u := Joined(s, role, Settle(claim, result));
    assert Apply(rules, u, Move(|s.processes|, w)) == MoveSettler(u, |s.processes|, w);
    if result.attempt in s.rows && s.rows[result.attempt].phase == Running {
      assert s.rows[result.attempt := s.rows[result.attempt]] == s.rows;
    }
  }

  // ---------- the whole execution

  lemma Onward(rules: Rules, s: State, role: Role, place: Place, w: Outside, n: nat)
    requires n > 0
    ensures Moves(rules, Joined(s, role, place), |s.processes|, w, n)
         == Moves(rules, Next(rules, s, role, place, w), |s.processes|, w, n - 1)
  {
    hide Apply;
  }

  lemma AtRest(rules: Rules, s: State, role: Role, place: Place, w: Outside, n: nat)
    requires place == Stopped || place == Finished || n == 0
    ensures Moves(rules, Joined(s, role, place), |s.processes|, w, n) == Joined(s, role, place)
  {
    hide Apply;
    if n > 0 { Resting(rules, Joined(s, role, place), |s.processes|, w, n); }
  }

  /** The files after the runner was invoked. */
  function Ran(s: State, claim: Claim, input: Bytes): State {
    var a := claim.attempt;
    var f := FilesOf(s, a).(claim := Some(claim), started := Some(|s.processes|), input := Some(input));
    WithFiles(s, a, f).(invocations := s.invocations + [Invocation(|s.processes|, a)])
  }

  lemma FilesThen(s: State, a: nat, f: Files, g: Files)
    ensures FilesOf(WithFiles(s, a, f), a) == f
    ensures WithFiles(WithFiles(s, a, f), a, g) == WithFiles(s, a, g)
  {
  }

  lemma RunSteps(rules: Rules, s: State, claim: Claim, input: Bytes, w: Outside, n: nat) returns (t: State)
    requires n >= 4
    ensures var role, i := Executor(claim, input), |s.processes|;
            && |t.processes| == i
            && (if MayRun(rules, s, claim, input) then
                  && t == Ran(s, claim, input)
                  && Moves(rules, Joined(s, role, WriteClaim), i, w, n) ==
                       Moves(rules, Joined(t, role, if w.receipt.attempt == claim.attempt then PublishReceipt(w.receipt) else Stopped),
                             i, w, n - 4)
                else
                  && t.invocations == s.invocations && t.rows == s.rows && t.receipts == s.receipts
                  && Moves(rules, Joined(s, role, WriteClaim), i, w, n) == Joined(t, role, Stopped))
  {
    hide Moves, Next, FilesOf, Joined, WithFiles;
    var role, a, f := Executor(claim, input), claim.attempt, FilesOf(s, claim.attempt);
    ClaimWritten(rules, s, claim, input, w);
    Onward(rules, s, role, WriteClaim, w, n);
    if f.claim != None && f.claim != Some(claim) {
      AtRest(rules, s, role, Stopped, w, n - 1);
      return s;
    }
    var f1 := f.(claim := Some(claim));
    var s1 := WithFiles(s, a, f1);
    FilesThen(s, a, f1, f1);
    SameButFiles(s, a, f1);
    Marked(rules, s1, claim, input, w);
    Onward(rules, s1, role, Mark, w, n - 1);
    if !rules.authorized(claim, input) || f.started != None {
      AtRest(rules, s1, role, Stopped, w, n - 2);
      return s1;
    }
    var f2 := f1.(started := Some(|s.processes|));
    var s2 := WithFiles(s, a, f2);
    FilesThen(s, a, f1, f2);
    FilesThen(s, a, f2, f2);
    SameButFiles(s, a, f2);
    InputWritten(rules, s2, claim, input, w);
    Onward(rules, s2, role, WriteInput, w, n - 2);
    if f.input != None && f.input != Some(input) {
      AtRest(rules, s2, role, Stopped, w, n - 3);
      return s2;
    }
    var f3 := f2.(input := Some(input));
    var s3 := WithFiles(s, a, f3);
    FilesThen(s, a, f2, f3);
    SameButFiles(s, a, f3);
    Invoked(rules, s3, claim, input, w);
    Onward(rules, s3, role, Invoke, w, n - 3);
    t := s3.(invocations := s3.invocations + [Invocation(|s3.processes|, a)]);
  }

  lemma SameButFiles(s: State, a: nat, f: Files)
    ensures var t := WithFiles(s, a, f);
            t.invocations == s.invocations && t.rows == s.rows && t.receipts == s.receipts && t.processes == s.processes
            && t.results == s.results
  {
  }

  /** The files after the receipt's index was written. */
  function Indexed(rules: Rules, s: State, claim: Claim, r: Receipt): State {
    var a := claim.attempt;
    var u := s.(receipts := s.receipts[rules.address(r) := r]);
    WithFiles(u, a, FilesOf(s, a).(index := Some(rules.address(r))))
  }

  lemma IndexSteps(rules: Rules, s: State, claim: Claim, input: Bytes, w: Outside, n: nat)
    requires n >= 2
    ensures var role, i := Executor(claim, input), |s.processes|;
            var index := FilesOf(s, claim.attempt).index;
            var place := PublishReceipt(w.receipt);
            var u := s.(receipts := s.receipts[rules.address(w.receipt) := w.receipt]);
            Moves(rules, Joined(s, role, place), i, w, n) ==
              if index == None || index == Some(rules.address(w.receipt)) then
                Moves(rules, Joined(Indexed(rules, s, claim, w.receipt), role, ReadInput(claim)), i, w, n - 2)
              else Joined(u, role, Stopped)
  {
    hide Moves, Next, FilesOf, Joined, WithFiles;
    var role, r := Executor(claim, input), w.receipt;
    var u := s.(receipts := s.receipts[rules.address(r) := r]);
    SameFiles(s, u, claim.attempt);
    ReceiptPublished(rules, s, claim, input, r, w);
    Onward(rules, s, role, PublishReceipt(r), w, n);
    IndexWritten(rules, u, claim, input, rules.address(r), w);
    Onward(rules, u, role, WriteIndex(rules.address(r)), w, n - 1);
    AtRest(rules, u, role, Stopped, w, n - 2);
  }

  lemma SameFiles(s: State, t: State, a: nat)
    requires s.files == t.files
    ensures FilesOf(s, a) == FilesOf(t, a)
  {
  }

  lemma SettleSteps(rules: Rules, s: State, claim: Claim, input: Bytes, r: Receipt, w: Outside)
    requires FilesOf(s, claim.attempt).input == Some(input)
    requires FilesOf(s, claim.attempt).index == Some(rules.address(r))
    requires rules.address(r) in s.receipts && s.receipts[rules.address(r)] == r
    ensures var role, i := Executor(claim, input), |s.processes|;
            var t := Moves(rules, Joined(s, role, ReadInput(claim)), i, w, 4);
            if rules.rebuild(claim, r, input).None? then t == Joined(s, role, Stopped)
            else
              var result := ResultFor(rules, claim, input, r);
              var u := s.(results := s.results + [result]);
              t == Joined(u.(rows := RowsAfter(u, claim, result, w)), role,
                          if Settles(s, claim, result, w) then Finished else Stopped)
  {
    hide Moves, Next, FilesOf, Joined, RowsAfter;
    var role, ref := Executor(claim, input), rules.address(r);
    InputRead(rules, s, claim, input, w);
    Onward(rules, s, role, ReadInput(claim), w, 4);
    IndexRead(rules, s, claim, input, w);
    Onward(rules, s, role, ReadIndex(claim, input), w, 3);
    Loaded(rules, s, claim, input, ref, w);
    Onward(rules, s, role, Load(claim, input, ref), w, 2);
    if rules.rebuild(claim, r, input).None? {
      AtRest(rules, s, role, Stopped, w, 1);
    } else {
      var result := ResultFor(rules, claim, input, r);
      var u := s.(results := s.results + [result]);
      SettledThen(rules, u, claim, input, result, w);
      Onward(rules, u, role, Settle(claim, result), w, 1);
      var v := u.(rows := RowsAfter(u, claim, result, w));
      AtRest(rules, v, role, if Settles(s, claim, result, w) then Finished else Stopped, w, 0);
    }
  }

  /** What one execution leaves behind when nobody disturbs it: it runs exactly
      once or not at all, a receipt of its attempt is indexed before anything
      else can fail, and only a completed one settles the row. */
  ghost predicate Leaves(rules: Rules, s: State, claim: Claim, input: Bytes, w: Outside, t: State) {
    var i, a := |s.processes|, claim.attempt;
    && |t.processes| == i + 1
    && t.processes[i].place == (if Completes(rules, s, claim, input, w) then Finished else Stopped)
    && t.invocations == s.invocations + (if MayRun(rules, s, claim, input) then [Invocation(i, a)] else [])
    && (Recorded(rules, s, claim, input, w.receipt) ==>
          && FilesOf(t, a) == Files(Some(claim), Some(i), Some(input), Some(rules.address(w.receipt)))
          && t.receipts == s.receipts[rules.address(w.receipt) := w.receipt])
    && (Completes(rules, s, claim, input, w) ==>
          t.rows == s.rows[a := s.rows[a].(phase := Settled(ResultFor(rules, claim, input, w.receipt)))])
    && forall b | b in t.rows :: b in s.rows && (t.rows[b].phase.Settled? && t.rows[b] != s.rows[b] ==>
          b == a && Completes(rules, s, claim, input, w))
  }

  lemma NothingSettled(rules: Rules, s: State, claim: Claim, input: Bytes, w: Outside, t: State, place: Place)
    requires |t.processes| == |s.processes| && t.rows == s.rows
    requires !Completes(rules, s, claim, input, w)
    requires t.invocations == s.invocations + (if MayRun(rules, s, claim, input) then [Invocation(|s.processes|, claim.attempt)] else [])
    requires Recorded(rules, s, claim, input, w.receipt) ==>
               && FilesOf(t, claim.attempt)
                    == Files(Some(claim), Some(|s.processes|), Some(input), Some(rules.address(w.receipt)))
               && t.receipts == s.receipts[rules.address(w.receipt) := w.receipt]
    ensures Leaves(rules, s, claim, input, w, Joined(t, Executor(claim, input), Stopped))
  {
    hide Completes, MayRun, Recorded;
    JoinedGoes(t, Executor(claim, input), Stopped, Stopped);
  }

  /** An execution that nobody disturbs finishes in ten moves exactly when the
      attempt was never started and no other claim, input or index stands in its
      place, the authority checks pass, the receipt is the attempt's own, the
      batch can be rebuilt, and the repository accepts it: the row is running
      under the token and a lease that lasts. */
  lemma ExecutionIff(rules: Rules, s: State, claim: Claim, input: Bytes, w: Outside)
    ensures Leaves(rules, s, claim, input, w,
                   Moves(rules, Apply(rules, s, Start(Executor(claim, input))), |s.processes|, w, 10))
  {
    hide Moves, FilesOf, Joined, MayRun, Settles, RowsAfter;
    var role, i, a := Executor(claim, input), |s.processes|, claim.attempt;
    Started(rules, s, role);
    var t := RunSteps(rules, s, claim, input, w, 10);
    if !MayRun(rules, s, claim, input) {
      NothingSettled(rules, s, claim, input, w, t, Stopped);
    } else if w.receipt.attempt != a {
      AtRest(rules, t, role, Stopped, w, 6);
      RanParts(s, claim, input);
      NothingSettled(rules, s, claim, input, w, t, Stopped);
    } else {
      RanParts(s, claim, input);
      IndexSteps(rules, t, claim, input, w, 6);
      if !Recorded(rules, s, claim, input, w.receipt) {
        var u := t.(receipts := t.receipts[rules.address(w.receipt) := w.receipt]);
        NothingSettled(rules, s, claim, input, w, u, Stopped);
      } else {
        AfterIndex(rules, s, claim, input, w);
      }
    }
  }

  lemma Started(rules: Rules, s: State, role: Role)
    requires role.Executor?
    ensures Apply(rules, s, Start(role)) == Joined(s, role, WriteClaim)
  {
  }

  lemma RanParts(s: State, claim: Claim, input: Bytes)
    ensures var t, a := Ran(s, claim, input), claim.attempt;
            && t.invocations == s.invocations + [Invocation(|s.processes|, a)] && t.rows == s.rows
            && t.receipts == s.receipts && t.processes == s.processes
            && FilesOf(t, a) == FilesOf(s, a).(claim := Some(claim), started := Some(|s.processes|), input := Some(input))
  {
  }

  lemma IndexedParts(rules: Rules, s: State, claim: Claim, r: Receipt)
    ensures var t, a := Indexed(rules, s, claim, r), claim.attempt;
            && t.invocations == s.invocations && t.rows == s.rows && t.processes == s.processes
            && t.receipts == s.receipts[rules.address(r) := r]
            && FilesOf(t, a) == FilesOf(s, a).(index := Some(rules.address(r)))
  {
  }

  lemma AfterIndex(rules: Rules, s: State, claim: Claim, input: Bytes, w: Outside)
    requires Recorded(rules, s, claim, input, w.receipt)
    ensures var u := Indexed(rules, Ran(s, claim, input), claim, w.receipt);
            Leaves(rules, s, claim, input, w,
                   Moves(rules, Joined(u, Executor(claim, input), ReadInput(claim)), |s.processes|, w, 4))
  {
    hide Moves, FilesOf, Indexed, Ran, Joined, RowsAfter, Settles;
    var role, a, ran := Executor(claim, input), claim.attempt, Ran(s, claim, input);
    var u := Indexed(rules, ran, claim, w.receipt);
    RanParts(s, claim, input);
    IndexedParts(rules, ran, claim, w.receipt);
    SettleSteps(rules, u, claim, input, w.receipt, w);
    if rules.rebuild(claim, w.receipt, input).None? {
      NothingSettled(rules, s, claim, input, w, u, Stopped);
    } else {
      var result := ResultFor(rules, claim, input, w.receipt);
      SettlesSame(s, u, claim, result, w);
      var v := u.(results := u.results + [result]);
      RowsSettled(s, v, claim, result, w);
      var x := v.(rows := RowsAfter(v, claim, result, w));
      SameFiles(u, x, a);
      JoinedGoes(x, role, if Settles(s, claim, result, w) then Finished else Stopped, Stopped);
      JoinedParts(x, role, if Settles(s, claim, result, w) then Finished else Stopped);
    }
  }

  lemma JoinedParts(s: State, role: Role, place: Place)
    ensures var t := Joined(s, role, place);
            && |t.processes| == |s.processes| + 1 && t.processes[|s.processes|] == Process(role, place)
            && t.files == s.files && t.receipts == s.receipts && t.rows == s.rows && t.invocations == s.invocations
  {
  }

  lemma SettlesSame(s: State, t: State, claim: Claim, result: Returned, w: Outside)
    requires s.rows == t.rows
    ensures Settles(s, claim, result, w) == Settles(t, claim, result, w)
  {
  }

  lemma RowsSettled(s: State, t: State, claim: Claim, result: Returned, w: Outside)
    requires s.rows == t.rows && result.attempt == claim.attempt
    ensures var rows := RowsAfter(t, claim, result, w);
            && (Settles(s, claim, result, w) ==>
                  rows == s.rows[claim.attempt := s.rows[claim.attempt].(phase := Settled(result))])
            && forall b | b in rows :: b in s.rows && (rows[b].phase.Settled? && rows[b] != s.rows[b] ==>
                  b == claim.attempt && Settles(s, claim, result, w))
  {
    if Settles(s, claim, result, w) && s.rows[claim.attempt].phase == Settled(result) {
      assert s.rows[claim.attempt := s.rows[claim.attempt]] == s.rows;
    }
  }

  /** After any run, for an attempt that was never touched: it finishes exactly
      when it is authorized, answered with its own receipt, rebuilt, and running
      under its token and a lease that lasts. */
  lemma UntouchedExecutionIff(rules: Rules, steps: seq<Step>, claim: Claim, input: Bytes, w: Outside)
    requires Sound(rules) && FilesOf(After(rules, EMPTY, steps), claim.attempt) == NO_FILES
    ensures var s := After(rules, EMPTY, steps);
            Completes(rules, s, claim, input, w) <==>
              && rules.authorized(claim, input) && w.receipt.attempt == claim.attempt
              && rules.rebuild(claim, w.receipt, input).Some? && w.valid && w.live
              && claim.attempt in s.rows && s.rows[claim.attempt].token == claim.token
              && s.rows[claim.attempt].phase == Running
  {
    hide After, Inv;
    Reached(rules, steps);
    var s, a := After(rules, EMPTY, steps), claim.attempt;
    if a in s.rows && s.rows[a].phase.Settled? { SettledHasFiles(rules, s, a); }
  }

  lemma SettledHasFiles(rules: Rules, s: State, a: nat)
    requires Inv(rules, s) && a in s.rows && s.rows[a].phase.Settled?
    ensures FilesOf(s, a).claim.Some?
  {
    hide ProcessOk, InvocationOk, IndexOk, ClaimOk;
    assert RowOk(s, a);
    var k :| 0 <= k < |s.results| && s.results[k] == s.rows[a].phase.result;
    assert ResultOk(rules, s, s.results[k]);
  }

  // ---------- one attempt from its queueing on

  /** The repository's part before a worker starts. */
  function Issued(rules: Rules, a: nat, run: nat, request: nat, plan: nat, token: nat, then': seq<Step>): State {
    After(rules, EMPTY, [Queue(a, run, request, plan), HandOut(a, token)] + then')
  }

  /** A queued attempt that was handed out is executed and settled exactly when
      it is authorized, answered with its own receipt, rebuilt, valid and in
      time, under the token it was handed out with. One whose lease has passed
      is neither settled nor handed out again. */
  lemma WholeAttempt(
    rules: Rules, claim: Claim, input: Bytes, w: Outside, run: nat, request: nat, plan: nat, token: nat, again: nat)
    ensures var a := claim.attempt;
            && (Completes(rules, Issued(rules, a, run, request, plan, token, []), claim, input, w) <==>
                  && rules.authorized(claim, input) && w.receipt.attempt == a
                  && rules.rebuild(claim, w.receipt, input).Some? && w.valid && w.live && claim.token == token)
            && !Completes(rules, Issued(rules, a, run, request, plan, token, [Lapse(a)]), claim, input, w)
            && !Completes(rules, Issued(rules, a, run, request, plan, token, [Lapse(a), HandOut(a, again)]), claim, input, w)
  {
    hide Apply, After;
    var a := claim.attempt;
    var q, h, l, g: Step := Queue(a, run, request, plan), HandOut(a, token), Lapse(a), HandOut(a, again);
    var two := [q, h];
    assert two + [] == [q] + [h] && two + [l] == [q] + [h, l] && two + [l, g] == [q] + [h, l, g];
    assert [h] == [h] + [] && [h, l] == [h] + [l] && [h, l, g] == [h] + [l, g];
    assert [l] == [l] + [] && [l, g] == [l] + [g] && [g] == [g] + [];
    AfterCons(rules, EMPTY, q, [h]);
    AfterCons(rules, EMPTY, q, [h, l]);
    AfterCons(rules, EMPTY, q, [h, l, g]);
    var s1 := Apply(rules, EMPTY, q);
    AfterCons(rules, s1, h, []);
    AfterCons(rules, s1, h, [l]);
    AfterCons(rules, s1, h, [l, g]);
    var s2 := Apply(rules, s1, h);
    AfterCons(rules, s2, l, []);
    AfterCons(rules, s2, l, [g]);
    var s3 := Apply(rules, s2, l);
    AfterCons(rules, s3, g, []);
    IssuedRows(rules, a, run, request, plan, token, again);
  }

  lemma AfterCons(rules: Rules, s: State, step: Step, rest: seq<Step>)
    ensures After(rules, s, [step] + rest) == After(rules, Apply(rules, s, step), rest)
    ensures After(rules, s, []) == s
  {
    hide Apply;
    assert ([step] + rest)[1..] == rest;
  }

  lemma IssuedRows(rules: Rules, a: nat, run: nat, request: nat, plan: nat, token: nat, again: nat)
    ensures var s1 := Apply(rules, EMPTY, Queue(a, run, request, plan));
            var s2 := Apply(rules, s1, HandOut(a, token));
            var s3 := Apply(rules, s2, Lapse(a));
            && s2.rows == map[a := Row(run, token, request, plan, Running)] && s2.files == map[]
            && s3.rows == map[a := Row(run, token, request, plan, Lapsed)] && s3.files == map[]
            && Apply(rules, s3, HandOut(a, again)) == s3
  {
  }
}
