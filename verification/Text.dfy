/** Text as the patch engine handles it: a sequence of characters cut into
    lines at LF, each line keeping its terminator. */
module Text {

  datatype Option<+T> = None | Some(value: T) {
    predicate IsFailure() { None? }
    function PropagateFailure<U>(): Option<U>
      requires None?
    {
      None
    }
    function Extract(): T
      requires Some?
    {
      value
    }
  }

  datatype Result<+T, +E> = Ok(value: T) | Err(error: E)

  lemma Assoc<T>(a: seq<T>, b: seq<T>, c: seq<T>)
    ensures a + (b + c) == a + b + c
  {
  }

  lemma NoGap<T>(a: seq<T>, b: seq<T>)
    requires a == []
    ensures a + b == b
  {
  }

  predicate Terminated(line: string) {
    |line| > 0 && line[|line| - 1] == '\n' && '\n' !in line[..|line| - 1]
  }

  /** A line that may lack its terminator. */
  predicate IsLine(line: string) { line != "" && '\n' !in line[..|line| - 1] }

  /** What `splitlines(keepends=True)` can return: every line but the last
      ends at its only LF; the last one may lack it. */
  predicate WellSplit(lines: seq<string>) {
    && (forall i | 0 <= i < |lines| - 1 :: Terminated(lines[i]))
    && (|lines| > 0 ==>
          var last := lines[|lines| - 1];
          last != "" && '\n' !in last[..|last| - 1])
  }

  function LineEnd(s: string): (n: nat)
    requires s != ""
    ensures 0 < n <= |s|
    ensures '\n' !in s[..n - 1]
    ensures n < |s| ==> s[n - 1] == '\n'
  {
    if s[0] == '\n' || |s| == 1 then 1 else
    var rest := LineEnd(s[1..]);
    assert s[..rest] == [s[0]] + s[1..][..rest - 1];
    1 + rest
  }

  function Lines(s: string): (lines: seq<string>)
    decreases |s|
  {
    if s == "" then [] else [s[..LineEnd(s)]] + Lines(s[LineEnd(s)..])
  }

  function Join(lines: seq<string>): string {
    if lines == [] then "" else lines[0] + Join(lines[1..])
  }

  lemma JoinCons(line: string, rest: seq<string>)
    ensures Join([line] + rest) == line + Join(rest)
  {
    assert ([line] + rest)[1..] == rest;
  }

  lemma LinesStep(s: string)
    requires s != ""
    ensures Lines(s) == [s[..LineEnd(s)]] + Lines(s[LineEnd(s)..])
    ensures s == s[..LineEnd(s)] + s[LineEnd(s)..]
  {
    hide LineEnd;
  }

  lemma {:induction false} JoinLines(s: string)
    ensures Join(Lines(s)) == s
    decreases |s|
  {
    hide *;
    if s == "" {
      JoinNone();
    } else {
      var n := LineEnd(s);
      LinesStep(s);
      JoinLines(s[n..]);
      JoinCons(s[..n], Lines(s[n..]));
    }
  }

  lemma JoinNone()
    ensures Join([]) == "" && Lines("") == []
  {
  }

  lemma {:induction false} LinesWellSplit(s: string)
    ensures WellSplit(Lines(s))
    decreases |s|
  {
    if s != "" {
      var n := LineEnd(s);
      LinesWellSplit(s[n..]);
      var rest := Lines(s[n..]);
      assert Lines(s) == [s[..n]] + rest;
      assert s[..n][..n - 1] == s[..n - 1];
      if rest != [] {
        assert n < |s|;
        assert Terminated(s[..n]);
      }
      forall i | 0 <= i < |Lines(s)| - 1
        ensures Terminated(Lines(s)[i])
      {
        if i > 0 { assert Lines(s)[i] == rest[i - 1]; }
      }
    }
  }

  lemma {:induction false} LineEndOfLine(line: string, rest: string)
    requires line != "" && '\n' !in line[..|line| - 1]
    requires rest == "" || line[|line| - 1] == '\n'
    ensures LineEnd(line + rest) == |line|
    decreases |line|
  {
    var s := line + rest;
    assert s[0] == line[0];
    if |line| == 1 {
    } else {
      assert line[0] in line[..|line| - 1];
      assert s[1..] == line[1..] + rest;
      assert line[1..][..|line[1..]| - 1] == line[..|line| - 1][1..];
      LineEndOfLine(line[1..], rest);
    }
  }

  lemma WellSplitTail(lines: seq<string>)
    requires WellSplit(lines) && lines != []
    ensures WellSplit(lines[1..])
    ensures lines[0] != "" && '\n' !in lines[0][..|lines[0]| - 1]
    ensures |lines| > 1 ==> lines[0][|lines[0]| - 1] == '\n'
  {
    assert forall i | 0 <= i < |lines[1..]| :: lines[1..][i] == lines[i + 1];
    assert |lines| > 1 ==> Terminated(lines[0]);
  }

  lemma {:induction false} LinesOfJoin(lines: seq<string>)
    requires WellSplit(lines)
    ensures Lines(Join(lines)) == lines
    decreases |lines|
  {
    if lines != [] {
      WellSplitTail(lines);
      var rest := Join(lines[1..]);
      LinesOfJoin(lines[1..]);
      LineEndOfLine(lines[0], rest);
      LinesOfCons(lines[0], rest);
      assert lines == [lines[0]] + lines[1..];
    }
  }

  lemma LinesOfCons(line: string, rest: string)
    requires line != "" && LineEnd(line + rest) == |line|
    ensures Lines(line + rest) == [line] + Lines(rest)
  {
    var s := line + rest;
    assert s[..|line|] == line;
    assert s[|line|..] == rest;
  }

  lemma {:induction false} JoinConcat(a: seq<string>, b: seq<string>)
    ensures Join(a + b) == Join(a) + Join(b)
  {
    if a == [] {
      assert a + b == b;
    } else {
      var rest := a[1..] + b;
      assert a + b == [a[0]] + rest;
      JoinCons(a[0], rest);
      JoinConcat(a[1..], b);
      assert a[0] + (Join(a[1..]) + Join(b)) == a[0] + Join(a[1..]) + Join(b);
    }
  }

  /** Text that is empty or ends in LF splits into terminated lines only. */
  predicate LfTerminated(s: string) { s == "" || s[|s| - 1] == '\n' }

  predicate AllTerminated(lines: seq<string>) {
    forall i | 0 <= i < |lines| :: Terminated(lines[i])
  }

  lemma {:induction false} LinesOfTerminated(s: string)
    ensures LfTerminated(s) <==> AllTerminated(Lines(s))
    decreases |s|
  {
    if s != "" {
      var n := LineEnd(s);
      LinesOfTerminated(s[n..]);
      assert s[..n][..n - 1] == s[..n - 1];
      assert LfTerminated(s) == (Terminated(s[..n]) && LfTerminated(s[n..]));
      AllTerminatedCons(s[..n], Lines(s[n..]));
    }
  }

  lemma AllTerminatedCons(line: string, rest: seq<string>)
    ensures AllTerminated([line] + rest) <==> Terminated(line) && AllTerminated(rest)
  {
    var all := [line] + rest;
    assert all[0] == line;
    assert forall i | 0 <= i < |rest| :: all[i + 1] == rest[i];
  }

  lemma JoinOfTerminated(lines: seq<string>)
    requires AllTerminated(lines)
    ensures Lines(Join(lines)) == lines
    ensures LfTerminated(Join(lines))
  {
    LinesOfJoin(lines);
    LinesOfTerminated(Join(lines));
  }

  /** Cutting text at a line boundary cuts its lines. */
  lemma {:induction false} LinesConcat(a: string, b: string)
    requires LfTerminated(a)
    ensures Lines(a + b) == Lines(a) + Lines(b)
    decreases |a|
  {
    if a == "" {
      assert a + b == b;
    } else {
      var n := LineEnd(a);
      var line, rest := a[..n], a[n..];
      assert line[..n - 1] == a[..n - 1];
      assert a + b == line + (rest + b);
      LineEndOfLine(line, rest + b);
      LinesConcat(rest, b);
      LinesOfCons(line, rest + b);
    }
  }

  lemma WellSplitConcat(a: seq<string>, b: seq<string>)
    requires AllTerminated(a) && WellSplit(b)
    ensures WellSplit(a + b)
  {
    var all := a + b;
    forall i | 0 <= i < |all| - 1 ensures Terminated(all[i]) {
      if i >= |a| { assert all[i] == b[i - |a|]; }
    }
    if b == [] && a != [] { assert all[|all| - 1] == a[|a| - 1]; }
  }

  lemma SuffixWellSplit(base: seq<string>, i: nat)
    requires WellSplit(base) && i <= |base|
    ensures WellSplit(base[i..])
  {
    assert forall k | 0 <= k < |base| - i :: base[i..][k] == base[i + k];
  }

  lemma AllTerminatedConcat(a: seq<string>, b: seq<string>)
    requires AllTerminated(a) && AllTerminated(b)
    ensures AllTerminated(a + b)
  {
  }

  lemma PrefixWellSplit(lines: seq<string>, n: nat)
    requires WellSplit(lines) && n <= |lines|
    ensures WellSplit(lines[..n])
    ensures n < |lines| ==> AllTerminated(lines[..n])
  {
    forall i | 0 <= i < n && i < |lines| - 1 ensures Terminated(lines[..n][i]) { assert lines[..n][i] == lines[i]; }
    if 0 < n < |lines| { assert Terminated(lines[n - 1]); }
  }

  lemma TerminatedWellSplit(lines: seq<string>)
    requires AllTerminated(lines)
    ensures WellSplit(lines)
  {
  }
}
