/** Facts about file header lines: which lines count, and which paths they can name. */
module HeaderNames {
  import opened Text
  import opened Applier

  /** A path that survives being written as `--- a/path` and read back. */
  predicate PlainPath(path: string) {
    NulFree(path) && Tidy(path)
  }

  lemma FileHeadersCons(line: string, rest: seq<string>, mark: string)
    ensures FileHeaders([line] + rest, mark) == (if mark <= line then [line] else []) + FileHeaders(rest, mark)
  {
    assert ([line] + rest)[1..] == rest;
  }

  lemma {:induction false} FileHeadersConcat(a: seq<string>, b: seq<string>, mark: string)
    ensures FileHeaders(a + b, mark) == FileHeaders(a, mark) + FileHeaders(b, mark)
  {
    if a == [] {
      assert a + b == b;
    } else {
      hide FileHeaders;
      FileHeadersConcat(a[1..], b, mark);
      FileHeadersCons(a[0], a[1..] + b, mark);
      FileHeadersCons(a[0], a[1..], mark);
      assert a + b == [a[0]] + (a[1..] + b);
      assert a == [a[0]] + a[1..];
    }
  }

  lemma {:induction false} FileHeadersMembers(lines: seq<string>, mark: string)
    ensures forall l | l in FileHeaders(lines, mark) :: l in lines && mark <= l
    ensures forall l | l in lines && mark <= l :: l in FileHeaders(lines, mark)
  {
    if lines != [] {
      FileHeadersMembers(lines[1..], mark);
      assert lines == [lines[0]] + lines[1..];
    }
  }

  lemma {:induction false} UntilTabShape(s: string)
    ensures '\t' !in UntilTab(s)
    ensures UntilTab(s) <= s
    ensures '\t' !in s ==> UntilTab(s) == s
  {
    if s != "" && s[0] != '\t' {
      UntilTabShape(s[1..]);
      assert s == [s[0]] + s[1..];
    }
  }

  lemma {:induction false} StripLeftShape(s: string) returns (n: nat)
    ensures n <= |s| && StripLeft(s) == s[n..]
  {
    if s != "" && IsSpace(s[0]) {
      var m := StripLeftShape(s[1..]);
      n := m + 1;
    } else {
      n := 0;
    }
  }

  lemma {:induction false} StripRightShape(s: string)
    ensures StripRight(s) <= s
    ensures StripRight(s) != "" ==> !IsSpace(StripRight(s)[|StripRight(s)| - 1])
    decreases |s|
  {
    if s != "" && IsSpace(s[|s| - 1]) { StripRightShape(s[..|s| - 1]); }
  }

  predicate Tidy(s: string) {
    '\t' !in s && '\n' !in s && (s != "" ==> !IsSpace(s[|s| - 1]))
  }

  /** Whatever a header line names has no tab, no LF and no trailing blank. */
  lemma HeaderPathShape(rest: string)
    requires rest == "" || '\n' !in rest[..|rest| - 1]
    ensures Tidy(HeaderPath(rest))
  {
    hide UntilTab, StripLeft, StripRight, Tidy;
    var a := UntilTab(rest);
    UntilTabShape(rest);
    var n := StripLeftShape(a);
    StripRightShape(a[n..]);
    TidyMiddle(rest, a, n, StripRight(a[n..]));
    if |StripRight(a[n..])| >= 2 { TidyRest(StripRight(a[n..])); }
  }

  lemma TidyMiddle(rest: string, a: string, n: nat, v: string)
    requires rest == "" || '\n' !in rest[..|rest| - 1]
    requires a <= rest && '\t' !in a && n <= |a| && v <= a[n..]
    requires v != "" ==> !IsSpace(v[|v| - 1])
    ensures Tidy(v)
  {
    forall k | 0 <= k < |v| ensures v[k] != '\t' && v[k] != '\n' {
      assert v[k] == a[n..][k] == a[n + k];
      if k < |v| - 1 { assert v[k] == rest[..|rest| - 1][n + k]; }
    }
  }

  lemma TidyRest(v: string)
    requires Tidy(v) && |v| >= 2
    ensures Tidy(v[2..])
  {
  }

  lemma StripRightBlank(s: string, c: char)
    requires IsSpace(c)
    ensures StripRight(s + [c]) == StripRight(s)
  {
    assert (s + [c])[..|s|] == s;
  }

  lemma StripRightTidy(s: string)
    requires s != "" && !IsSpace(s[|s| - 1])
    ensures StripRight(s + "\n") == s
  {
    StripRightBlank(s, '\n');
  }

  lemma HeaderPathOf(slash: string, path: string)
    requires slash == "a/" || slash == "b/"
    requires PlainPath(path)
    ensures HeaderPath(slash + path + "\n") == path
  {
    hide StripLeft, StripRight;
    var s := slash + path;
    assert '\t' !in s + "\n";
    assert s[|s| - 1] == (if path == "" then '/' else path[|path| - 1]);
    NothingToStrip(s);
    assert s[2..] == path;
  }

  lemma NothingToStrip(s: string)
    requires s != "" && !IsSpace(s[0]) && !IsSpace(s[|s| - 1]) && '\t' !in s + "\n"
    ensures StripRight(StripLeft(UntilTab(s + "\n"))) == s
  {
    hide UntilTab, StripRight;
    UntilTabShape(s + "\n");
    assert (s + "\n")[0] == s[0];
    StripRightTidy(s);
  }

  /** A named file was named by a line of the patch. */
  lemma NamedPathShape(text: string, path: string)
    ensures HeadersName(Lines(text), path) ==> Tidy(path)
  {
    hide HeaderPath;
    var lines := Lines(text);
    if HeadersName(lines, path) {
      var o := FileHeaders(lines, OLD_MARK)[0];
      FileHeadersMembers(lines, OLD_MARK);
      assert o in lines;
      LinesWellSplit(text);
      var i :| 0 <= i < |lines| && lines[i] == o;
      assert '\n' !in o[..|o| - 1] by {
        if i < |lines| - 1 { assert Terminated(lines[i]); }
      }
      var rest := o[4..];
      assert rest == "" || '\n' !in rest[..|rest| - 1] by {
        if rest != "" { assert rest[..|rest| - 1] == o[..|o| - 1][4..]; }
      }
      HeaderPathShape(rest);
    }
  }

  // ---------- every way to write a header

  lemma {:induction false} UntilTabOf(a: string, tail: string)
    requires '\t' !in a && (tail == "" || tail[0] == '\t')
    ensures UntilTab(a + tail) == a
  {
    if a == "" {
      assert a + tail == tail;
    } else {
      UntilTabOf(a[1..], tail);
      assert (a + tail)[1..] == a[1..] + tail;
    }
  }

  lemma {:induction false} StripLeftOf(lead: string, s: string)
    requires (forall c | c in lead :: IsSpace(c)) && (s == "" || !IsSpace(s[0]))
    ensures StripLeft(lead + s) == s
  {
    hide IsSpace;
    if lead == "" {
      assert lead + s == s;
    } else {
      assert lead[0] in lead;
      StripLeftOf(lead[1..], s);
      assert (lead + s)[1..] == lead[1..] + s;
    }
  }

  lemma {:induction false} StripRightOf(s: string, trail: string)
    requires (forall c | c in trail :: IsSpace(c)) && (s == "" || !IsSpace(s[|s| - 1]))
    ensures StripRight(s + trail) == s
    decreases |trail|
  {
    hide IsSpace;
    if trail == "" {
      assert s + trail == s;
    } else {
      var n := |trail| - 1;
      assert trail[n] in trail;
      StripRightOf(s, trail[..n]);
      assert (s + trail)[..|s| + n] == s + trail[..n];
    }
  }

  lemma {:induction false} StripLeftBlank(lead: string)
    requires forall c | c in lead :: IsSpace(c)
    ensures StripLeft(lead) == ""
  {
    hide IsSpace;
    if lead != "" {
      assert lead[0] in lead;
      StripLeftBlank(lead[1..]);
    }
  }

  /** The path of a header line: what stands before the first tab, without the
      blanks around it and without one prefix. */
  lemma HeaderPathIs(lead: string, core: string, trail: string, tail: string)
    requires (forall c | c in lead :: IsSpace(c)) && (forall c | c in trail :: IsSpace(c))
    requires core != "" ==> !IsSpace(core[0]) && !IsSpace(core[|core| - 1])
    requires '\t' !in lead && '\t' !in core && '\t' !in trail && (tail == "" || tail[0] == '\t')
    ensures HeaderPath(lead + core + trail + tail) == if "a/" <= core || "b/" <= core then core[2..] else core
  {
    hide UntilTab, StripLeft, StripRight, IsSpace;
    UntilTabOf(lead + core + trail, tail);
    if core == "" {
      assert lead + core + trail == lead + trail;
      forall c | c in lead + trail ensures IsSpace(c) { }
      StripLeftBlank(lead + trail);
      StripRightOf("", "");
      assert "" + "" == "" && !("a/" <= "") && !("b/" <= "");
    } else {
      assert lead + core + trail == lead + (core + trail);
      StripLeftOf(lead, core + trail);
      StripRightOf(core, trail);
    }
  }

  /** A stamp after a tab, as `diff -u` writes it, does not matter. */
  lemma StampedHeader(path: string, stamp: string)
    requires PlainPath(path)
    ensures HeaderPath("a/" + path + "\t" + stamp) == path
  {
    hide HeaderPath;
    assert "" + ("a/" + path) + "" + ("\t" + stamp) == "a/" + path + "\t" + stamp;
    assert ("a/" + path)[2..] == path;
    HeaderPathIs("", "a/" + path, "", "\t" + stamp);
  }

  /** The headers name a file: one line of the patch starts with each mark, and
      both of them read as its path. */
  lemma HeadersNameIff(lines: seq<string>, path: string)
    ensures HeadersName(lines, path) <==>
              exists o, n :: FileHeaders(lines, "--- ") == ["--- " + o] && FileHeaders(lines, "+++ ") == ["+++ " + n]
                             && HeaderPath(o) == path && HeaderPath(n) == path
  {
    hide FileHeaders, HeaderPath;
    FileHeadersMarked(lines, OLD_MARK);
    FileHeadersMarked(lines, NEW_MARK);
    if OneFile(lines) {
      var a, b := FileHeaders(lines, OLD_MARK)[0], FileHeaders(lines, NEW_MARK)[0];
      assert a == OLD_MARK + a[4..] && b == NEW_MARK + b[4..];
    }
    if o, n :| FileHeaders(lines, "--- ") == ["--- " + o] && FileHeaders(lines, "+++ ") == ["+++ " + n]
               && HeaderPath(o) == path && HeaderPath(n) == path {
      assert ("--- " + o)[4..] == o && ("+++ " + n)[4..] == n;
    }
  }
}
