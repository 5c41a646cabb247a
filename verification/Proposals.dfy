/** When a reply becomes a batch, said of the reply itself. */
module Proposals {
  import opened Text
  import opened Octets
  import U = Unicode
  import opened Applier
  import opened HeaderNames
  import opened Printer
  import opened Grouping
  import opened Builder
  import opened Edits
  import opened Ingest

  // ---------- paths and texts

  /** Parts written with slashes between them. */
  function Slashed(parts: seq<string>): string
    requires parts != []
  {
    if |parts| == 1 then parts[0] else parts[0] + ("/" + Slashed(parts[1..]))
  }

  lemma {:induction false} CutAtSlash(part: string, rest: string)
    requires '/' !in part
    ensures PathParts(part + ("/" + rest)) == [part] + PathParts(rest)
    ensures PathParts(part) == [part]
  {
    var whole := part + ("/" + rest);
    if part == "" {
      assert whole == "/" + rest && whole[1..] == rest;
    } else {
      CutAtSlash(part[1..], rest);
      assert whole[1..] == part[1..] + ("/" + rest);
      assert [part[0]] + part[1..] == part;
    }
  }

  /** Cutting at the slashes undoes the writing. */
  lemma {:induction false} PathPartsOf(parts: seq<string>)
    requires parts != [] && forall p | p in parts :: '/' !in p
    ensures PathParts(Slashed(parts)) == parts
  {
    hide PathParts;
    assert parts == [parts[0]] + parts[1..];
    if |parts| == 1 {
      CutAtSlash(parts[0], "");
    } else {
      PathPartsOf(parts[1..]);
      CutAtSlash(parts[0], Slashed(parts[1..]));
    }
  }

  /** Every path is written so. */
  lemma {:induction false} PathPartsWrite(path: string)
    ensures Slashed(PathParts(path)) == path && forall p | p in PathParts(path) :: '/' !in p
  {
    if path != "" {
      PathPartsWrite(path[1..]);
      assert path == [path[0]] + path[1..];
      var rest := PathParts(path[1..]);
      assert rest == [rest[0]] + rest[1..];
      if path[0] == '/' {
        assert ([""] + rest)[1..] == rest;
        assert "" + ("/" + path[1..]) == path;
      } else {
        var parts := [[path[0]] + rest[0]] + rest[1..];
        assert parts[1..] == rest[1..];
        if |rest| > 1 { assert [path[0]] + (rest[0] + ("/" + Slashed(rest[1..]))) == parts[0] + ("/" + Slashed(parts[1..])); }
      }
    }
  }

  /** Parts that are neither empty nor dots, written with slashes. */
  ghost predicate SafePath(path: string) {
    && (exists parts :: parts != [] && path == Slashed(parts)
                        && forall p | p in parts :: '/' !in p && p != "" && p != "." && p != "..")
    && (forall c | c in path :: c != '\\')
    && ((exists stem :: path == stem + ".py") || exists stem :: path == stem + ".pyi")
  }

  lemma EndsWithIs(s: string, end: string)
    ensures EndsWith(s, end) <==> exists stem :: s == stem + end
  {
    if EndsWith(s, end) { assert s == s[..|s| - |end|] + end; }
    if stem :| s == stem + end { assert s[|s| - |end|..] == end; }
  }

  lemma SafePathIff(path: string)
    ensures PythonPath(path) <==> SafePath(path)
  {
    hide PathParts, EndsWith, Slashed;
    EndsWithIs(path, ".py");
    EndsWithIs(path, ".pyi");
    PathPartsWrite(path);
    if SafePath(path) {
      var parts :| parts != [] && path == Slashed(parts)
                   && forall p | p in parts :: '/' !in p && p != "" && p != "." && p != "..";
      PathPartsOf(parts);
    }
  }

  /** No blank at either end. */
  predicate Neat(s: string) { s == "" || (!IsSpace(s[0]) && !IsSpace(s[|s| - 1])) }

  lemma NeatIff(s: string)
    ensures Trim(s) <==> Neat(s)
  {
    hide IsSpace, StripLeft, StripRight;
    var n := StripLeftShape(s);
    StripRightShape(s[n..]);
    if Neat(s) {
      StripLeftOf("", s);
      StripRightOf(s, "");
      assert "" + s == s && s + "" == s;
    } else if Trim(s) {
      KeptEnds(s, n);
    }
  }

  lemma KeptEnds(s: string, n: nat)
    requires n <= |s| && StripLeft(s) == s[n..] && StripRight(s[n..]) == s && s != ""
    ensures n == 0 && !IsSpace(s[0]) && !IsSpace(s[|s| - 1])
  {
    StripRightShape(s[n..]);
    var m := StripLeftShape(s[1..]);
  }

  /** Blanks as the texts' contract knows them, from ASCII and beyond. */
  lemma BlankIs(c: char)
    ensures IsSpace(c) <==>
              c as int in [0x09, 0x0A, 0x0B, 0x0C, 0x0D, 0x1C, 0x1D, 0x1E, 0x1F, 0x20, 0x85, 0xA0, 0x1680, 0x2000, 0x2001,
                           0x2002, 0x2003, 0x2004, 0x2005, 0x2006, 0x2007, 0x2008, 0x2009, 0x200A, 0x2028, 0x2029, 0x202F,
                           0x205F, 0x3000]
  {
  }

  // ---------- one proposal

  predicate Length(s: string, most: nat) { 1 <= |s| <= most }

  /** Three neat texts, and either a patch that applies to the source or a
      replacement that the builder makes into one; for a neat replacement point
      and a safe path. */
  ghost predicate ItemOk(q: Asked, i: Item) {
    && Length(i.intent, 2000) && Length(i.rationale, 10_000) && Length(i.risk, 4000)
    && Neat(i.intent) && Neat(i.rationale) && Neat(i.risk)
    && Length(q.point, 1000) && Neat(q.point) && SafePath(q.path)
    && (match (i.patch, i.oldText, i.newText)
        case (Some(patch), None, None) => Length(patch, 1_000_000) && Outcome(q.source, patch, q.path).Some?
        case (None, Some(oldText), Some(newText)) =>
          && Length(oldText, 256_000) && Length(newText, 256_000)
          && BuildSingleReplacementPatch(q.source, q.path, oldText, newText, i.opcodes).Ok?
        case _ => false)
  }

  lemma BuiltApplies(baseline: string, path: string, oldText: string, newText: string, opcodes: seq<Op>)
    ensures var built := BuildSingleReplacementPatch(baseline, path, oldText, newText, opcodes);
            built.Ok? ==> Outcome(baseline, built.value, path).Some?
  {
    hide Outcome, UnifiedDiff, Utf8Length, Precheck, Candidate;
  }

  lemma AcceptableIff(q: Asked, i: Item)
    ensures Acceptable(q, i) <==> ItemOk(q, i)
  {
    hide Outcome, BuildSingleReplacementPatch, Trim, Neat, PythonPath, SafePath;
    NeatIff(i.intent);
    NeatIff(i.rationale);
    NeatIff(i.risk);
    NeatIff(q.point);
    SafePathIff(q.path);
    if i.oldText.Some? && i.newText.Some? {
      BuiltApplies(q.source, q.path, i.oldText.value, i.newText.value, i.opcodes);
    }
  }

  // ---------- the reply

  lemma {:induction false} JoinedConcat(a: seq<Block>, b: seq<Block>)
    ensures Joined(a + b) == Joined(a) + Joined(b)
  {
    if a == [] {
      assert a + b == b;
    } else {
      JoinedConcat(a[1..], b);
      assert (a + b)[1..] == a[1..] + b;
    }
  }

  lemma JoinedOne(text: string)
    ensures Joined([TextBlock(text)]) == text && Joined([]) == ""
  {
    assert [TextBlock(text)][1..] == [];
  }

  /** A message of the asked model that ended its turn and is all text, whose
      usage comes to the recorded tokens, and whose text reads as the items. */
  ghost predicate ReadsAs(rd: Reader, q: Asked, raw: Bytes, items: seq<Item>) {
    exists r: Reply ::
      && rd.reply(raw) == Some(r) && r.message && r.complete && r.model == q.model
      && r.blocks != [] && (forall b | b in r.blocks :: b.TextBlock?)
      && UsageTokens(r.usage) == Some(q.tokens) && rd.items(Joined(r.blocks)) == Some(items)
  }

  lemma ItemsOfIs(rd: Reader, q: Asked, raw: Bytes, items: seq<Item>)
    ensures ItemsOf(rd, q, raw) == Some(items) <==>
              ReadsAs(rd, q, raw, items) && |items| <= 8 && forall i | i in items :: WellFormed(i)
  {
    hide UsageTokens, WellFormed;
    if ItemsOf(rd, q, raw) == Some(items) {
      var r := rd.reply(raw).value;
      forall b | b in r.blocks ensures b.TextBlock? { assert b != OtherBlock; }
    }
  }

  /** A batch succeeds exactly when the reply reads as one to eight proposals,
      no more than asked for, of which every one is in order. */
  lemma SucceedsIff(rd: Reader, q: Asked, raw: Bytes)
    ensures Ingested(rd, q, raw).SucceededBatch? <==>
              exists items :: ReadsAs(rd, q, raw, items) && 1 <= |items| <= 8 && |items| <= q.limit
                              && forall i | i in items :: ItemOk(q, i)
    ensures Ingested(rd, q, raw) == FailedBatch(NoProposals) <==> ReadsAs(rd, q, raw, [])
  {
    hide ItemsOf, ReadsAs, Acceptable, ItemOk;
    ItemsOfIs(rd, q, raw, []);
    if Ingested(rd, q, raw).SucceededBatch? {
      var items := ItemsOf(rd, q, raw).value;
      ItemsOfIs(rd, q, raw, items);
      forall i | i in items ensures ItemOk(q, i) {
        var k :| 0 <= k < |items| && items[k] == i;
        AcceptableIff(q, items[k]);
      }
    }
    if items :| ReadsAs(rd, q, raw, items) && 1 <= |items| <= 8 && |items| <= q.limit && forall i | i in items :: ItemOk(q, i) {
      forall i | i in items ensures WellFormed(i) && Acceptable(q, i) {
        AcceptableIff(q, i);
        WellFormedIf(q, i);
      }
      ItemsOfIs(rd, q, raw, items);
      forall k | 0 <= k < |items| ensures Acceptable(q, items[k]) { assert items[k] in items; }
    }
  }

  lemma WellFormedIf(q: Asked, i: Item)
    requires Acceptable(q, i)
    ensures WellFormed(i)
  {
    hide Outcome;
  }
}
