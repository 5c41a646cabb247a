/** What replacing the values of the environment leaves of them. */
module EnvValues {
  import opened Octets
  import opened Text
  import opened Unicode
  import opened Redaction
  import opened Masking

  predicate At(text: Message, word: Message, i: nat) { i + |word| <= |text| && text[i..i + |word|] == word }

  ghost predicate Holds(text: Message, word: Message) { exists i: nat :: At(text, word, i) }

  predicate WordAt(text: Message, word: Message, s: Span) {
    s.at == s.start && s.end == s.at + |word| && At(text, word, s.at)
  }

  ghost function Occurrences(text: Message, word: Message): Span -> bool { s => WordAt(text, word, s) }

  lemma {:induction false} ReplaceFrom(text: Message, word: Message, mark: Message, from: nat) returns (spans: seq<Span>)
    requires word != [] && from <= |text|
    ensures Leftmost(text, from, spans, Occurrences(text, word))
    ensures ReplaceAll(text[from..], word, mark) == Masked(text, from, spans, mark)
    decreases |text| - from
  {
    hide *;
    AtHere(text, word, from);
    if from == |text| {
      spans := [];
      NothingThere(text, word, mark);
      NoSpans(text, from, mark);
    } else if word <= text[from..] {
      var s := Span(from, from, from + |word|);
      var more := ReplaceFrom(text, word, mark, s.end);
      LeftmostOrdered(text, s.end, more, Occurrences(text, word));
      MaskOne(text, from, s, more, mark);
      ReplaceTaken(text, word, mark, from);
      WordTaken(text, word, s, more);
      spans := [s] + more;
    } else {
      spans := ReplaceFrom(text, word, mark, from + 1);
      LeftmostOrdered(text, from + 1, spans, Occurrences(text, word));
      KeepOne(text, from, spans, mark);
      ReplaceKept(text, word, mark, from);
      WordSkipped(text, word, from, spans);
    }
  }

  lemma AtHere(text: Message, word: Message, from: nat)
    requires from <= |text|
    ensures At(text, word, from) <==> word <= text[from..]
    ensures word <= text[from..] ==> from + |word| <= |text|
  {
    if from + |word| <= |text| { assert text[from..][..|word|] == text[from..from + |word|]; }
  }

  lemma NothingThere(text: Message, word: Message, mark: Message)
    requires word != []
    ensures Leftmost(text, |text|, [], Occurrences(text, word)) && ReplaceAll(text[|text|..], word, mark) == []
  {
  }

  lemma ReplaceTaken(text: Message, word: Message, mark: Message, from: nat)
    requires word != [] && from < |text| && word <= text[from..]
    ensures ReplaceAll(text[from..], word, mark) == mark + ReplaceAll(text[from + |word|..], word, mark)
  {
    assert text[from..][|word|..] == text[from + |word|..];
  }

  lemma ReplaceKept(text: Message, word: Message, mark: Message, from: nat)
    requires word != [] && from < |text| && !(word <= text[from..])
    ensures ReplaceAll(text[from..], word, mark) == [text[from]] + ReplaceAll(text[from + 1..], word, mark)
  {
    assert text[from..][1..] == text[from + 1..];
  }

  lemma WordTaken(text: Message, word: Message, s: Span, more: seq<Span>)
    requires word != [] && s == Span(s.at, s.at, s.at + |word|) && At(text, word, s.at)
    requires Leftmost(text, s.end, more, Occurrences(text, word)) && Ordered(text, s.at, [s] + more)
    ensures Leftmost(text, s.at, [s] + more, Occurrences(text, word))
  {
    hide Ordered;
    var all := [s] + more;
    assert s in all;
    forall m: Span | s.at <= m.at && WordAt(text, word, m)
      ensures exists t | t in all :: m.at == t.at || t.start <= m.at < t.end
    {
      if m.at >= s.end {
        var t :| t in more && (m.at == t.at || t.start <= m.at < t.end);
        assert t in all;
      }
    }
  }

  lemma WordSkipped(text: Message, word: Message, from: nat, spans: seq<Span>)
    requires from < |text| && !At(text, word, from)
    requires Leftmost(text, from + 1, spans, Occurrences(text, word)) && Ordered(text, from, spans)
    ensures Leftmost(text, from, spans, Occurrences(text, word))
  {
    hide Ordered, At;
  }

  /** The replacement takes the leftmost occurrences that do not overlap, and
      keeps the rest in order. */
  lemma ReplaceMasks(text: Message, word: Message, mark: Message)
    requires word != []
    ensures exists spans ::
              Leftmost(text, 0, spans, Occurrences(text, word)) && ReplaceAll(text, word, mark) == Masked(text, 0, spans, mark)
  {
    hide Masked, ReplaceAll, Leftmost;
    var spans := ReplaceFrom(text, word, mark, 0);
    assert text[0..] == text;
  }

  // ---------- what is gone

  predicate Apart(v: Message, mark: Message) { forall c | c in v :: c !in mark }

  /** An occurrence that shares no character with the mark is one in the kept
      parts of the text. */
  lemma {:induction false} Unmasked(
    text: Message, from: nat, spans: seq<Span>, mark: Message, v: Message, j: nat) returns (i: nat)
    requires Ordered(text, from, spans) && mark != [] && v != [] && Apart(v, mark)
    requires At(Masked(text, from, spans, mark), v, j)
    ensures from <= i && At(text, v, i)
    ensures forall s | s in spans :: s.end <= i || i + |v| <= s.start
    decreases |spans|
  {
    hide *;
    if spans == [] {
      i := from + j;
      OrderedFrom(text, from, spans);
      NoSpans(text, from, mark);
      assert text[from..|text|] == text[from..];
      AtShift(text, from, |text|, v, j);
    } else {
      var s, rest := spans[0], spans[1..];
      MaskedCons(text, from, spans, mark);
      OrderedTail(text, from, spans);
      WhereInThree(text[from..s.start], mark, Masked(text, s.end, rest, mark), v, j);
      var a := s.start - from;
      if j + |v| <= a {
        i := from + j;
        AtShift(text, from, s.start, v, j);
      } else {
        i := Unmasked(text, s.end, rest, mark, v, j - a - |mark|);
      }
      assert spans == [s] + rest;
    }
  }

  lemma AtShift(text: Message, from: nat, to: nat, v: Message, j: nat)
    requires from <= to <= |text| && At(text[from..to], v, j)
    ensures At(text, v, from + j) && from + j + |v| <= to
  {
    var part := text[from..to];
    forall k | 0 <= k < |v| ensures text[from + j..from + j + |v|][k] == v[k] { assert part[j..j + |v|][k] == part[j + k]; }
  }

  lemma MaskedCons(text: Message, from: nat, spans: seq<Span>, mark: Message)
    requires Ordered(text, from, spans) && spans != []
    ensures from <= spans[0].start <= |text| && Ordered(text, spans[0].end, spans[1..])
    ensures Masked(text, from, spans, mark) ==
              text[from..spans[0].start] + mark + Masked(text, spans[0].end, spans[1..], mark)
  {
    OrderedFrom(text, from, spans);
  }

  lemma Shares(a: Message, mark: Message, b: Message, v: Message, j: nat, p: nat)
    requires At(a + mark + b, v, j) && j <= p < j + |v| && |a| <= p < |a| + |mark|
    ensures !Apart(v, mark)
  {
    var all := a + mark + b;
    assert all[p] == mark[p - |a|] && all[j..j + |v|][p - j] == all[p];
    assert v[p - j] in v && mark[p - |a|] in mark;
  }

  lemma WhereInThree(a: Message, mark: Message, b: Message, v: Message, j: nat)
    requires mark != [] && v != [] && Apart(v, mark) && At(a + mark + b, v, j)
    ensures (j + |v| <= |a| && At(a, v, j)) || (j >= |a| + |mark| && At(b, v, j - |a| - |mark|))
  {
    var all := a + mark + b;
    if j + |v| <= |a| {
      assert all[j..j + |v|] == a[j..j + |v|];
    } else if j >= |a| + |mark| {
      var k := j - |a| - |mark|;
      assert all[j..j + |v|] == b[k..k + |v|];
    } else {
      Shares(a, mark, b, v, j, if j < |a| then |a| else j);
    }
  }

  lemma Replaced(text: Message, v: Message, spans: seq<Span>, i: nat)
    requires Leftmost(text, 0, spans, Occurrences(text, v)) && At(text, v, i) && v != []
    ensures exists s | s in spans :: i < s.end && s.start < i + |v|
  {
    hide Ordered;
    assert Occurrences(text, v)(Span(i, i, i + |v|));
    var s: Span :| s in spans && (i == s.at || s.start <= i < s.end);
    assert Occurrences(text, v)(s);
  }

  /** A replaced word that shares no character with the mark is gone, and no
      such word appears. */
  lemma NotLeft(text: Message, word: Message, mark: Message, v: Message)
    requires word != [] && v != [] && mark != [] && Apart(v, mark) && (v == word || !Holds(text, v))
    ensures !Holds(ReplaceAll(text, word, mark), v)
  {
    hide Masked, ReplaceAll, Ordered, At, Apart;
    if Holds(ReplaceAll(text, word, mark), v) {
      var j: nat :| At(ReplaceAll(text, word, mark), v, j);
      ReplaceMasks(text, word, mark);
      var spans :| Leftmost(text, 0, spans, Occurrences(text, word))
                   && ReplaceAll(text, word, mark) == Masked(text, 0, spans, mark);
      var i := Unmasked(text, 0, spans, mark, v, j);
      if v == word { Replaced(text, v, spans, i); }
    }
  }

  lemma {:induction false} HideAllNone(text: Message, words: seq<Message>, v: Message)
    requires [] !in words && v != [] && Apart(v, ENV_MARK) && (v in words || !Holds(text, v))
    ensures !Holds(HideAll(text, words), v)
    decreases |words|
  {
    hide ReplaceAll, Holds, Apart, Codes;
    if words != [] {
      MarkLength();
      if v == words[0] || !Holds(text, v) { NotLeft(text, words[0], ENV_MARK, v); }
      assert words == [words[0]] + words[1..];
      HideAllNone(ReplaceAll(text, words[0], ENV_MARK), words[1..], v);
    }
  }

  /** No value of the environment is quoted, if it shares no character with the
      mark that replaces it. */
  lemma ValuesHidden(letter: Code -> bool, raw: Bytes, values: seq<Message>, v: Message)
    requires v in values && v != [] && Apart(v, Codes("<redacted-env>"))
    ensures !Holds(Summary(letter, raw, values), v)
  {
    hide Redact, HideAll, Decode, LongestFirst, Holds, Apart, Codes;
    LongestFirstMembers(values);
    HideAllNone(Redact(letter, Decode(CutBytes(raw, SUMMARY_BYTES)), false), LongestFirst(values), v);
  }

  predicate Descending(words: seq<Message>) { forall i, j | 0 <= i < j < |words| :: |words[i]| >= |words[j]| }

  lemma DescendingCons(word: Message, words: seq<Message>)
    requires Descending(words) && forall w | w in words :: |w| <= |word|
    ensures Descending([word] + words)
  {
  }

  lemma DescendingTail(words: seq<Message>)
    requires Descending(words) && words != []
    ensures Descending(words[1..]) && forall w | w in words :: |w| <= |words[0]|
  {
    forall w | w in words ensures |w| <= |words[0]| {
      var i :| 0 <= i < |words| && words[i] == w;
    }
  }

  lemma InsertedIn(word: Message, words: seq<Message>, w: Message)
    requires w in Insert(word, words)
    ensures w == word || w in words
  {
    InsertMembers(word, words);
    assert w in multiset(Insert(word, words));
  }

  lemma {:induction false} InsertSorted(word: Message, words: seq<Message>)
    requires Descending(words)
    ensures Descending(Insert(word, words))
  {
    hide Descending;
    if words == [] {
      DescendingCons(word, words);
    } else {
      DescendingTail(words);
      if |words[0]| <= |word| {
        DescendingCons(word, words);
      } else {
        InsertSorted(word, words[1..]);
        var rest := Insert(word, words[1..]);
        forall w | w in rest ensures |w| <= |words[0]| { InsertedIn(word, words[1..], w); }
        DescendingCons(words[0], rest);
      }
    }
  }

  /** Longer values are replaced before shorter ones, and none is left out. */
  lemma {:induction false} LongestFirstSorted(values: seq<Message>)
    ensures Descending(LongestFirst(values))
    ensures forall v | v in values && v != [] :: v in LongestFirst(values)
  {
    hide Descending, Insert;
    LongestFirstMembers(values);
    DescendingNone();
    if values != [] {
      LongestFirstSorted(values[1..]);
      if values[0] != [] { InsertSorted(values[0], LongestFirst(values[1..])); }
    }
  }

  lemma DescendingNone()
    ensures Descending([])
  {
  }
}
