/** What the quoting of an output hides, and what it keeps. */
module Masking {
  import opened Octets
  import opened Text
  import opened Unicode
  import opened Redaction

  /** A match that starts at `at`, and the part of it that is replaced. */
  datatype Span = Span(at: nat, start: nat, end: nat)

  predicate Ordered(text: Message, from: nat, spans: seq<Span>)
    decreases |spans|
  {
    if spans == [] then from <= |text|
    else
      && from <= spans[0].at <= spans[0].start < spans[0].end <= |text|
      && Ordered(text, spans[0].end, spans[1..])
  }

  /** The text from `from` on, with each span replaced and the rest kept. */
  function Masked(text: Message, from: nat, spans: seq<Span>, mark: Message): Message
    requires Ordered(text, from, spans)
    decreases |spans|
  {
    if spans == [] then text[from..]
    else text[from..spans[0].start] + mark + Masked(text, spans[0].end, spans[1..], mark)
  }

  /** The spans are matches, and every match from `from` on starts at one or
      inside the replaced part of one. */
  ghost predicate Leftmost(text: Message, from: nat, spans: seq<Span>, matches: Span -> bool) {
    && Ordered(text, from, spans)
    && (forall s | s in spans :: matches(s))
    && forall m: Span | from <= m.at && matches(m) :: exists s | s in spans :: m.at == s.at || s.start <= m.at < s.end
  }

  lemma OrderedFrom(text: Message, from: nat, spans: seq<Span>)
    requires Ordered(text, from, spans)
    ensures from <= |text|
    ensures forall s | s in spans :: from <= s.at <= s.start < s.end <= |text|
    decreases |spans|
  {
    if spans != [] { OrderedFrom(text, spans[0].end, spans[1..]); }
  }

  /** One more kept character in front. */
  lemma KeepOne(text: Message, from: nat, spans: seq<Span>, mark: Message)
    requires from < |text| && Ordered(text, from + 1, spans)
    ensures Ordered(text, from, spans)
    ensures Masked(text, from, spans, mark) == [text[from]] + Masked(text, from + 1, spans, mark)
  {
    if spans != [] { assert text[from..spans[0].start] == [text[from]] + text[from + 1..spans[0].start]; }
  }

  lemma MaskOne(text: Message, from: nat, s: Span, spans: seq<Span>, mark: Message)
    requires from == s.at <= s.start < s.end <= |text| && Ordered(text, s.end, spans)
    ensures Ordered(text, from, [s] + spans)
    ensures Masked(text, from, [s] + spans, mark) == text[from..s.start] + mark + Masked(text, s.end, spans, mark)
  {
    assert ([s] + spans)[1..] == spans;
  }

  // ---------- the pattern of an assigned secret

  predicate ValueChar(c: Code) { !Space(c) && c != 44 && c != 59 }

  /** The text starts with a keyword, blanks, `:` or `=`, blanks, and a value
      that goes on for as long as it can. */
  ghost predicate Assigned(text: Message, start: nat, end: nat) {
    exists word, sign: nat :: AssignedBy(text, word, sign, start, end)
  }

  ghost predicate AssignedBy(text: Message, word: string, sign: nat, start: nat, end: nat) {
    && word in KEYWORDS && Begins(text, word)
    && |word| <= sign < start < end <= |text|
    && (forall i | |word| <= i < sign :: Space(text[i])) && (text[sign] == ':' as int || text[sign] == '=' as int)
    && (forall i | sign < i < start :: Space(text[i]))
    && (forall i | start <= i < end :: ValueChar(text[i]))
    && (end < |text| ==> !ValueChar(text[end]))
  }

  lemma SpacesIs(text: Message, n: nat)
    requires n <= |text|
    ensures Spaces(text) == n <==> (forall i | 0 <= i < n :: Space(text[i])) && (n < |text| ==> !Space(text[n]))
  {
    SpacesRun(text);
  }

  lemma {:induction false} SpacesRun(text: Message)
    ensures var n := Spaces(text); (forall i | 0 <= i < n :: Space(text[i])) && (n < |text| ==> !Space(text[n]))
  {
    hide Space;
    if text != [] && Space(text[0]) {
      SpacesRun(text[1..]);
      forall i | 0 <= i < Spaces(text) ensures Space(text[i]) { if i > 0 { assert text[i] == text[1..][i - 1]; } }
    }
  }

  lemma {:induction false} ValueRun(text: Message)
    ensures var n := ValueLength(text);
            (forall i | 0 <= i < n :: ValueChar(text[i])) && (n < |text| ==> !ValueChar(text[n]))
  {
    hide Space;
    if text != [] && ValueChar(text[0]) {
      ValueRun(text[1..]);
      forall i | 0 <= i < ValueLength(text) ensures ValueChar(text[i]) { if i > 0 { assert text[i] == text[1..][i - 1]; } }
    }
  }

  lemma {:induction false} KeywordFound(text: Message, words: seq<string>)
    requires "" !in words
    ensures KeywordOf(text, words) > 0 ==> exists w | w in words :: Begins(text, w) && |w| == KeywordOf(text, words)
    ensures (exists w | w in words :: Begins(text, w)) ==> KeywordOf(text, words) > 0
  {
    hide Begins;
    if words != [] {
      assert words[0] in words;
      KeywordFound(text, words[1..]);
      assert words == [words[0]] + words[1..];
      if KeywordOf(text, words) > 0 && !Begins(text, words[0]) {
        var w :| w in words[1..] && Begins(text, w) && |w| == KeywordOf(text, words[1..]);
        assert w in words && |w| == KeywordOf(text, words);
      }
    }
  }

  /** No keyword is the beginning of another. */
  lemma NoneExtends(v: string, w: string)
    requires v in KEYWORDS && w in KEYWORDS && |v| <= |w| && forall i | 0 <= i < |v| :: v[i] == w[i]
    ensures v == w
  {
    KeywordShape(v);
    KeywordShape(w);
  }

  /** The first letter, the second and one more tell the keywords apart. */
  lemma KeywordShape(w: string)
    requires w in KEYWORDS
    ensures |w| > 5 || w == "token"
    ensures match w[0]
            case 's' => w == "secret"
            case 't' => w == "token"
            case 'a' =>
              && w[1] == 'c' && |w| > 8
              && (if w[6] == 'k' then w == "accesskey" else if w[6] == '_' then w == "access_key"
                  else w[6] == '-' && w == "access-key")
            case _ =>
              && w[0] == 'p'
              && if w[1] == 'a' then
                   if w[5] == 'o' then w == "password" else w[5] == 'd' && w == "passwd"
                 else
                   && w[1] == 'r' && |w| > 9
                   && (if w[7] == 'k' then w == "privatekey" else if w[7] == '_' then w == "private_key"
                       else w[7] == '-' && w == "private-key")
  {
  }

  lemma OneKeyword(text: Message, v: string, w: string)
    requires v in KEYWORDS && w in KEYWORDS && Begins(text, v) && Begins(text, w)
    ensures v == w
  {
    hide Fold;
    forall i | 0 <= i < |v| && i < |w| ensures v[i] == w[i] {
      assert Fold(text[i]) == v[i] as int && Fold(text[i]) == w[i] as int;
    }
    if |v| <= |w| { NoneExtends(v, w); } else { NoneExtends(w, v); }
  }

  /** The step-by-step reader finds exactly the assignments of the pattern. */
  lemma SecretIs(text: Message, start: nat, end: nat)
    ensures Secret(text) == Some((start, end)) <==> Assigned(text, start, end)
  {
    hide KeywordOf, Begins, Space;
    KeywordFound(text, KEYWORDS);
    if Secret(text) == Some((start, end)) {
      var k := KeywordOf(text, KEYWORDS);
      var word :| word in KEYWORDS && Begins(text, word) && |word| == k;
      ReadSecret(text, k, word, start, end);
    }
    if Assigned(text, start, end) {
      var word, sign: nat :| AssignedBy(text, word, sign, start, end);
      assert KeywordOf(text, KEYWORDS) > 0;
      var v :| v in KEYWORDS && Begins(text, v) && |v| == KeywordOf(text, KEYWORDS);
      OneKeyword(text, v, word);
      AssignedRead(text, word, sign, start, end);
    }
  }

  lemma ReadSecret(text: Message, k: nat, word: string, start: nat, end: nat)
    requires Secret(text) == Some((start, end)) && k == KeywordOf(text, KEYWORDS)
    requires word in KEYWORDS && Begins(text, word) && |word| == k
    ensures Assigned(text, start, end)
  {
    hide KeywordOf, Begins, Space, Spaces, ValueLength, KEYWORDS;
    var sign := k + Spaces(text[k..]);
    SpacesRun(text[k..]);
    SpacesRun(text[sign + 1..]);
    ValueRun(text[start..]);
    forall i | k <= i < sign ensures Space(text[i]) { assert text[i] == text[k..][i - k]; }
    forall i | sign < i < start ensures Space(text[i]) { assert text[i] == text[sign + 1..][i - sign - 1]; }
    forall i | start <= i < end ensures ValueChar(text[i]) { assert text[i] == text[start..][i - start]; }
    assert AssignedBy(text, word, sign, start, end);
  }

  lemma AssignedRead(text: Message, word: string, sign: nat, start: nat, end: nat)
    requires AssignedBy(text, word, sign, start, end) && KeywordOf(text, KEYWORDS) == |word| > 0
    ensures Secret(text) == Some((start, end))
  {
    hide KeywordOf, Begins, Space, Spaces, ValueLength, KEYWORDS;
    var k := |word|;
    SignsAreNoBlanks();
    KeywordLong(text);
    SpacesRun(text[k..]);
    RunEnds(text, k, sign);
    SpacesRun(text[sign + 1..]);
    RunEnds(text, sign + 1, start);
    ValueRun(text[start..]);
    ValueEnds(text, start, end);
  }

  lemma SignsAreNoBlanks()
    ensures !Space(':' as int) && !Space('=' as int)
  {
  }

  lemma RunEnds(text: Message, from: nat, to: nat)
    requires from <= to < |text| && (forall i | from <= i < to :: Space(text[i])) && !Space(text[to])
    ensures Spaces(text[from..]) == to - from
  {
    hide Space;
    SpacesRun(text[from..]);
    var n := Spaces(text[from..]);
    assert forall i | 0 <= i < |text| - from :: text[from..][i] == text[from + i];
  }

  lemma ValueEnds(text: Message, from: nat, to: nat)
    requires from <= to <= |text| && (forall i | from <= i < to :: ValueChar(text[i]))
    requires to < |text| ==> !ValueChar(text[to])
    ensures ValueLength(text[from..]) == to - from
  {
    hide ValueChar;
    ValueRun(text[from..]);
    var n := ValueLength(text[from..]);
    assert forall i | 0 <= i < |text| - from :: text[from..][i] == text[from + i];
  }

  // ---------- where no keyword can start

  /** How a keyword starts. */
  predicate Starts(a: Code, b: Code) {
    || (a == 'p' as int && (b == 'a' as int || b == 'r' as int))
    || (a == 's' as int && b == 'e' as int)
    || (a == 't' as int && b == 'o' as int)
    || (a == 'a' as int && b == 'c' as int)
  }

  lemma StartOf(w: string)
    requires w in KEYWORDS
    ensures |w| >= 3 && Starts(w[0] as int, w[1] as int) && (w[0] == 'a' ==> w[2] == 'c')
  {
  }

  lemma SomeKeyword(text: Message) returns (w: string)
    requires KeywordOf(text, KEYWORDS) > 0
    ensures w in KEYWORDS && Begins(text, w)
  {
    hide KeywordOf, Begins;
    KeywordFound(text, KEYWORDS);
    w :| w in KEYWORDS && Begins(text, w);
  }

  lemma KeywordStarts(text: Message)
    requires KeywordOf(text, KEYWORDS) > 0
    ensures |text| >= 3 && Starts(Fold(text[0]), Fold(text[1])) && (Fold(text[0]) == 'a' as int ==> Fold(text[2]) == 'c' as int)
  {
    hide KeywordOf, Fold, Starts, KEYWORDS;
    var w := SomeKeyword(text);
    StartOf(w);
    assert Fold(text[0]) == w[0] as int && Fold(text[1]) == w[1] as int && Fold(text[2]) == w[2] as int;
  }

  /** Inside a keyword no other one starts. */
  lemma InsideKeyword(w: string, i: nat)
    requires w in KEYWORDS && 0 < i < |w| - 1
    ensures !Starts(w[i] as int, w[i + 1] as int)
  {
  }

  lemma NoLetter(c: Code)
    requires Space(c) || c == ':' as int || c == '=' as int || c == '<' as int || c == '>' as int
    ensures forall a: Code :: !Starts(Fold(c), a)
    ensures forall a: Code :: !Starts(a, Fold(c))
  {
  }

  lemma NothingInside(text: Message, start: nat, end: nat, i: nat)
    requires Assigned(text, start, end) && 0 < i < start
    ensures KeywordOf(text[i..], KEYWORDS) == 0
  {
    hide Space, KeywordOf, Starts, Fold, KEYWORDS;
    var word, sign: nat :| AssignedBy(text, word, sign, start, end);
    if KeywordOf(text[i..], KEYWORDS) > 0 {
      KeywordStarts(text[i..]);
      assert Starts(Fold(text[i]), Fold(text[i + 1]));
      if i >= |word| {
        NoLetter(text[i]);
      } else if i == |word| - 1 {
        NoLetter(text[i + 1]);
      } else {
        InsideKeyword(word, i);
      }
    }
  }

  // ---------- what redaction replaces

  /** A word boundary before a word character. */
  predicate Boundary(letter: Code -> bool, text: Message, i: nat)
    requires i <= |text|
  {
    i == 0 || !WordChar(letter, text[i - 1])
  }

  /** A keyword at a word boundary that is given a value. */
  ghost predicate SecretAt(letter: Code -> bool, text: Message, s: Span) {
    && s.at <= |text| && Boundary(letter, text, s.at) && s.at <= s.start <= s.end
    && Assigned(text[s.at..], s.start - s.at, s.end - s.at)
  }

  ghost function Secrets(letter: Code -> bool, text: Message): Span -> bool {
    s => SecretAt(letter, text, s)
  }

  lemma {:induction false} RedactFrom(letter: Code -> bool, text: Message, from: nat) returns (spans: seq<Span>)
    requires from <= |text|
    ensures Leftmost(text, from, spans, Secrets(letter, text))
    ensures Redact(letter, text[from..], !Boundary(letter, text, from)) == Masked(text, from, spans, MARK)
    decreases |text| - from
  {
    hide *;
    var prior := !Boundary(letter, text, from);
    if from == |text| {
      spans := [];
      NoneAtEnd(letter, text);
      NoSpans(text, from, MARK);
      RedactNone(letter, prior);
    } else if Boundary(letter, text, from) && Secret(text[from..]).Some? {
      var (start, end) := Secret(text[from..]).value;
      SecretIs(text[from..], start, end);
      RedactTaken(letter, text, from, start, end);
      var s := Span(from, from + start, from + end);
      var more := RedactFrom(letter, text, s.end);
      LeftmostOrdered(text, s.end, more, Secrets(letter, text));
      MaskOne(text, from, s, more, MARK);
      SecretHere(letter, text, s);
      TakenLeftmost(letter, text, s, more);
      spans := [s] + more;
    } else {
      RedactKept(letter, text, from);
      spans := RedactFrom(letter, text, from + 1);
      LeftmostOrdered(text, from + 1, spans, Secrets(letter, text));
      KeepOne(text, from, spans, MARK);
      SkippedLeftmost(letter, text, from, spans);
    }
  }

  lemma LeftmostOrdered(text: Message, from: nat, spans: seq<Span>, matches: Span -> bool)
    requires Leftmost(text, from, spans, matches)
    ensures Ordered(text, from, spans)
  {
  }

  lemma SecretHere(letter: Code -> bool, text: Message, s: Span)
    requires s.at <= |text| && Boundary(letter, text, s.at) && s.at <= s.start <= s.end
    requires Assigned(text[s.at..], s.start - s.at, s.end - s.at)
    ensures SecretAt(letter, text, s)
  {
  }

  lemma RedactNone(letter: Code -> bool, prior: bool)
    ensures forall text: Message :: text == [] ==> Redact(letter, text, prior) == []
  {
  }

  lemma RedactTaken(letter: Code -> bool, text: Message, from: nat, start: nat, end: nat)
    requires from < |text| && Secret(text[from..]) == Some((start, end))
    ensures start < end <= |text| - from
    ensures Redact(letter, text[from..], false) ==
              text[from..from + start] + MARK + Redact(letter, text[from + end..], !Boundary(letter, text, from + end))
  {
    hide Secret, MARK;
    var rest := text[from..];
    assert rest[end..] == text[from + end..] && rest[end - 1] == text[from + end - 1] && rest[..start] == text[from..from + start];
  }

  lemma RedactKept(letter: Code -> bool, text: Message, from: nat)
    requires from < |text| && (Boundary(letter, text, from) ==> Secret(text[from..]) == None)
    ensures Redact(letter, text[from..], !Boundary(letter, text, from)) ==
              [text[from]] + Redact(letter, text[from + 1..], !Boundary(letter, text, from + 1))
  {
    hide Secret, MARK;
    assert text[from..][1..] == text[from + 1..];
  }

  lemma NoSpans(text: Message, from: nat, mark: Message)
    requires from <= |text|
    ensures Masked(text, from, [], mark) == text[from..]
  {
  }

  lemma NoneAtEnd(letter: Code -> bool, text: Message)
    ensures Leftmost(text, |text|, [], Secrets(letter, text))
  {
    hide Begins, KEYWORDS;
  }

  lemma NoneInside(letter: Code -> bool, text: Message, s: Span, m: Span)
    requires SecretAt(letter, text, s) && s.at < m.at < s.start
    ensures !SecretAt(letter, text, m)
  {
    hide Boundary, Assigned;
    if SecretAt(letter, text, m) {
      NothingInside(text[s.at..], s.start - s.at, s.end - s.at, m.at - s.at);
      assert text[s.at..][m.at - s.at..] == text[m.at..];
      AssignedKeyword(text[m.at..], m.start - m.at, m.end - m.at);
    }
  }

  lemma TakenLeftmost(letter: Code -> bool, text: Message, s: Span, more: seq<Span>)
    requires SecretAt(letter, text, s) && s.start < s.end <= |text|
    requires Leftmost(text, s.end, more, Secrets(letter, text)) && Ordered(text, s.at, [s] + more)
    ensures Leftmost(text, s.at, [s] + more, Secrets(letter, text))
  {
    hide Ordered, SecretAt;
    var all := [s] + more;
    assert s in all;
    forall m: Span | s.at <= m.at && SecretAt(letter, text, m)
      ensures exists t | t in all :: m.at == t.at || t.start <= m.at < t.end
    {
      if s.at < m.at < s.start { NoneInside(letter, text, s, m); }
      if m.at >= s.end {
        assert Secrets(letter, text)(m);
        var t: Span :| t in more && (m.at == t.at || t.start <= m.at < t.end);
        assert t in all;
      }
    }
  }

  lemma AssignedKeyword(text: Message, start: nat, end: nat)
    requires Assigned(text, start, end)
    ensures KeywordOf(text, KEYWORDS) > 0
  {
    hide KeywordOf, Begins;
    KeywordFound(text, KEYWORDS);
  }

  lemma SkippedLeftmost(letter: Code -> bool, text: Message, from: nat, spans: seq<Span>)
    requires from < |text| && (Boundary(letter, text, from) ==> Secret(text[from..]) == None)
    requires Leftmost(text, from + 1, spans, Secrets(letter, text)) && Ordered(text, from, spans)
    ensures Leftmost(text, from, spans, Secrets(letter, text))
  {
    hide Ordered, Boundary, Assigned, Secret;
    forall m: Span | from <= m.at && SecretAt(letter, text, m)
      ensures exists t | t in spans :: m.at == t.at || t.start <= m.at < t.end
    {
      if m.at == from { SecretIs(text[from..], m.start - m.at, m.end - m.at); }
    }
  }

  /** Redaction replaces the values of the leftmost assignments and keeps the
      rest in order. */
  lemma RedactMasks(letter: Code -> bool, text: Message)
    ensures exists spans ::
              Leftmost(text, 0, spans, Secrets(letter, text)) && Redact(letter, text, false) == Masked(text, 0, spans, MARK)
  {
    hide Masked, Redact, Leftmost;
    var spans := RedactFrom(letter, text, 0);
    assert text[0..] == text;
  }

  /** The leftmost matches are the only ones, when a match's start decides it. */
  lemma {:induction false} LeftmostUnique(
    text: Message, from: nat, a: seq<Span>, b: seq<Span>, matches: Span -> bool)
    requires Leftmost(text, from, a, matches) && Leftmost(text, from, b, matches)
    requires forall s, t | matches(s) && matches(t) && s.at == t.at :: s == t
    ensures a == b
    decreases |a|
  {
    hide *;
    if a != [] && b != [] {
      SomeFirst(text, from, a, matches);
      SomeFirst(text, from, b, matches);
      FirstOf(text, from, a, b[0], matches);
      FirstOf(text, from, b, a[0], matches);
      RestLeftmost(text, from, a, matches);
      RestLeftmost(text, from, b, matches);
      LeftmostUnique(text, a[0].end, a[1..], b[1..], matches);
      assert a == [a[0]] + a[1..] && b == [b[0]] + b[1..];
    } else if a != [] {
      SomeFirst(text, from, a, matches);
      NoFirst(text, from, matches, a[0]);
    } else if b != [] {
      SomeFirst(text, from, b, matches);
      NoFirst(text, from, matches, b[0]);
    }
  }

  lemma SomeFirst(text: Message, from: nat, spans: seq<Span>, matches: Span -> bool)
    requires Leftmost(text, from, spans, matches) && spans != []
    ensures matches(spans[0]) && from <= spans[0].at
  {
    assert spans[0] in spans;
  }

  lemma NoFirst(text: Message, from: nat, matches: Span -> bool, m: Span)
    requires Leftmost(text, from, [], matches) && from <= m.at
    ensures !matches(m)
  {
  }

  lemma OrderedTail(text: Message, from: nat, spans: seq<Span>)
    requires Ordered(text, from, spans) && spans != []
    ensures Ordered(text, spans[0].end, spans[1..])
    ensures spans[0].at <= spans[0].start < spans[0].end
    ensures forall s | s in spans[1..] :: spans[0].end <= s.at <= s.start < s.end
  {
    OrderedFrom(text, spans[0].end, spans[1..]);
  }

  lemma FirstOf(text: Message, from: nat, spans: seq<Span>, m: Span, matches: Span -> bool)
    requires Leftmost(text, from, spans, matches) && matches(m) && from <= m.at && spans != []
    ensures spans[0].at <= m.at
  {
    hide Ordered;
    OrderedTail(text, from, spans);
    var s :| s in spans && (m.at == s.at || s.start <= m.at < s.end);
    assert s == spans[0] || s in spans[1..];
  }

  lemma RestLeftmost(text: Message, from: nat, spans: seq<Span>, matches: Span -> bool)
    requires Leftmost(text, from, spans, matches) && spans != []
    ensures Leftmost(text, spans[0].end, spans[1..], matches)
  {
    hide Ordered;
    var rest := spans[1..];
    OrderedTail(text, from, spans);
    OrderedFromFirst(text, from, spans);
    forall m: Span | spans[0].end <= m.at && matches(m)
      ensures exists s | s in rest :: m.at == s.at || s.start <= m.at < s.end
    {
      var s :| s in spans && (m.at == s.at || s.start <= m.at < s.end);
      assert s == spans[0] || s in rest;
    }
  }

  lemma OrderedFromFirst(text: Message, from: nat, spans: seq<Span>)
    requires Ordered(text, from, spans) && spans != []
    ensures from <= spans[0].at
  {
  }

  // ---------- what is left after redaction

  lemma OneReading(text: Message, start: nat, end: nat, start': nat, end': nat)
    requires Assigned(text, start, end) && Assigned(text, start', end')
    ensures start == start' && end == end'
  {
    hide Secret, Assigned;
    SecretIs(text, start, end);
    SecretIs(text, start', end');
  }

  lemma MarkIs()
    ensures MARK == ['<' as int, 'r' as int, 'e' as int, 'd' as int, 'a' as int, 'c' as int, 't' as int, 'e' as int,
                     'd' as int, '>' as int]
  {
  }

  /** The first character is always kept. */
  lemma HeadKept(letter: Code -> bool, text: Message, prior: bool)
    requires text != []
    ensures Redact(letter, text, prior) != [] && Redact(letter, text, prior)[0] == text[0]
  {
    hide Secret, MARK;
    assert Secret(text).Some? ==> text[..Secret(text).value.0][0] == text[0];
  }

  /** Up to the first mark the text is unchanged; that mark stands for a value,
      after a sign or a blank. */
  lemma {:induction false} SharedPart(letter: Code -> bool, text: Message, prior: bool) returns (q: nat)
    ensures var out := Redact(letter, text, prior);
            && q <= |text| && q <= |out| && out[..q] == text[..q]
            && if q == |text| then q == |out|
               else
                 && q < |out| && out[q] == '<' as int && ValueChar(text[q])
                 && q > 0 && (Space(text[q - 1]) || Assigns(text[q - 1]))
  {
    hide Secret, WordChar, Space, ValueChar, MARK;
    if text == [] {
      q := 0;
    } else if !prior && Secret(text).Some? {
      var (start, end) := Secret(text).value;
      SecretIs(text, start, end);
      q := start;
      BeforeValue(text, start, end);
      MarkIs();
    } else {
      var rest := SharedPart(letter, text[1..], WordChar(letter, text[0]));
      q := 1 + rest;
      assert text[..q] == [text[0]] + text[1..][..rest];
    }
  }

  lemma BeforeValue(text: Message, start: nat, end: nat)
    requires Assigned(text, start, end)
    ensures 0 < start < end <= |text| && ValueChar(text[start]) && (Space(text[start - 1]) || Assigns(text[start - 1]))
    ensures end < |text| ==> !ValueChar(text[end])
  {
    hide Begins, Space, KEYWORDS, ValueChar;
  }

  /** An assignment that shows in the redacted text is one of the text. */
  lemma SharedSecret(out: Message, text: Message, q: nat, start: nat, end: nat)
    requires Assigned(out, start, end) && q <= |text| && q <= |out| && out[..q] == text[..q]
    requires if q == |text| then q == |out| else q < |out| && out[q] == '<' as int && ValueChar(text[q])
    ensures Secret(text).Some?
  {
    hide Space, Secret, KEYWORDS, Begins, ValueChar;
    var word, sign: nat :| AssignedBy(out, word, sign, start, end);
    AngleIsNone(out, word, q);
    assert q >= start;
    assert forall i | 0 <= i < q :: out[..q][i] == out[i] && text[..q][i] == text[i];
    BeginsShared(out, text, q, word);
    ValueRun(text[start..]);
    var more := ValueLength(text[start..]);
    assert text[start..][0] == text[start];
    assert ValueChar(text[start]);
    forall i | start <= i < start + more ensures ValueChar(text[i]) { assert text[i] == text[start..][i - start]; }
    assert start + more < |text| ==> text[start + more] == text[start..][more];
    assert AssignedBy(text, word, sign, start, start + more);
    SecretIs(text, start, start + more);
  }

  lemma AngleIsNone(out: Message, word: string, q: nat)
    requires word in KEYWORDS && Begins(out, word) && q <= |out| && (q < |out| ==> out[q] == '<' as int)
    ensures q >= |word| && !Space('<' as int) && !Assigns('<' as int)
  {
    LettersOnly(word);
    hide KEYWORDS;
    forall k | 0 <= k < |word| ensures out[k] != '<' as int { assert Fold(out[k]) == word[k] as int; }
  }

  lemma LettersOnly(word: string)
    requires word in KEYWORDS
    ensures forall i | 0 <= i < |word| :: word[i] != '<'
  {
  }

  lemma BeginsShared(out: Message, text: Message, q: nat, word: string)
    requires |word| <= q <= |out| && q <= |text| && out[..q] == text[..q]
    ensures Begins(out, word) == Begins(text, word)
  {
    hide Fold;
    assert forall i | 0 <= i < q :: out[..q][i] == out[i] && text[..q][i] == text[i];
  }

  /** What stands before a place in a text that follows other text. */
  predicate Fresh(letter: Code -> bool, text: Message, prior: bool, i: nat)
    requires i <= |text|
  {
    if i == 0 then !prior else !WordChar(letter, text[i - 1])
  }

  lemma {:induction false} NoneLeft(letter: Code -> bool, text: Message, prior: bool, i: nat, start: nat, end: nat)
    requires var out := Redact(letter, text, prior);
             i <= |out| && Fresh(letter, out, prior, i) && Assigned(out[i..], start, end)
    ensures start <= end <= |Redact(letter, text, prior)| - i
    ensures Redact(letter, text, prior)[i..][start..end] == MARK
    decreases |text|
  {
    hide *;
    var out := Redact(letter, text, prior);
    BeforeValue(out[i..], start, end);
    if text == [] {
      RedactNone(letter, prior);
      assert false;
    } else if !prior && Secret(text).Some? {
      var (s, e) := Secret(text).value;
      SecretIs(text, s, e);
      BeforeValue(text, s, e);
      var rest := TakeStep(letter, text, s, e);
      TakenLeft(letter, text, s, e, rest, i, start, end);
      if i > s + 10 {
        FreshAfter(letter, out, prior, i, rest, WordChar(letter, text[e - 1]), s + 10);
        NoneLeft(letter, text[e..], WordChar(letter, text[e - 1]), i - s - 10, start, end);
      }
    } else if i == 0 {
      var q := SharedPart(letter, text, prior);
      assert out[0..] == out;
      FreshStart(letter, out, prior);
      SharedSecret(out, text, q, start, end);
    } else {
      var rest := KeepStep(letter, text, prior);
      FreshNext(letter, out, prior, i, rest);
      NoneLeft(letter, text[1..], WordChar(letter, text[0]), i - 1, start, end);
    }
  }

  lemma TakeStep(letter: Code -> bool, text: Message, s: nat, e: nat) returns (rest: Message)
    requires text != [] && Secret(text) == Some((s, e))
    ensures s < e <= |text| && rest == Redact(letter, text[e..], WordChar(letter, text[e - 1]))
    ensures Redact(letter, text, false) == text[..s] + MARK + rest && |MARK| == 10
  {
    hide Secret, WordChar;
    rest := Redact(letter, text[e..], WordChar(letter, text[e - 1]));
  }

  lemma KeepStep(letter: Code -> bool, text: Message, prior: bool) returns (rest: Message)
    requires text != [] && (prior || Secret(text) == None)
    ensures rest == Redact(letter, text[1..], WordChar(letter, text[0]))
    ensures Redact(letter, text, prior) == [text[0]] + rest
  {
    hide Secret, WordChar;
    rest := Redact(letter, text[1..], WordChar(letter, text[0]));
  }

  lemma FreshAfter(letter: Code -> bool, out: Message, prior: bool, i: nat, rest: Message, prior': bool, n: nat)
    requires n < i <= |out| && out[n..] == rest && Fresh(letter, out, prior, i)
    ensures Fresh(letter, rest, prior', i - n) && out[i..] == rest[i - n..]
  {
    hide WordChar;
    assert out[n..][i - n - 1] == out[i - 1];
  }

  lemma FreshStart(letter: Code -> bool, out: Message, prior: bool)
    ensures Fresh(letter, out, prior, 0) ==> !prior
  {
  }

  lemma FreshNext(letter: Code -> bool, out: Message, prior: bool, i: nat, rest: Message)
    requires 0 < i <= |out| && out == [out[0]] + rest && Fresh(letter, out, prior, i)
    ensures Fresh(letter, rest, WordChar(letter, out[0]), i - 1) && out[i..] == rest[i - 1..]
  {
    hide WordChar;
  }

  /** Around the first mark no keyword starts, but for the one it follows. */
  lemma TakenLeft(
    letter: Code -> bool, text: Message, s: nat, e: nat, rest: Message, i: nat, start: nat, end: nat)
    requires Assigned(text, s, e) && s < e <= |text| && i <= s + 10 + |rest|
    requires rest == Redact(letter, text[e..], WordChar(letter, text[e - 1]))
    requires Assigned((text[..s] + MARK + rest)[i..], start, end) && |MARK| == 10
    ensures i == 0 || i > s + 10
    ensures i == 0 ==> start == s && end == s + 10
  {
    hide Redact, Assigned, Fold, Starts, WordChar;
    var out := text[..s] + MARK + rest;
    BeforeValue(text, s, e);
    if rest != [] {
      RedactNone(letter, WordChar(letter, text[e - 1]));
      HeadKept(letter, text[e..], WordChar(letter, text[e - 1]));
    }
    MarkAssigned(text, s, e, rest);
    if i == 0 {
      assert out[0..] == out;
      OneReading(out, start, end, s, s + 10);
    } else if i <= s + 10 {
      AssignedKeyword(out[i..], start, end);
      if i < s {
        NothingInside(out, s, s + 10, i);
      } else {
        KeywordStarts(out[i..]);
        MarkIs();
        InMark(out, s, rest, i);
      }
    }
  }

  lemma MarkAssigned(text: Message, s: nat, e: nat, rest: Message)
    requires Assigned(text, s, e) && s <= |text| && (rest != [] ==> !ValueChar(rest[0]))
    ensures Assigned(text[..s] + MARK + rest, s, s + 10)
  {
    hide Space, KEYWORDS, Begins;
    var word, sign: nat :| AssignedBy(text, word, sign, s, e);
    var out := text[..s] + MARK + rest;
    MarkIs();
    BeginsShared(out, text, s, word);
    MarkValue();
    assert AssignedBy(out, word, sign, s, s + 10);
  }

  lemma MarkValue()
    ensures forall c | c in MARK :: ValueChar(c)
  {
    MarkIs();
  }

  lemma InMark(out: Message, s: nat, rest: Message, i: nat)
    requires |out| >= s + 10 && out[s..s + 10] == MARK && out[s + 10..] == rest && s <= i <= s + 10
    requires rest != [] ==> !ValueChar(rest[0])
    requires |out| >= i + 3
    ensures !Starts(Fold(out[i]), Fold(out[i + 1])) || (Fold(out[i]) == 'a' as int && Fold(out[i + 2]) != 'c' as int)
  {
    if i == s + 10 {
      assert rest[0] == out[s + 10];
      DelimiterIsNoLetter(rest[0]);
    } else {
      MarkIs();
      var k := i - s;
      assert out[i] == out[s..s + 10][k];
      if k < 9 { assert out[i + 1] == out[s..s + 10][k + 1]; }
      if k < 8 { assert out[i + 2] == out[s..s + 10][k + 2]; }
    }
  }

  lemma DelimiterIsNoLetter(c: Code)
    requires !ValueChar(c)
    ensures forall a: Code :: !Starts(Fold(c), a)
  {
  }

  /** In what redaction leaves, every keyword that is given a value is given the
      mark. */
  lemma RedactedClean(letter: Code -> bool, text: Message, i: nat, start: nat, end: nat)
    requires i <= |Redact(letter, text, false)| && Boundary(letter, Redact(letter, text, false), i)
    requires Assigned(Redact(letter, text, false)[i..], start, end)
    ensures start <= end <= |Redact(letter, text, false)| - i
    ensures Redact(letter, text, false)[i..][start..end] == Codes("<redacted>")
  {
    hide Redact, WordChar, Assigned;
    NoneLeft(letter, text, false, i, start, end);
  }

  // ---------- examples

  lemma TakenSample(letter: Code -> bool, text: Message, word: string, sign: nat, s: nat, e: nat)
    requires AssignedBy(text, word, sign, s, e) && Quiet(text[e..])
    ensures Redact(letter, text, false) == text[..s] + MARK + text[e..]
  {
    hide Secret, Redact, WordChar, MARK, KEYWORDS, Quiet;
    SecretIs(text, s, e);
    var rest := TakeStep(letter, text, s, e);
    QuietUnchanged(letter, text[e..], WordChar(letter, text[e - 1]));
  }

  lemma ShortQuiet(text: Message)
    requires |text| <= 4 && forall i | 0 <= i < |text| - 1 :: !Starts(Fold(text[i]), Fold(text[i + 1]))
    ensures Quiet(text)
  {
    hide KeywordOf, Fold, Starts;
    forall i | 0 <= i <= |text| ensures Secret(text[i..]) == None {
      if KeywordOf(text[i..], KEYWORDS) > 0 { KeywordStarts(text[i..]); }
    }
  }

  lemma LiteralTaken(
    letter: Code -> bool, t: string, word: string, sign: nat, s: nat, e: nat, masked: string)
    requires word in KEYWORDS && |word| <= sign < s < e <= |t|
    requires forall i | 0 <= i < |word| :: Fold(t[i] as int) == word[i] as int
    requires (forall i | |word| <= i < sign :: t[i] == ' ') && (t[sign] == ':' || t[sign] == '=')
    requires (forall i | sign < i < s :: t[i] == ' ') && (forall i | s <= i < e :: 'a' <= t[i] <= 'z')
    requires e < |t| ==> t[e] == ' ' || t[e] == ','
    requires |t| - e <= 4 && forall i | e <= i < |t| - 1 :: t[i] == ' ' || t[i] == ':' || t[i] == ','
    requires masked == t[..s] + "<redacted>" + t[e..]
    ensures Redact(letter, Codes(t), false) == Codes(masked)
  {
    hide Redact, Quiet, KEYWORDS, Starts;
    var text := Codes(t);
    assert AssignedBy(text, word, sign, s, e);
    forall i | 0 <= i < |text[e..]| - 1 ensures !Starts(Fold(text[e..][i]), Fold(text[e..][i + 1])) {
      SeparatorStarts(text[e..][i], Fold(text[e..][i + 1]));
    }
    ShortQuiet(text[e..]);
    TakenSample(letter, text, word, sign, s, e);
    assert Codes(masked) == text[..s] + MARK + text[e..];
  }

  lemma SeparatorStarts(c: Code, d: Code)
    requires c == ' ' as int || c == ':' as int || c == ',' as int
    ensures !Starts(Fold(c), d)
  {
  }

  lemma TokenSample(letter: Code -> bool)
    ensures Redact(letter, Codes("token=x"), false) == Codes("token=<redacted>")
  {
    hide Redact, Codes;
    LiteralTaken(letter, "token=x", "token", 5, 6, 7, "token=<redacted>");
  }

  lemma PasswordSample(letter: Code -> bool)
    ensures Redact(letter, Codes("PASSWORD : a,b"), false) == Codes("PASSWORD : <redacted>,b")
  {
    hide Redact, Codes;
    LiteralTaken(letter, "PASSWORD : a,b", "password", 9, 11, 12, "PASSWORD : <redacted>,b");
  }

  lemma NestedSample(letter: Code -> bool)
    ensures Redact(letter, Codes("token=secret : x"), false) == Codes("token=<redacted> : x")
  {
    hide Redact, Codes;
    LiteralTaken(letter, "token=secret : x", "token", 5, 6, 12, "token=<redacted> : x");
  }

  /** A value is hidden up to a comma; a blank may stand around the sign. A
      keyword that is itself a value goes with it, and what it is given stays. */
  lemma RedactSamples(letter: Code -> bool)
    ensures Redact(letter, Codes("token=x"), false) == Codes("token=<redacted>")
    ensures Redact(letter, Codes("PASSWORD : a,b"), false) == Codes("PASSWORD : <redacted>,b")
    ensures Redact(letter, Codes("token=secret : x"), false) == Codes("token=<redacted> : x")
  {
    hide *;
    TokenSample(letter);
    PasswordSample(letter);
    NestedSample(letter);
  }
}
