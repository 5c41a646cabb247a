/** What is quoted from a stream or an error: the first 1024 bytes, decoded,
    with assigned secrets and the values of the environment replaced. */
module Redaction {
  import opened Octets
  import opened Text
  import opened Unicode

  const SUMMARY_BYTES := 1024

  /** The characters of a literal; the language's letters beyond ASCII are a
      parameter of what follows. */
  function Codes(s: string): (m: Message)
    ensures |m| == |s|
  {
    seq(|s|, i requires 0 <= i < |s| => s[i] as int)
  }

  const MARK: Message := Codes("<redacted>")
  const ENV_MARK: Message := Codes("<redacted-env>")

  lemma MarkLength()
    ensures |ENV_MARK| == 14 && |MARK| == 10
  {
  }

  // ---------- secrets that are assigned in the text

  const KEYWORDS: seq<string> :=
    ["password", "passwd", "secret", "token", "privatekey", "private_key", "private-key",
     "accesskey", "access_key", "access-key"]

  /** The letter a character stands for when case is ignored. */
  function Fold(c: Code): Code {
    if 65 <= c <= 90 then c + 32
    else if c == 0x130 || c == 0x131 then 105
    else if c == 0x17F then 115
    else if c == 0x212A then 107
    else c
  }

  /** The characters that stand for a small letter: itself, its capital, and for
      three letters some beyond ASCII. */
  lemma FoldIs(c: Code, letter: char)
    requires 'a' <= letter <= 'z'
    ensures Fold(c) == letter as int <==>
              || c == letter as int || c + 32 == letter as int
              || (letter == 'i' && (c == 0x130 || c == 0x131)) || (letter == 's' && c == 0x17F)
              || (letter == 'k' && c == 0x212A)
  {
  }

  predicate Space(c: Code) {
    || 9 <= c <= 13 || 0x1C <= c <= 0x20 || c == 0x85 || c == 0xA0 || c == 0x1680 || 0x2000 <= c <= 0x200A
    || c == 0x2028 || c == 0x2029 || c == 0x202F || c == 0x205F || c == 0x3000
  }

  predicate WordChar(letter: Code -> bool, c: Code) {
    if c < 0x80 then 48 <= c <= 57 || 65 <= c <= 90 || c == 95 || 97 <= c <= 122 else letter(c)
  }

  /** The characters that Python's regular expressions take for blanks. */
  lemma SpaceIs(c: Code)
    ensures Space(c) <==>
              c in [0x09, 0x0A, 0x0B, 0x0C, 0x0D, 0x1C, 0x1D, 0x1E, 0x1F, 0x20, 0x85, 0xA0, 0x1680, 0x2000, 0x2001, 0x2002,
                    0x2003, 0x2004, 0x2005, 0x2006, 0x2007, 0x2008, 0x2009, 0x200A, 0x2028, 0x2029, 0x202F, 0x205F, 0x3000]
  {
  }

  /** ASCII letters, digits and the underscore; beyond ASCII the language decides. */
  lemma WordCharIs(letter: Code -> bool, c: Code)
    ensures c < 0x80 ==>
              var x := c as char;
              WordChar(letter, c) <==> 'a' <= x <= 'z' || 'A' <= x <= 'Z' || '0' <= x <= '9' || x == '_'
    ensures c >= 0x80 ==> WordChar(letter, c) == letter(c)
  {
  }

  predicate Begins(text: Message, word: string) {
    |word| <= |text| && forall i :: 0 <= i < |word| ==> Fold(text[i]) == word[i] as int
  }

  function KeywordOf(text: Message, words: seq<string>): (n: nat)
    ensures n <= |text|
  {
    if words == [] then 0 else if Begins(text, words[0]) then |words[0]| else KeywordOf(text, words[1..])
  }

  function Spaces(text: Message): (n: nat)
    ensures n <= |text|
  {
    if text != [] && Space(text[0]) then 1 + Spaces(text[1..]) else 0
  }

  /** The length of the value: up to a blank, a comma or a semicolon. */
  function ValueLength(text: Message): (n: nat)
    ensures n <= |text|
  {
    if text != [] && !Space(text[0]) && text[0] != 44 && text[0] != 59 then 1 + ValueLength(text[1..]) else 0
  }

  predicate Assigns(c: Code) { c == 58 || c == 61 }

  /** A keyword, an assignment sign and a value at the start of the text: where
      the value starts and where it ends. */
  function Secret(text: Message): (r: Option<(nat, nat)>)
    ensures r.Some? ==> 7 <= r.value.0 + 1 <= r.value.1 <= |text|
  {
    var k := KeywordOf(text, KEYWORDS);
    if k == 0 then None
    else
      KeywordLong(text);
      var sign := k + Spaces(text[k..]);
      if sign == |text| || !Assigns(text[sign]) then None
      else
        var start := sign + 1 + Spaces(text[sign + 1..]);
        var end := start + ValueLength(text[start..]);
        if end == start then None else Some((start, end))
  }

  lemma KeywordLong(text: Message)
    requires KeywordOf(text, KEYWORDS) != 0
    ensures KeywordOf(text, KEYWORDS) >= 5
  {
    AnyLong(text, KEYWORDS);
  }

  lemma {:induction false} AnyLong(text: Message, words: seq<string>)
    requires forall w :: w in words ==> |w| >= 5
    ensures KeywordOf(text, words) == 0 || KeywordOf(text, words) >= 5
  {
    if words != [] {
      assert words[0] in words;
      AnyLong(text, words[1..]);
    }
  }

  /** Every match of the pattern, from the left, keeps its keyword and sign;
      `prior` says that the character before is a word character. */
  function Redact(letter: Code -> bool, text: Message, prior: bool): Message {
    if text == [] then []
    else if !prior && Secret(text).Some? then
      var (start, end) := Secret(text).value;
      text[..start] + MARK + Redact(letter, text[end..], WordChar(letter, text[end - 1]))
    else [text[0]] + Redact(letter, text[1..], WordChar(letter, text[0]))
  }

  /** No keyword of the text is given a value. */
  ghost predicate Quiet(text: Message) { forall i :: 0 <= i <= |text| ==> Secret(text[i..]) == None }

  lemma {:induction false} QuietUnchanged(letter: Code -> bool, text: Message, prior: bool)
    requires Quiet(text)
    ensures Redact(letter, text, prior) == text
  {
    hide Secret, WordChar;
    if text != [] {
      assert text[0..] == text;
      forall i | 0 <= i <= |text[1..]| ensures Secret(text[1..][i..]) == None { assert text[1..][i..] == text[i + 1..]; }
      QuietUnchanged(letter, text[1..], WordChar(letter, text[0]));
    }
  }

  lemma UnassignedQuiet(text: Message)
    requires forall c :: c in text ==> !Assigns(c)
    ensures Quiet(text)
  {
    forall i | 0 <= i <= |text| ensures Secret(text[i..]) == None {
      forall c | c in text[i..] ensures !Assigns(c) { }
    }
  }

  /** Redaction neither empties a text nor more than doubles it: seven
      characters, as in `token:x`, become at most sixteen. */
  lemma {:induction false} RedactLength(letter: Code -> bool, text: Message, prior: bool)
    ensures Redact(letter, text, prior) == [] <==> text == []
    ensures 7 * |Redact(letter, text, prior)| <= 16 * |text|
  {
    hide Secret, WordChar, Codes;
    if text == [] {
    } else if !prior && Secret(text).Some? {
      var (start, end) := Secret(text).value;
      RedactLength(letter, text[end..], WordChar(letter, text[end - 1]));
    } else {
      RedactLength(letter, text[1..], WordChar(letter, text[0]));
    }
  }

  // ---------- values of the environment

  /** `str.replace` for a non-empty word. */
  function ReplaceAll(text: Message, word: Message, mark: Message): Message
    requires word != []
  {
    if text == [] then []
    else if word <= text then mark + ReplaceAll(text[|word|..], word, mark)
    else [text[0]] + ReplaceAll(text[1..], word, mark)
  }

  /** How many occurrences the replacement takes. */
  function Taken(text: Message, word: Message): (n: nat)
    requires word != []
    ensures n * |word| <= |text|
  {
    if text == [] then 0
    else if word <= text then
      AddOne(Taken(text[|word|..], word), |word|);
      1 + Taken(text[|word|..], word)
    else Taken(text[1..], word)
  }

  lemma AddOne(n: int, d: int)
    ensures (n + 1) * d == n * d + d
  {
  }

  lemma {:induction false} ReplaceLength(text: Message, word: Message, mark: Message)
    requires word != []
    ensures |ReplaceAll(text, word, mark)| == |text| + Taken(text, word) * (|mark| - |word|)
  {
    if text == [] {
    } else if word <= text {
      var rest := text[|word|..];
      ReplaceLength(rest, word, mark);
      AddOne(Taken(rest, word), |mark| - |word|);
    } else {
      ReplaceLength(text[1..], word, mark);
    }
  }

  /** Longest first; equal lengths keep their order. */
  function Insert(word: Message, words: seq<Message>): seq<Message> {
    if words == [] || |words[0]| <= |word| then [word] + words else [words[0]] + Insert(word, words[1..])
  }

  function LongestFirst(values: seq<Message>): seq<Message> {
    if values == [] then []
    else if values[0] == [] then LongestFirst(values[1..])
    else Insert(values[0], LongestFirst(values[1..]))
  }

  function HideAll(text: Message, words: seq<Message>): Message
    requires [] !in words
    decreases |words|
  {
    if words == [] then text else HideAll(ReplaceAll(text, words[0], ENV_MARK), words[1..])
  }

  lemma InsertMembers(word: Message, words: seq<Message>)
    ensures multiset(Insert(word, words)) == multiset(words) + multiset{word}
  {
    if words == [] || |words[0]| <= |word| {
    } else {
      assert words == [words[0]] + words[1..];
    }
  }

  lemma {:induction false} LongestFirstMembers(values: seq<Message>)
    ensures [] !in LongestFirst(values)
    ensures forall v :: v in LongestFirst(values) <==> v in values && v != []
  {
    if values != [] {
      LongestFirstMembers(values[1..]);
      assert values == [values[0]] + values[1..];
      if values[0] != [] {
        InsertMembers(values[0], LongestFirst(values[1..]));
        assert forall v :: v in LongestFirst(values) <==> v in multiset(LongestFirst(values));
        assert forall v :: v in LongestFirst(values[1..]) <==> v in multiset(LongestFirst(values[1..]));
      }
    }
  }

  /** `_redacted_summary`. */
  function Summary(letter: Code -> bool, raw: Bytes, values: seq<Message>): Message {
    LongestFirstMembers(values);
    HideAll(Redact(letter, Decode(CutBytes(raw, SUMMARY_BYTES)), false), LongestFirst(values))
  }

  /** How long `n` characters can become when the words are replaced in turn. */
  function Grown(n: nat, words: seq<Message>): (r: nat)
    requires [] !in words
    ensures r >= n
    decreases |words|
  {
    if words == [] then n else Grown(Stretched(n, |words[0]|), words[1..])
  }

  function Stretched(n: nat, length: nat): (r: nat)
    requires length > 0
    ensures r >= n
  {
    if length >= 14 then n
    else
      Positive(n / length, 14 - length);
      n + n / length * (14 - length)
  }

  lemma Positive(a: nat, b: nat)
    ensures a * b >= 0
  {
  }

  lemma QuotientBound(k: nat, length: nat, n: nat)
    requires length > 0 && k * length <= n
    ensures k <= n / length
  {
    AddOne(n / length, length);
    if k > n / length { ProductOrder(n / length + 1, k, length); }
  }

  lemma ProductOrder(a: int, b: int, d: nat)
    requires a <= b
    ensures a * d <= b * d
  {
  }

  lemma ProductSign(k: nat, d: int)
    requires d <= 0
    ensures k * d <= 0
  {
  }

  lemma ReplaceBound(text: Message, word: Message, n: nat)
    requires word != [] && |text| <= n
    ensures |ReplaceAll(text, word, ENV_MARK)| <= Stretched(n, |word|)
  {
    hide ReplaceAll, Taken, Codes;
    MarkLength();
    ReplaceLength(text, word, ENV_MARK);
    var k, d := Taken(text, word), |ENV_MARK| - |word|;
    if d <= 0 {
      ProductSign(k, d);
    } else {
      QuotientBound(k, |word|, n);
      ProductOrder(k, n / |word|, d);
    }
  }

  lemma {:induction false} HideAllBound(text: Message, words: seq<Message>, n: nat)
    requires [] !in words && |text| <= n
    ensures |HideAll(text, words)| <= Grown(n, words)
    decreases |words|
  {
    hide ReplaceAll, Stretched, Codes;
    if words != [] {
      ReplaceBound(text, words[0], n);
      HideAllBound(ReplaceAll(text, words[0], ENV_MARK), words[1..], Stretched(n, |words[0]|));
    }
  }

  /** The longest that 1024 bytes can become, from the lengths of the values alone. */
  lemma SummaryBound(letter: Code -> bool, raw: Bytes, values: seq<Message>)
    ensures [] !in LongestFirst(values)
    ensures |Summary(letter, raw, values)| <= Grown(2340, LongestFirst(values))
  {
    hide Redact, HideAll, Grown, Decode, LongestFirst;
    LongestFirstMembers(values);
    var text := Decode(CutBytes(raw, SUMMARY_BYTES));
    RedactLength(letter, text, false);
    HideAllBound(Redact(letter, text, false), LongestFirst(values), 2340);
  }

  /** How many of the values are shorter than their mark. */
  function Short(words: seq<Message>): nat {
    if words == [] then 0 else (if 0 < |words[0]| < 14 then 1 else 0) + Short(words[1..])
  }

  lemma {:induction false} InsertShort(word: Message, words: seq<Message>)
    requires word != []
    ensures Short(Insert(word, words)) == Short([word]) + Short(words)
  {
    if words == [] || |words[0]| <= |word| {
      assert ([word] + words)[1..] == words;
    } else {
      InsertShort(word, words[1..]);
      assert Insert(word, words)[1..] == Insert(word, words[1..]);
    }
  }

  lemma {:induction false} LongestFirstShort(values: seq<Message>)
    ensures Short(LongestFirst(values)) == Short(values)
  {
    if values != [] {
      LongestFirstShort(values[1..]);
      if values[0] != [] { InsertShort(values[0], LongestFirst(values[1..])); }
    }
  }

  lemma {:induction false} GrownLong(n: nat, words: seq<Message>)
    requires [] !in words && Short(words) == 0
    ensures Grown(n, words) == n
  {
    hide Codes;
    if words != [] {
      MarkLength();
      GrownLong(n, words[1..]);
    }
  }

  lemma {:induction false} GrownOne(words: seq<Message>)
    requires [] !in words && Short(words) <= 1 && forall w :: w in words ==> |w| >= 8
    ensures Grown(2340, words) <= 4092
  {
    hide Codes;
    if words != [] {
      MarkLength();
      var length := |words[0]|;
      assert words[0] in words;
      if length < 14 {
        assert Stretched(2340, length) <= 4092 by { Eight(length); }
        GrownLong(Stretched(2340, length), words[1..]);
      } else {
        GrownOne(words[1..]);
      }
    }
  }

  lemma Eight(length: nat)
    requires 8 <= length < 14
    ensures 2340 / length * (14 - length) <= 1752
  {
    if length == 8 {
    } else if length == 9 {
    } else if length == 10 {
    } else if length == 11 {
    } else if length == 12 {
    }
  }

  /** With at most one value shorter than fourteen characters, and none under
      eight, every summary fits the record. */
  lemma LongValuesFit(letter: Code -> bool, raw: Bytes, values: seq<Message>)
    requires Short(values) <= 1 && forall v :: v in values ==> v == [] || |v| >= 8
    ensures |Summary(letter, raw, values)| <= 4096
  {
    hide Summary, LongestFirst, Grown, Short;
    SummaryBound(letter, raw, values);
    LongestFirstMembers(values);
    LongestFirstShort(values);
    GrownOne(LongestFirst(values));
  }

  // ---------- one value of one character

  lemma {:induction false} TakenRepeat(c: Code, k: nat)
    ensures Taken(Repeat(c, k), [c]) == k
  {
    if k > 0 {
      assert Repeat(c, k)[1..] == Repeat(c, k - 1);
      TakenRepeat(c, k - 1);
    }
  }

  /** 1024 ones under an environment value `1` are quoted as 14336 characters. */
  lemma OnesOverflow(letter: Code -> bool)
    ensures |Summary(letter, Encode(Repeat(49, 1024)), [Codes("1")])| == 14336
  {
    hide Redact, Encode, Visible, Decode, ReplaceAll, Taken, Repeat, Quiet;
    var ones := Repeat(49, 1024);
    DecodeCut(ones, 1024);
    VisibleRepeat(49, 1024, 1024);
    assert forall c :: c in ones ==> !Assigns(c) by { RepeatOnly(49, 1024); }
    UnassignedQuiet(ones);
    QuietUnchanged(letter, ones, false);
    OneWord([49]);
    assert Codes("1") == [49];
    MarkLength();
    ReplaceLength(ones, [49], ENV_MARK);
    TakenRepeat(49, 1024);
  }

  lemma RepeatOnly(c: Code, k: nat)
    ensures forall d :: d in Repeat(c, k) ==> d == c
  {
  }

  lemma OneWord(word: Message)
    requires word != []
    ensures LongestFirst([word]) == [word]
    ensures forall text: Message :: HideAll(text, [word]) == ReplaceAll(text, word, ENV_MARK)
  {
    assert [word][1..] == [];
  }

  // ---------- the summary of a message

  lemma MessageSummary(letter: Code -> bool, m: Message)
    ensures Summary(letter, Encode(m), []) == Redact(letter, Visible(m, SUMMARY_BYTES), false)
  {
    hide Redact, Encode, Visible, Decode;
    DecodeCut(m, SUMMARY_BYTES);
  }

  /** The text holds none of the keywords. */
  ghost predicate KeywordFree(text: Message) { forall i :: 0 <= i <= |text| ==> KeywordOf(text[i..], KEYWORDS) == 0 }

  predicate KeywordLetters(word: string) {
    forall i :: 0 <= i < |word| ==> word[i] == '-' || word[i] == '_' || 'a' <= word[i] <= 'z'
  }

  /** Where a keyword shows, the message has it. */
  lemma BeginsSeen(m: Message, n: nat, i: nat, word: string)
    requires i <= |Visible(m, n)| && Begins(Visible(m, n)[i..], word) && KeywordLetters(word)
    ensures i <= |m| && Begins(m[i..], word)
  {
    hide Visible;
    VisibleFrom(m, n);
    forall j | 0 <= j < |word| ensures Fold(m[i..][j]) == word[j] as int {
      VisibleAt(m, n, i + j);
      assert Fold(Visible(m, n)[i..][j]) == word[j] as int;
      assert Visible(m, n)[i..][j] == Visible(m, n)[i + j];
    }
  }

  lemma {:induction false} KeywordSeen(m: Message, n: nat, i: nat, words: seq<string>)
    requires i <= |Visible(m, n)| && forall w :: w in words ==> KeywordLetters(w) && w != ""
    requires KeywordOf(Visible(m, n)[i..], words) != 0
    ensures i <= |m| && KeywordOf(m[i..], words) != 0
  {
    hide Visible, Begins, KeywordLetters;
    VisibleFrom(m, n);
    assert words[0] in words;
    if Begins(Visible(m, n)[i..], words[0]) {
      BeginsSeen(m, n, i, words[0]);
    } else {
      KeywordSeen(m, n, i, words[1..]);
    }
  }

  lemma KeywordFreeQuiet(m: Message, n: nat)
    requires KeywordFree(m)
    ensures Quiet(Visible(m, n))
  {
    hide Visible, KeywordOf;
    VisibleFrom(m, n);
    forall i | 0 <= i <= |Visible(m, n)| ensures Secret(Visible(m, n)[i..]) == None {
      if KeywordOf(Visible(m, n)[i..], KEYWORDS) != 0 { KeywordSeen(m, n, i, KEYWORDS); }
    }
  }

  lemma UnassignedMessage(m: Message, n: nat)
    requires forall c :: c in m ==> !Assigns(c)
    ensures Quiet(Visible(m, n))
  {
    hide Visible, Quiet;
    VisibleFrom(m, n);
    UnassignedQuiet(Visible(m, n));
  }
}
