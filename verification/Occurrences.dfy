/** What `str.count(...) == 1` says about a text, and what it does not. */
module Occurrences {
  import opened Builder

  predicate Occurs(s: string, word: string, i: nat) { i + |word| <= |s| && s[i..i + |word|] == word }

  ghost predicate OccursOnce(s: string, word: string) {
    exists i: nat :: Occurs(s, word, i) && forall j: nat | Occurs(s, word, j) :: j == i
  }

  /** No proper prefix of the word is also a suffix. */
  predicate Borderless(word: string) { forall k | 0 < k < |word| :: word[..k] != word[|word| - k..] }

  lemma OccursAtHead(s: string, word: string)
    ensures Occurs(s, word, 0) <==> word <= s
  {
    if |word| <= |s| { assert s[0..|word|] == s[..|word|]; }
  }

  lemma OccursShift(s: string, word: string, n: nat, i: nat)
    requires n <= |s|
    ensures Occurs(s[n..], word, i) <==> Occurs(s, word, n + i)
  {
    if i + |word| <= |s| - n { assert s[n..][i..i + |word|] == s[n + i..n + i + |word|]; }
  }

  lemma {:induction false} CountZero(s: string, word: string)
    requires word != ""
    ensures Count(s, word) == 0 <==> forall i: nat :: !Occurs(s, word, i)
    decreases |s|
  {
    hide Occurs;
    if |s| < |word| {
      TooShort(s, word);
    } else {
      OccursAtHead(s, word);
      if !(word <= s) {
        CountZero(s[1..], word);
        forall i: nat ensures Occurs(s[1..], word, i) <==> Occurs(s, word, 1 + i) { OccursShift(s, word, 1, i); }
        forall i: nat | Occurs(s, word, i) ensures i > 0 && Occurs(s[1..], word, i - 1) {
          assert i > 0;
          OccursShift(s, word, 1, i - 1);
        }
      }
    }
  }

  lemma TooShort(s: string, word: string)
    requires |s| < |word|
    ensures forall i: nat :: !Occurs(s, word, i)
  {
  }

  lemma CountStep(s: string, word: string)
    requires word != "" && Count(s, word) > 0
    ensures |word| <= |s|
    ensures if word <= s then Count(s, word) == 1 + Count(s[|word|..], word) && IndexOf(s, word) == 0
            else Count(s[1..], word) == Count(s, word) && IndexOf(s, word) == 1 + IndexOf(s[1..], word)
  {
  }

  lemma {:induction false} CountAfterFirst(s: string, word: string)
    requires word != "" && Count(s, word) > 0
    ensures IndexOf(s, word) + |word| <= |s|
    ensures Count(s, word) == 1 + Count(s[IndexOf(s, word) + |word|..], word)
    decreases |s|
  {
    hide *;
    CountStep(s, word);
    if !(word <= s) {
      CountAfterFirst(s[1..], word);
      var i := IndexOf(s[1..], word);
      assert s[1..][i + |word|..] == s[1 + i + |word|..];
    }
  }

  /** Exactly when the count is one: the word occurs, and every occurrence
      starts inside the first. */
  lemma CountIsOne(s: string, word: string)
    requires word != ""
    ensures Count(s, word) == 1 <==>
            Count(s, word) > 0 && forall j: nat | Occurs(s, word, j) ::
              IndexOf(s, word) <= j < IndexOf(s, word) + |word|
  {
    hide Occurs, Count, IndexOf;
    if Count(s, word) > 0 {
      IndexOfFound(s, word);
      CountAfterFirst(s, word);
      var i := IndexOf(s, word);
      var n := i + |word|;
      CountZero(s[n..], word);
      forall j: nat | Occurs(s, word, j) ensures i <= j && (j >= n ==> Occurs(s[n..], word, j - n)) {
        AtOrAfter(s, word, i, j);
        if j >= n { OccursShift(s, word, n, j - n); }
      }
      forall j: nat | Occurs(s[n..], word, j) ensures Occurs(s, word, n + j) { OccursShift(s, word, n, j); }
    }
  }

  lemma AtOrAfter(s: string, word: string, i: nat, j: nat)
    requires Occurs(s, word, j) && forall k | 0 <= k < i && k <= |s| :: !(word <= s[k..])
    ensures i <= j
  {
    assert s[j..][..|word|] == word;
  }

  lemma FirstOccurs(s: string, word: string)
    requires word != "" && Count(s, word) > 0
    ensures Occurs(s, word, IndexOf(s, word))
  {
    hide Count, IndexOf;
    IndexOfFound(s, word);
  }

  lemma OverlapMakesBorder(s: string, word: string, i: nat, j: nat)
    requires Occurs(s, word, i) && Occurs(s, word, j) && i < j < i + |word|
    ensures var k := i + |word| - j; word[..k] == word[|word| - k..]
  {
    var k := i + |word| - j;
    assert word[|word| - k..] == s[j..i + |word|];
    assert word[..k] == s[j..j + k];
  }

  lemma BorderlessApart(s: string, word: string, i: nat, j: nat)
    requires Borderless(word) && Occurs(s, word, i) && Occurs(s, word, j) && i <= j < i + |word|
    ensures i == j
  {
    if i < j { OverlapMakesBorder(s, word, i, j); }
  }

  /** The builder's uniqueness test means a single occurrence in every text
      exactly for the words that do not overlap themselves. */
  lemma CountOneMeansOnceIff(word: string)
    requires word != ""
    ensures (forall s :: Count(s, word) == 1 ==> OccursOnce(s, word)) <==> Borderless(word)
  {
    hide Count, IndexOf, Occurs;
    if Borderless(word) {
      forall s | Count(s, word) == 1 ensures OccursOnce(s, word) {
        CountIsOne(s, word);
        FirstOccurs(s, word);
        var i := IndexOf(s, word);
        forall j: nat | Occurs(s, word, j) ensures j == i { BorderlessApart(s, word, i, j); }
      }
    } else {
      var k :| 0 < k < |word| && word[..k] == word[|word| - k..];
      OverlapCountsOnce(word, k);
    }
  }

  lemma OverlapCountsOnce(word: string, k: nat)
    requires 0 < k < |word| && word[..k] == word[|word| - k..]
    ensures Count(word + word[k..], word) == 1 && !OccursOnce(word + word[k..], word)
  {
    var s := word + word[k..];
    assert s[|word|..] == word[k..];
    assert Count(s[|word|..], word) == 0;
    assert word <= s;
    Overlapped(word, k);
  }

  lemma Overlapped(word: string, k: nat)
    requires 0 < k < |word| && word[..k] == word[|word| - k..]
    ensures Occurs(word + word[k..], word, 0) && Occurs(word + word[k..], word, |word| - k)
  {
    var s, d := word + word[k..], |word| - k;
    assert s[0..|word|] == word;
    assert word == word[..k] + word[k..];
    assert s[d..|word|] == word[d..] && s[|word|..] == word[k..];
    assert s[d..d + |word|] == s[d..|word|] + s[|word|..];
  }

  /** Three equal lines hold the first two twice, yet the count is one. */
  lemma CountMissesOverlap()
    ensures Count("a\na\na\n", "a\na\n") == 1 && !OccursOnce("a\na\na\n", "a\na\n")
  {
    var word := "a\na\n";
    assert word[..2] == word[|word| - 2..];
    assert "a\na\na\n" == word + word[2..];
    OverlapCountsOnce(word, 2);
  }
}
