/** Python strings as UTF-8: encoding, cutting the bytes, decoding with replacement. */
module Unicode {
  import opened Text
  import opened Octets

  /** A code point, as Python strings hold them: surrogates included. */
  type Code = c: int | 0 <= c < 0x110000

  type Message = seq<Code>

  const REPLACEMENT: Code := 0xFFFD

  // ---------- UTF-8

  predicate Surrogate(c: Code) { 0xD800 <= c <= 0xDFFF }

  /** `encode("utf-8", errors="replace")`: a surrogate becomes a question mark. */
  function Utf8(c: Code): (b: Bytes)
    ensures 1 <= |b| <= 4
  {
    if Surrogate(c) then [63]
    else if c < 0x80 then [c as byte]
    else if c < 0x800 then [(0xC0 + c / 64) as byte, Follow(c)]
    else if c < 0x10000 then [(0xE0 + c / 4096) as byte, Follow(c / 64), Follow(c)]
    else [(0xF0 + c / 262144) as byte, Follow(c / 4096), Follow(c / 64), Follow(c)]
  }

  function Follow(n: nat): byte { (0x80 + n % 64) as byte }

  function Encode(m: Message): Bytes { if m == [] then [] else Utf8(m[0]) + Encode(m[1..]) }

  /** How many bytes must follow a lead byte; `None` for a byte that leads nothing. */
  function Needed(lead: byte): Option<nat> {
    if lead < 0x80 then Some(0)
    else if 0xC2 <= lead <= 0xDF then Some(1)
    else if 0xE0 <= lead <= 0xEF then Some(2)
    else if 0xF0 <= lead <= 0xF4 then Some(3)
    else None
  }

  /** The second byte of some sequences has a shorter range. */
  predicate Second(lead: byte, b: byte) {
    (if lead == 0xE0 then 0xA0 else if lead == 0xF0 then 0x90 else 0x80) <= b
    && b <= (if lead == 0xED then 0x9F else if lead == 0xF4 then 0x8F else 0xBF)
  }

  predicate Follows(b: byte) { 0x80 <= b <= 0xBF }

  /** How many well-placed bytes follow the lead byte, up to `needed`. */
  function Placed(b: Bytes, needed: nat): (n: nat)
    requires b != []
    ensures n <= needed && n < |b|
  {
    if needed == 0 || |b| < 2 || !Second(b[0], b[1]) then 0
    else if needed == 1 || |b| < 3 || !Follows(b[2]) then 1
    else if needed == 2 || |b| < 4 || !Follows(b[3]) then 2
    else 3
  }

  function Tail(b: byte): nat { b as int % 64 }

  /** The first character of `decode("utf-8", errors="replace")`, and the bytes
      it takes: an ill-formed or cut sequence is replaced as far as it goes. */
  function Head(b: Bytes): (r: (Code, nat))
    requires b != []
    ensures 1 <= r.1 <= |b|
  {
    var needed := Needed(b[0]);
    if needed.None? then (REPLACEMENT, 1)
    else
      var n := Placed(b, needed.value);
      if n < needed.value then (REPLACEMENT, 1 + n)
      else (Value(b, needed.value), 1 + n)
  }

  function Value(b: Bytes, needed: nat): Code
    requires b != [] && Needed(b[0]) == Some(needed) && Placed(b, needed) == needed
  {
    if needed == 0 then b[0] as int
    else if needed == 1 then (b[0] as int - 0xC0) * 64 + Tail(b[1])
    else if needed == 2 then (b[0] as int - 0xE0) * 4096 + Tail(b[1]) * 64 + Tail(b[2])
    else (b[0] as int - 0xF0) * 262144 + Tail(b[1]) * 4096 + Tail(b[2]) * 64 + Tail(b[3])
  }

  function Decode(b: Bytes): (m: Message)
    ensures |m| <= |b|
  {
    if b == [] then [] else [Head(b).0] + Decode(b[Head(b).1..])
  }

  function CutBytes(b: Bytes, n: nat): Bytes { if |b| <= n then b else b[..n] }

  /** What a character looks like after encoding and decoding. */
  function Seen(c: Code): Code { if Surrogate(c) then 63 else c }

  /** The characters of `m` that start within the first `n` bytes; one that is
      cut there shows as a replacement. */
  function Visible(m: Message, n: nat): Message {
    if m == [] || n == 0 then []
    else if |Utf8(m[0])| <= n then [Seen(m[0])] + Visible(m[1..], n - |Utf8(m[0])|)
    else [REPLACEMENT]
  }

  lemma Digits(c: Code)
    ensures c / 64 * 64 + c % 64 == c
    ensures c / 4096 * 64 + c / 64 % 64 == c / 64
    ensures c / 262144 * 64 + c / 4096 % 64 == c / 4096
  {
  }

  lemma HeadOfOne(c: Code, rest: Bytes)
    requires Surrogate(c) || c < 0x80
    ensures Head(Utf8(c) + rest) == (Seen(c), 1)
  {
  }

  lemma HeadOfTwo(c: Code, rest: Bytes)
    requires 0x80 <= c < 0x800
    ensures Head(Utf8(c) + rest) == (c, 2)
  {
    Digits(c);
    var b := Utf8(c) + rest;
    assert b[0] == Utf8(c)[0] && b[1] == Utf8(c)[1];
  }

  lemma HeadOfThree(c: Code, rest: Bytes)
    requires 0x800 <= c < 0x10000 && !Surrogate(c)
    ensures Head(Utf8(c) + rest) == (c, 3)
  {
    Digits(c);
    var b := Utf8(c) + rest;
    assert b[0] == Utf8(c)[0] && b[1] == Utf8(c)[1] && b[2] == Utf8(c)[2];
  }

  lemma PlacedFour(c: Code)
    requires 0x10000 <= c
    ensures var u := Utf8(c); |u| == 4 && Needed(u[0]) == Some(3) && Second(u[0], u[1]) && Follows(u[2]) && Follows(u[3])
  {
  }

  lemma TailFollow(n: nat)
    ensures Tail(Follow(n)) == n % 64
  {
  }

  lemma ValueFour(c: Code)
    requires 0x10000 <= c
    ensures var u := Utf8(c);
            |u| == 4 && u[0] >= 0xF0 && (u[0] as int - 0xF0) * 262144 + Tail(u[1]) * 4096 + Tail(u[2]) * 64 + Tail(u[3]) == c
  {
    hide Follow, Tail;
    var a, b, d := c / 262144, c / 4096, c / 64;
    TailFollow(b);
    TailFollow(d);
    TailFollow(c);
    Digits(c);
    assert Utf8(c)[0] as int == 0xF0 + a;
  }

  lemma HeadOfFour(c: Code, rest: Bytes)
    requires 0x10000 <= c
    ensures Head(Utf8(c) + rest) == (c, 4)
  {
    hide Utf8, Tail, Second, Follows, Needed;
    PlacedFour(c);
    ValueFour(c);
    var b := Utf8(c) + rest;
    assert b[0] == Utf8(c)[0] && b[1] == Utf8(c)[1] && b[2] == Utf8(c)[2] && b[3] == Utf8(c)[3];
  }

  lemma HeadOfUtf8(c: Code, rest: Bytes)
    ensures Head(Utf8(c) + rest) == (Seen(c), |Utf8(c)|)
  {
    hide Head;
    if Surrogate(c) || c < 0x80 {
      HeadOfOne(c, rest);
    } else if c < 0x800 {
      HeadOfTwo(c, rest);
    } else if c < 0x10000 {
      HeadOfThree(c, rest);
    } else {
      HeadOfFour(c, rest);
    }
  }

  lemma HeadOfCut(c: Code, n: nat)
    requires 0 < n < |Utf8(c)|
    ensures Head(Utf8(c)[..n]) == (REPLACEMENT, n)
  {
    Digits(c);
  }

  /** Encoding, cutting and decoding shows exactly the visible characters. */
  lemma {:induction false} DecodeCut(m: Message, n: nat)
    ensures Decode(CutBytes(Encode(m), n)) == Visible(m, n)
  {
    hide Head, Utf8;
    if m == [] || n == 0 {
      assert CutBytes(Encode(m), n) == [];
    } else {
      var u, rest := Utf8(m[0]), Encode(m[1..]);
      if |u| <= n {
        CutAfter(u, rest, n);
        var tail := CutBytes(rest, n - |u|);
        HeadOfUtf8(m[0], tail);
        assert (u + tail)[|u|..] == tail;
        DecodeCut(m[1..], n - |u|);
      } else {
        assert CutBytes(u + rest, n) == u[..n];
        HeadOfCut(m[0], n);
        assert u[..n][n..] == [];
      }
    }
  }

  lemma CutAfter(u: Bytes, rest: Bytes, n: nat)
    requires |u| <= n
    ensures CutBytes(u + rest, n) == u + CutBytes(rest, n - |u|)
  {
    if |u + rest| > n { assert (u + rest)[..n] == u + rest[..n - |u|]; }
  }

  /** At most `k` characters show exactly when there are no more, or the first
      `k` fill the bytes. */
  lemma {:induction false} VisibleAtMost(m: Message, n: nat, k: nat)
    ensures |Visible(m, n)| <= k <==> |m| <= k || |Encode(m[..k])| >= n
  {
    hide Utf8;
    if m != [] && n > 0 && k > 0 {
      var u := |Utf8(m[0])|;
      if k < |m| { assert m[..k] == [m[0]] + m[1..][..k - 1]; }
      if u <= n { VisibleAtMost(m[1..], n - u, k - 1); }
    }
  }

  lemma Distribute(a: nat, n: nat)
    ensures a * (n + 1) == a * n + a
  {
  }

  /** Every character takes between `low` and `high` bytes. */
  lemma {:induction false} EncodeLength(m: Message, low: nat, high: nat)
    requires forall c :: c in m ==> low <= |Utf8(c)| <= high
    ensures low * |m| <= |Encode(m)| <= high * |m|
  {
    hide Utf8;
    if m == [] {
    } else {
      EncodeLength(m[1..], low, high);
      Distribute(low, |m[1..]|);
      Distribute(high, |m[1..]|);
      assert m[0] in m;
    }
  }

  /** Characters of the text show as themselves, or as `?`, or as the mark of a cut. */
  lemma {:induction false} VisibleFrom(m: Message, n: nat)
    ensures forall c :: c in Visible(m, n) ==> c == REPLACEMENT || c == 63 || c in m
    ensures Visible(m, n) == [] <==> m == [] || n == 0
    ensures |Visible(m, n)| <= n && |Visible(m, n)| <= |m|
  {
    if m == [] || n == 0 {
    } else if |Utf8(m[0])| <= n {
      VisibleFrom(m[1..], n - |Utf8(m[0])|);
    }
  }

  lemma {:induction false} VisibleAt(m: Message, n: nat, i: nat)
    requires i < |Visible(m, n)|
    ensures |Visible(m, n)| <= |m|
    ensures Visible(m, n)[i] == m[i] || Visible(m, n)[i] == REPLACEMENT || Visible(m, n)[i] == 63
  {
    hide Utf8;
    if i == 0 || |Utf8(m[0])| > n {
      VisibleFrom(m, n);
    } else {
      VisibleAt(m[1..], n - |Utf8(m[0])|, i - 1);
    }
  }

  function Repeat(c: Code, k: nat): (m: Message)
    ensures |m| == k
  {
    seq(k, _ => c)
  }

  lemma {:induction false} VisibleRepeat(c: Code, k: nat, n: nat)
    requires c < 0x80 && k <= n
    ensures Visible(Repeat(c, k), n) == Repeat(c, k)
  {
    if k > 0 {
      assert Repeat(c, k)[1..] == Repeat(c, k - 1);
      VisibleRepeat(c, k - 1, n - 1);
    }
  }

  lemma AsciiLength(m: Message)
    requires forall c :: c in m ==> c < 0x80
    ensures |Encode(m)| == |m|
  {
    hide Encode;
    EncodeLength(m, 1, 1);
  }

  lemma TwoByteLength(m: Message)
    requires forall c :: c in m ==> 0x80 <= c < 0x800
    ensures |Encode(m)| == 2 * |m|
  {
    hide Encode;
    EncodeLength(m, 2, 2);
  }
}
