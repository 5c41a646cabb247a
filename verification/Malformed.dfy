/** Decoding any bytes at all: what is a character, and what is replaced. */
module Malformed {
  import opened Text
  import opened Octets
  import opened Unicode

  /** The bytes of a character that can be encoded, or the start of them. */
  ghost predicate Begun(p: Bytes) { exists c: Code :: !Surrogate(c) && p <= Utf8(c) }

  /** One character of `needed` further bytes stands at the start of `b`. */
  predicate Complete(b: Bytes, needed: nat) { b != [] && Needed(b[0]) == Some(needed) && Placed(b, needed) == needed }

  lemma OneByte(b: Bytes)
    requires Complete(b, 0)
    ensures Utf8(Value(b, 0)) == b[..1] && !Surrogate(Value(b, 0))
  {
  }

  lemma TwoBytes(b: Bytes)
    requires Complete(b, 1)
    ensures |b| >= 2 && Utf8(Value(b, 1)) == b[..2] && !Surrogate(Value(b, 1))
  {
    var c, t := Value(b, 1), Tail(b[1]);
    assert c / 64 == b[0] as int - 0xC0 && c % 64 == t;
  }

  lemma ThreeParts(b: Bytes)
    requires Complete(b, 2)
    ensures |b| >= 3 && 0xE0 <= b[0] <= 0xEF && Second(b[0], b[1]) && Follows(b[2])
    ensures (b[0] == 0xE0 ==> Tail(b[1]) >= 32) && (b[0] == 0xED ==> Tail(b[1]) < 32)
  {
  }

  /** The value's range, which leaves out the surrogates. */
  lemma ThreeRange(lead: byte, t: nat, u: nat)
    requires 0xE0 <= lead <= 0xEF && t < 64 && u < 64
    requires (lead == 0xE0 ==> t >= 32) && (lead == 0xED ==> t < 32)
    ensures var c := (lead as int - 0xE0) * 4096 + t * 64 + u; 0x800 <= c < 0x10000 && !(0xD800 <= c <= 0xDFFF)
  {
  }

  lemma ThreeValue(b: Bytes)
    requires Complete(b, 2) && |b| >= 3
    ensures Value(b, 2) == (b[0] as int - 0xE0) * 4096 + Tail(b[1]) * 64 + Tail(b[2])
  {
    hide Tail, Needed, Placed;
  }

  lemma ThreeSpelled(c: Code, b: Bytes)
    requires 0x800 <= c < 0x10000 && !Surrogate(c) && |b| >= 3 && 0xE0 <= b[0]
    requires c / 4096 == b[0] as int - 0xE0
    requires Follow(c / 64) == b[1] && Follow(c) == b[2]
    ensures Utf8(c) == b[..3]
  {
    hide Follow;
  }

  lemma ThreeBytes(b: Bytes)
    requires Complete(b, 2)
    ensures |b| >= 3 && Utf8(Value(b, 2)) == b[..3] && !Surrogate(Value(b, 2))
  {
    hide Second, Follows, Tail, Follow, Placed, Needed, Utf8, Value;
    ThreeParts(b);
    ThreeValue(b);
    SecondFollows(b[0], b[1]);
    FollowTail(b[1]);
    FollowTail(b[2]);
    var a, t, u := b[0] as int - 0xE0, Tail(b[1]), Tail(b[2]);
    Parts(0, a, t, u);
    ThreeRange(b[0], t, u);
    Low(a, t);
    ThreeSpelled(Value(b, 2), b);
  }

  lemma Parts(a: nat, t: nat, u: nat, v: nat)
    requires t < 64 && u < 64 && v < 64
    ensures var c := a * 262144 + t * 4096 + u * 64 + v;
            c / 262144 == a && c / 4096 == a * 64 + t && c / 64 == (a * 64 + t) * 64 + u && c % 64 == v
  {
  }

  lemma FollowTail(b: byte)
    requires Follows(b)
    ensures forall n: nat :: n % 64 == Tail(b) ==> Follow(n) == b
    ensures Tail(b) < 64
  {
  }

  lemma SecondFollows(lead: byte, b: byte)
    requires Second(lead, b)
    ensures Follows(b)
    ensures lead == 0xF0 ==> Tail(b) >= 16
    ensures lead == 0xF4 ==> Tail(b) < 16
  {
  }

  lemma FourParts(b: Bytes)
    requires Complete(b, 3)
    ensures |b| >= 4 && 0xF0 <= b[0] <= 0xF4 && Second(b[0], b[1]) && Follows(b[2]) && Follows(b[3])
  {
  }

  /** The value's range: past the two-byte plane, and no more than there are. */
  lemma FourRange(lead: byte, t: nat, u: nat, v: nat)
    requires 0xF0 <= lead <= 0xF4 && t < 64 && u < 64 && v < 64
    requires (lead == 0xF0 ==> t >= 16) && (lead == 0xF4 ==> t < 16)
    ensures 0x10000 <= (lead as int - 0xF0) * 262144 + t * 4096 + u * 64 + v < 0x110000
  {
  }

  lemma FourValue(b: Bytes)
    requires Complete(b, 3) && |b| >= 4
    ensures Value(b, 3) == (b[0] as int - 0xF0) * 262144 + Tail(b[1]) * 4096 + Tail(b[2]) * 64 + Tail(b[3])
  {
    hide Tail, Needed, Placed;
  }

  lemma FourSpelled(c: Code, b: Bytes)
    requires c >= 0x10000 && |b| >= 4 && 0xF0 <= b[0]
    requires c / 262144 == b[0] as int - 0xF0
    requires Follow(c / 4096) == b[1] && Follow(c / 64) == b[2] && Follow(c) == b[3]
    ensures Utf8(c) == b[..4] && !Surrogate(c)
  {
    hide Follow;
  }

  lemma FourBytes(b: Bytes)
    requires Complete(b, 3)
    ensures |b| >= 4 && Utf8(Value(b, 3)) == b[..4] && !Surrogate(Value(b, 3))
  {
    hide Second, Follows, Tail, Follow, Placed, Needed, Utf8, Value;
    FourParts(b);
    FourValue(b);
    SecondFollows(b[0], b[1]);
    FollowTail(b[1]);
    FollowTail(b[2]);
    FollowTail(b[3]);
    var a, t, u, v := b[0] as int - 0xF0, Tail(b[1]), Tail(b[2]), Tail(b[3]);
    Parts(a, t, u, v);
    FourRange(b[0], t, u, v);
    Low(a, t);
    Low(a * 64 + t, u);
    FourSpelled(Value(b, 3), b);
  }

  lemma Low(high: nat, low: nat)
    requires low < 64
    ensures (high * 64 + low) % 64 == low
  {
  }

  /** What stands complete is the encoding of its value. */
  lemma CompleteIs(b: Bytes, needed: nat)
    requires Complete(b, needed)
    ensures needed < |b| && Utf8(Value(b, needed)) == b[..needed + 1] && !Surrogate(Value(b, needed))
  {
    hide Utf8, Value, Placed;
    if needed == 0 { OneByte(b); } else if needed == 1 { TwoBytes(b); } else if needed == 2 { ThreeBytes(b); } else { FourBytes(b); }
  }

  /** Every encoding stands complete, and so do its first bytes as far as they go. */
  lemma EncodedPlaces(c: Code)
    requires !Surrogate(c)
    ensures var u := Utf8(c);
            && Needed(u[0]) == Some(|u| - 1) && (|u| > 1 ==> Second(u[0], u[1]))
            && (|u| > 2 ==> Follows(u[2])) && (|u| > 3 ==> Follows(u[3]))
  {
    Digits(c);
  }

  /** A valid second byte after a lead byte. */
  function Filler(lead: byte): byte { if lead == 0xE0 then 0xA0 else if lead == 0xF0 then 0x90 else 0x80 }

  /** The bytes at the start of `b` can begin a character as far as `n` exactly
      when the lead byte allows so many and all of them are well placed. */
  lemma BegunIff(b: Bytes, n: nat)
    requires 0 < n <= |b|
    ensures Begun(b[..n]) <==>
              && Needed(b[0]).Some? && n <= Needed(b[0]).value + 1
              && (n > 1 ==> Second(b[0], b[1])) && (n > 2 ==> Follows(b[2])) && (n > 3 ==> Follows(b[3]))
  {
    hide Utf8, Second, Follows, Needed, Value;
    if Begun(b[..n]) {
      var c: Code :| !Surrogate(c) && b[..n] <= Utf8(c);
      EncodedPlaces(c);
      forall i | 0 <= i < n ensures b[i] == Utf8(c)[i] { assert b[..n][i] == b[i]; }
    }
    if && Needed(b[0]).Some? && n <= Needed(b[0]).value + 1
       && (n > 1 ==> Second(b[0], b[1])) && (n > 2 ==> Follows(b[2])) && (n > 3 ==> Follows(b[3]))
    {
      var needed := Needed(b[0]).value;
      var full := Filled(b, n, needed);
      CompleteIs(full, needed);
      assert b[..n] <= full[..needed + 1];
    }
  }

  lemma Fills(lead: byte)
    ensures Needed(lead).Some? ==> Second(lead, Filler(lead))
    ensures Follows(0x80) && (Needed(lead).Some? ==> Needed(lead).value <= 3)
  {
  }

  /** The start of a character, completed. */
  lemma Filled(b: Bytes, n: nat, needed: nat) returns (full: Bytes)
    requires 0 < n <= |b| && Needed(b[0]) == Some(needed) && n <= needed + 1
    requires (n > 1 ==> Second(b[0], b[1])) && (n > 2 ==> Follows(b[2])) && (n > 3 ==> Follows(b[3]))
    ensures Complete(full, needed) && |full| == needed + 1 && b[..n] <= full
  {
    hide Second, Follows, Needed;
    Fills(b[0]);
    var rest: Bytes := [Filler(b[0]), 0x80, 0x80];
    full := b[..n] + rest[n - 1..needed];
  }

  /** The first character of any bytes: the one whose encoding they start with;
      or else a replacement for as many bytes as could begin one, and for at
      least one byte. */
  lemma HeadIs(b: Bytes)
    requires b != []
    ensures var (c, n) := Head(b);
            if exists d: Code :: !Surrogate(d) && Utf8(d) <= b then !Surrogate(c) && Utf8(c) <= b && n == |Utf8(c)|
            else c == 0xFFFD && (n == 1 || Begun(b[..n])) && (n < |b| ==> !Begun(b[..n + 1]))
  {
    hide Utf8, Second, Follows, Needed, Value;
    var (c, n) := Head(b);
    if d: Code :| !Surrogate(d) && Utf8(d) <= b {
      HeadOfUtf8(d, b[|Utf8(d)|..]);
      assert b == Utf8(d) + b[|Utf8(d)|..];
    } else {
      BegunIff(b, n);
      if n < |b| { BegunIff(b, n + 1); }
      NotWhole(b);
    }
  }

  lemma NotWhole(b: Bytes)
    requires b != [] && forall d: Code | !Surrogate(d) :: !(Utf8(d) <= b)
    ensures Needed(b[0]).Some? ==> Placed(b, Needed(b[0]).value) < Needed(b[0]).value
  {
    hide Utf8, Second, Follows, Needed, Value;
    if Needed(b[0]).Some? && Placed(b, Needed(b[0]).value) == Needed(b[0]).value {
      CompleteIs(b, Needed(b[0]).value);
    }
  }
}
