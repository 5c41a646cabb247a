/** Decimal numerals, as `int` reads them and `str.format` prints them. */
module Decimal {
  import opened Text

  predicate IsDigit(c: char) { '0' <= c <= '9' }

  lemma DigitIs(c: char)
    ensures IsDigit(c) <==> c in ['0', '1', '2', '3', '4', '5', '6', '7', '8', '9']
  {
  }

  predicate IsNumeral(s: string) {
    s != "" && forall i | 0 <= i < |s| :: IsDigit(s[i])
  }

  function DigitValue(c: char): (d: nat)
    requires IsDigit(c)
  {
    c as int - '0' as int
  }

  function Value(s: string): nat
    requires forall i | 0 <= i < |s| :: IsDigit(s[i])
  {
    if s == "" then 0
    else Value(s[..|s| - 1]) * 10 + DigitValue(s[|s| - 1])
  }

  function Show(n: nat): (s: string)
    ensures IsNumeral(s)
    ensures Value(s) == n
  {
    var last := ('0' as int + n % 10) as char;
    if n < 10 then
      [last]
    else
      var front := Show(n / 10);
      var all := front + [last];
      assert all[..|all| - 1] == front;
      all
  }

  function DigitRun(s: string): (n: nat)
    ensures n <= |s|
    ensures forall i | 0 <= i < n :: IsDigit(s[i])
    ensures n < |s| ==> !IsDigit(s[n])
  {
    if s != "" && IsDigit(s[0]) then 1 + DigitRun(s[1..]) else 0
  }

  /** The greedy `\d+` of a regular expression. */
  function ReadNumeral(s: string): (r: Option<(string, string)>)
    ensures r.Some? ==> IsNumeral(r.value.0) && s == r.value.0 + r.value.1
  {
    var n := DigitRun(s);
    if n == 0 then None else Some((s[..n], s[n..]))
  }

  lemma {:induction false} DigitRunOf(digits: string, rest: string)
    requires forall i | 0 <= i < |digits| :: IsDigit(digits[i])
    requires rest == "" || !IsDigit(rest[0])
    ensures DigitRun(digits + rest) == |digits|
  {
    if digits == "" {
      assert digits + rest == rest;
    } else {
      assert (digits + rest)[1..] == digits[1..] + rest;
      DigitRunOf(digits[1..], rest);
    }
  }

  lemma ReadNumeralOf(digits: string, rest: string)
    requires IsNumeral(digits)
    requires rest == "" || !IsDigit(rest[0])
    ensures ReadNumeral(digits + rest) == Some((digits, rest))
  {
    DigitRunOf(digits, rest);
    assert (digits + rest)[..|digits|] == digits;
    assert (digits + rest)[|digits|..] == rest;
  }
}
