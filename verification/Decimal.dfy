/**
 Decimal rendering of integers as `%d` prints them, and its inverse.
 */
module Decimal {
  import opened Objects

  predicate IsDigit(c: char) {
    '0' <= c <= '9'
  }

  function Digits(n: nat): (s: string)
    ensures |s| > 0
    ensures forall i :: 0 <= i < |s| ==> IsDigit(s[i])
  {
    var last := ('0' as int + n % 10) as char;
    if n < 10 then [last] else Digits(n / 10) + [last]
  }

  function Format(n: int): (s: string) {
    if n < 0 then "-" + Digits(-n) else Digits(n)
  }

  /** The number a run of digits denotes, if the text is a non-empty run of digits. */
  function ParseDigits(s: string): (r: Option<nat>) {
    if |s| == 0 || !IsDigit(s[|s| - 1]) then None
    else
      var digit := s[|s| - 1] as int - '0' as int;
      if |s| == 1 then Some(digit)
      else
        match ParseDigits(s[..|s| - 1])
        case Some(high) => Some(10 * high + digit)
        case None => None
  }

  function Parse(s: string): (r: Option<int>) {
    if |s| > 0 && s[0] == '-' then
      match ParseDigits(s[1..])
      case Some(n) => Some(0 - n)
      case None => None
    else
      match ParseDigits(s)
      case Some(n) => Some(n)
      case None => None
  }

  lemma {:induction false} DigitsRoundTrip(n: nat)
    ensures ParseDigits(Digits(n)) == Some(n)
  {
    if n >= 10 {
      DigitsRoundTrip(n / 10);
      assert Digits(n)[..|Digits(n)| - 1] == Digits(n / 10);
    }
  }

  /** Reading back what `%d` printed gives the printed number. */
  lemma FormatRoundTrip(n: int)
    ensures Parse(Format(n)) == Some(n)
  {
    if n < 0 {
      DigitsRoundTrip(-n);
      assert Format(n)[1..] == Digits(-n);
    } else {
      DigitsRoundTrip(n);
      assert IsDigit(Digits(n)[0]);
    }
  }

  lemma FormatHasNoSlash(n: int)
    ensures '/' !in Format(n)
  {
    if n < 0 {
      assert forall i :: 0 < i < |Format(n)| ==> Format(n)[i] == Digits(-n)[i - 1];
    }
  }

  lemma SlashSplitsOnce(a: string, b: string, c: string, d: string)
    requires '/' !in a && '/' !in c
    requires a + "/" + b == c + "/" + d
    ensures a == c && b == d
  {
    var whole, other := a + "/" + b, c + "/" + d;
    assert whole[|a|] == '/' && other[|c|] == '/';
    assert whole[..|a|] == a && other[..|c|] == c;
    assert whole[|a| + 1..] == b && other[|c| + 1..] == d;
  }

  /** `%d/%d` is injective: the text determines both numbers. */
  lemma SlashPairInjective(a: int, b: int, c: int, d: int)
    ensures Format(a) + "/" + Format(b) == Format(c) + "/" + Format(d) <==> a == c && b == d
  {
    if Format(a) + "/" + Format(b) == Format(c) + "/" + Format(d) {
      FormatHasNoSlash(a);
      FormatHasNoSlash(c);
      SlashSplitsOnce(Format(a), Format(b), Format(c), Format(d));
      FormatRoundTrip(a);
      FormatRoundTrip(b);
      FormatRoundTrip(c);
      FormatRoundTrip(d);
    }
  }
}
