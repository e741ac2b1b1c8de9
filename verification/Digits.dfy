// mylsl.c, ch_int: printing an int by collecting its digits backwards in an array and
// reversing the array in place.
module Digits {
  import opened Options

  // C's division and remainder truncate toward zero.
  function Quot(a: int, b: int): int
    requires b > 0
  {
    if a >= 0 then a / b else -((-a) / b)
  }

  function Rem(a: int, b: int): int
    requires b > 0
  {
    a - b * Quot(a, b)
  }

  // (n % 10) + '0' as a char
  function DigitChar(n: int): char {
    (Rem(n, 10) + '0' as int) as char
  }

  // The value of decimal characters, least significant first.
  function ValueBackwards(s: seq<char>): Option<int> {
    if s == [] then Some(0)
    else match ValueBackwards(s[1..])
      case None => None
      case Some(v) => if '0' <= s[0] <= '9' then Some(10 * v + (s[0] as int - '0' as int)) else None
  }

  // The value of decimal characters as they are read, most significant first.
  function Parse(s: seq<char>): Option<int> {
    if s == [] then Some(0)
    else
      match Parse(s[..|s| - 1])
      case None => None
      case Some(v) =>
        var c := s[|s| - 1];
        if '0' <= c <= '9' then Some(10 * v + (c as int - '0' as int)) else None
  }

  // The value of a text with an optional sign in front.
  function ParseSigned(s: seq<char>): Option<int> {
    if |s| > 1 && s[0] == '-' then
      match Parse(s[1..])
      case None => None
      case Some(v) => Some(-v)
    else Parse(s)
  }

  function Reversed(s: seq<char>): (r: seq<char>)
    ensures |r| == |s| && forall k :: 0 <= k < |s| ==> r[k] == s[|s| - 1 - k]
  {
    if s == [] then [] else Reversed(s[1..]) + [s[0]]
  }

  lemma {:induction false} ParseReversed(s: seq<char>)
    ensures Parse(Reversed(s)) == ValueBackwards(s)
  {
    if s != [] {
      ParseReversed(s[1..]);
      assert Reversed(s)[..|s| - 1] == Reversed(s[1..]);
    }
  }

  // The characters the extraction loop collects; a negative number gives just one.
  function Backwards(n: int): (s: seq<char>)
    ensures |s| >= 1
    decreases if n > 0 then n else 0
  {
    [DigitChar(n)] + if Quot(n, 10) > 0 then Backwards(Quot(n, 10)) else []
  }

  // Extraction stores the positional value, and no leading zero but for 0 itself.
  lemma {:induction false} BackwardsExact(n: nat)
    ensures ValueBackwards(Backwards(n)) == Some(n)
    ensures n > 0 ==> Backwards(n)[|Backwards(n)| - 1] != '0'
    ensures n == 0 ==> Backwards(n) == "0"
  {
    if n / 10 > 0 {
      BackwardsExact(n / 10);
      assert Backwards(n)[1..] == Backwards(n / 10);
    } else {
      assert Backwards(n)[1..] == [];
    }
  }

  // An int has at most ten digits, so the 1024 characters suffice.
  lemma {:induction false} FewDigits(n: int, k: nat)
    requires n < Pow10(k) && k >= 1
    ensures |Backwards(n)| <= k
    decreases k
  {
    if Quot(n, 10) > 0 {
      FewDigits(Quot(n, 10), k - 1);
    }
  }

  function Pow10(k: nat): nat {
    if k == 0 then 1 else 10 * Pow10(k - 1)
  }

  const SIZE: int := 1024

  lemma {:induction false} IntHasFewDigits(n: int)
    requires n < 0x8000_0000
    ensures |Backwards(n)| <= 10
  {
    assert Pow10(5) == 100_000;
    assert Pow10(10) == 10_000_000_000;
    FewDigits(n, 10);
  }

  // What ch_int prints reads back as the number, without a leading zero, if and only if the
  // number is not negative. For a negative number it prints the one character as far below
  // '0' as the last digit says: a digit, '0', exactly for a multiple of ten.
  lemma {:induction false} PrintsIffNonNegative(number: int, text: seq<char>)
    requires -0x8000_0000 <= number < 0x8000_0000
    requires text == Reversed(Backwards(number))
    ensures ParseSigned(text) == Some(number) <==> number >= 0
    ensures number >= 0 ==> |text| >= 1 && (text[0] == '0' ==> text == "0")
    ensures number < 0 ==> |text| == 1 && text[0] as int == '0' as int - (-number) % 10
    ensures number < 0 ==> ('0' <= text[0] <= '9' <==> number % 10 == 0)
  {
    if number >= 0 {
      BackwardsExact(number);
      ParseReversed(Backwards(number));
      NoSign(text);
    } else {
      assert |text| == 1;
      if Parse(text).Some? {
        NoSign(text);
      }
    }
  }

  // A text that reads without a sign has none.
  lemma {:induction false} NoSign(s: seq<char>)
    requires Parse(s).Some?
    ensures Parse(s).value >= 0
    ensures s != [] ==> s[0] != '-'
    ensures ParseSigned(s) == Parse(s)
  {
    if s != [] {
      NoSign(s[..|s| - 1]);
    }
  }

  // ch_int, returning the characters before the terminator.
  method ChInt(number: int) returns (text: string)
    requires -0x8000_0000 <= number < 0x8000_0000
    ensures text == Reversed(Backwards(number))
    ensures ParseSigned(text) == Some(number) <==> number >= 0
    ensures number < 0 ==> |text| == 1 && text[0] as int == '0' as int - (-number) % 10
  {
    var s := new char[SIZE];
    var i := Extract(s, number);
    ReversePrefix(s, i);
    text := s[..i];
    PrintsIffNonNegative(number, text);
  }

  // The digits still to come when n is what is left of the number.
  function Remaining(n: int): seq<char> {
    if n > 0 then Backwards(n) else []
  }

  lemma {:induction false} Unroll(n: int, done: seq<char>)
    ensures done + Backwards(n) == (done + [DigitChar(n)]) + Remaining(Quot(n, 10))
  {
  }

  // The extraction loop.
  method Extract(s: array<char>, number: int) returns (i: nat)
    requires s.Length == SIZE && -0x8000_0000 <= number < 0x8000_0000
    modifies s
    ensures i <= SIZE && s[..i] == Backwards(number)
  {
    ghost var all := Backwards(number);
    IntHasFewDigits(number);
    Unroll(number, []);
    s[0] := DigitChar(number);
    i := 1;
    var n := Quot(number, 10);
    assert s[..i] == [] + [DigitChar(number)];
    while n > 0
      invariant 1 <= i <= 10
      invariant all == s[..i] + Remaining(n)
      decreases n
    {
      Unroll(n, s[..i]);
      assert |Backwards(n)| >= 1;
      ghost var before := s[..i];
      s[i] := DigitChar(n);
      i := i + 1;
      assert s[..i] == before + [DigitChar(n)];
      n := Quot(n, 10);
    }
  }

  // The in-place reversal by swaps.
  method ReversePrefix(s: array<char>, len: nat)
    requires len <= s.Length
    modifies s
    ensures s[..len] == Reversed(old(s[..len])) && s[len..] == old(s[len..])
  {
    var i, j := 0, len - 1;
    while i < j
      invariant 0 <= i <= len && i + j == len - 1
      invariant forall k :: 0 <= k < i || (j < k < len) ==> s[k] == old(s[len - 1 - k])
      invariant forall k :: i <= k <= j || len <= k < s.Length ==> s[k] == old(s[k])
    {
      s[i], s[j] := s[j], s[i];
      i, j := i + 1, j - 1;
    }
  }
}
