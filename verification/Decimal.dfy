/** Decimal text, as the routine is meant to produce it. */
module Decimal {
  import opened Words

  const MINUS: Byte := 0x2d

  function Digit(n: nat): Byte { 0x30 + n % 10 }

  /** The decimal digits of a natural number, most significant first. */
  function Digits(n: nat): seq<Byte> {
    if n < 10 then [Digit(n)] else Digits(n / 10) + [Digit(n)]
  }

  /** Signed decimal text. */
  function Text(x: int): seq<Byte> {
    if x < 0 then [MINUS] + Digits(-x) else Digits(x)
  }

  /** What a string of digits denotes. */
  function Value(ds: seq<Byte>): int {
    if ds == [] then 0 else 10 * Value(ds[..|ds| - 1]) + (ds[|ds| - 1] as int - 0x30)
  }

  predicate IsDigits(ds: seq<Byte>) { forall i :: 0 <= i < |ds| ==> 0x30 <= ds[i] <= 0x39 }

  /** The text denotes the number, in digits only and with no leading zero. */
  lemma {:induction false} DigitsDenote(n: nat)
    ensures Value(Digits(n)) == n && IsDigits(Digits(n)) && |Digits(n)| >= 1
    ensures n > 0 ==> Digits(n)[0] != 0x30
  {
    if n >= 10 {
      DigitsDenote(n / 10);
      assert Digits(n)[..|Digits(n)| - 1] == Digits(n / 10);
    } else {
      assert Digits(n)[..0] == [];
    }
  }

  /** How long it gets: at most k digits below 10^k. */
  lemma {:induction false} DigitsLength(n: nat, k: nat)
    requires 1 <= k && n < Pow10(k)
    ensures |Digits(n)| <= k
  {
    assert Pow10(1) == 10;
    if n >= 10 { DigitsLength(n / 10, k - 1); }
  }

  function Pow10(k: nat): (p: nat)
    ensures p >= 1
  {
    if k == 0 then 1 else 10 * Pow10(k - 1)
  }

  lemma WordLength(n: nat)
    requires n < WORD
    ensures |Digits(n)| <= 10
  {
    assert Pow10(5) == 100_000;
    assert Pow10(10) == 10_000_000_000;
    DigitsLength(n, 10);
  }

  /** The digits as repeated division delivers them: least significant first, none for zero. */
  function Backwards(n: nat): seq<Byte> {
    if n == 0 then [] else [Digit(n)] + Backwards(n / 10)
  }

  function Reverse(s: seq<Byte>): (r: seq<Byte>)
    ensures |r| == |s|
  {
    seq(|s|, i requires 0 <= i < |s| => s[|s| - 1 - i])
  }

  lemma {:induction false} BackwardsReversed(n: nat)
    requires n > 0
    ensures Reverse(Backwards(n)) == Digits(n)
  {
    if n >= 10 {
      BackwardsReversed(n / 10);
      var b := Backwards(n / 10);
      assert Reverse([Digit(n)] + b) == Reverse(b) + [Digit(n)];
    } else {
      assert Backwards(n) == [Digit(n)];
    }
  }

  /** With the sign appended before reversing. */
  lemma SignedReversed(n: nat)
    requires n > 0
    ensures Reverse(Backwards(n) + [MINUS]) == [MINUS] + Digits(n)
  {
    BackwardsReversed(n);
    assert Reverse(Backwards(n) + [MINUS]) == [MINUS] + Reverse(Backwards(n));
  }
}
