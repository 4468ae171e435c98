/** The shift-subtract division loop. */
module Division {
  import opened Words

  /** One turn of the loop: `carry` out of the quotient into the remainder, then the trial
      subtraction, kept when bit 31 of the difference is clear.  `complement` is the divisor's
      two's complement. */
  function Turn(q: int, r: int, complement: int): (int, int) {
    var carry := q / 0x8000_0000;
    var q1 := q * 2 % WORD;
    var r1 := Or(r * 2 % WORD, carry);
    var test := (r1 + complement) % WORD;
    if test < 0x8000_0000 then (Or(q1, 1), test) else (q1, r1)
  }

  function Turns(n: nat, q: int, r: int, complement: int): (int, int) {
    if n == 0 then (q, r)
    else var t := Turn(q, r, complement); Turns(n - 1, t.0, t.1, complement)
  }

  function DivMod(dividend: int, divisor: int): (int, int) {
    Turns(32, dividend, 0, Xor(divisor, MAXVAL) + 1)
  }

  lemma {:induction false} TurnsLast(n: nat, q: int, r: int, c: int)
    requires n > 0
    ensures var s := Turns(n - 1, q, r, c); Turns(n, q, r, c) == Turn(s.0, s.1, c)
  {
    hide Turn;
    if n > 1 {
      var t := Turn(q, r, c);
      TurnsLast(n - 1, t.0, t.1, c);
    }
  }

  /** The loop as the source runs it. */
  method Divide(dividend: int, divisor: int) returns (quotient: int, remainder: int)
    ensures (quotient, remainder) == DivMod(dividend, divisor)
  {
    var complement := Xor(divisor, MAXVAL) + 1;
    quotient, remainder := dividend, 0;
    for i := 0 to 32
      invariant (quotient, remainder) == Turns(i, dividend, 0, complement)
    {
      TurnsLast(i + 1, dividend, 0, complement);
      var carry := quotient / 0x8000_0000;
      quotient := quotient * 2 % WORD;
      remainder := Or(remainder * 2 % WORD, carry);
      var test := (remainder + complement) % WORD;
      if test < 0x8000_0000 {
        remainder := test;
        quotient := Or(quotient, 1);
      }
    }
  }

  /** The state between two turns.  The quotient register holds the dividend bits not yet used
      (`low`) above the quotient bits found (`found`); with `s` = 2^turns and `u` = 2^(32 - turns),
      the dividend is `u` times what was divided so far, plus `low`, up to a multiple `z` of 2^32. */
  predicate Between(a: int, d: int, s: int, u: int, q: int, r: int, found: int, low: int, z: int) {
    && s >= 1 && u >= 1 && s * u == WORD
    && 0 <= low < u && 0 <= found < s && q == low * s + found
    && 0 <= r < WORD
    && a == (found * d + r + WORD * z) * u + low
  }

  /** For divisors above 2^31 the sign test takes a remainder for large enough also when it is below
      the divisor by more than 2^31. */
  predicate Misread(r: int, d: int) { r >= d || r < d - 0x8000_0000 }

  lemma SignTest(r: int, d: int)
    requires 0 <= r < WORD && 0x8000_0000 < d < WORD
    ensures (r + (WORD - d)) % WORD < 0x8000_0000 <==> Misread(r, d)
    ensures (r + (WORD - d)) / WORD == if r >= d then 1 else 0
  {
    if r >= d { DivideExact(WORD, 1, r - d); } else { DivideExact(WORD, 0, r + WORD - d); }
  }

  /** What one turn makes of the registers, without the bit operators. */
  lemma TurnArithmetic(q: int, r: int, d: int) returns (carry: int, fit: bool, c: int)
    requires 0 <= q < WORD && 0 <= r < WORD && 0 < d < WORD
    ensures carry == q / 0x8000_0000 && 0 <= carry <= 1
    ensures var t := Turn(q, r, WORD - d);
      && t.0 == 2 * (q - carry * 0x8000_0000) + (if fit then 1 else 0)
      && t.1 == 2 * r + carry - (if fit then d else 0) + WORD * c
      && 0 <= t.1 < WORD
    ensures d <= 0x8000_0000 && r < d ==> c == 0 && (fit <==> 2 * r + carry >= d)
    ensures d > 0x8000_0000 && r < 0x8000_0000 ==>
      && (fit <==> Misread(2 * r + carry, d)) && (2 * r + carry >= d || !fit ==> c == 0)
  {
    hide Or;
    carry := q / 0x8000_0000;
    var q1 := q * 2 % WORD;
    assert q1 == 2 * (q - carry * 0x8000_0000);
    OrBit(q - carry * 0x8000_0000, 1);
    var r2 := r * 2 % WORD;
    var c1 := r * 2 / WORD;
    OrBit(r - c1 * 0x8000_0000, carry);
    var r1 := r2 + carry;
    var test := (r1 + (WORD - d)) % WORD;
    fit := test < 0x8000_0000;
    if d > 0x8000_0000 { SignTest(r1, d); }
    c := if fit then 1 - (r1 + (WORD - d)) / WORD - c1 else -c1;
  }

  lemma TurnKeeps(a: int, d: int, s: int, u: int, q: int, r: int, found: int, low: int, z: int)
    returns (found': int, low': int, z': int)
    requires Between(a, d, s, 2 * u, q, r, found, low, z) && 0 < d < WORD
    ensures var t := Turn(q, r, WORD - d); Between(a, d, 2 * s, u, t.0, t.1, found', low', z')
    ensures d <= 0x8000_0000 && r < d && z == 0 ==> Turn(q, r, WORD - d).1 < d && z' == 0
    ensures found' >= 2 * found
    ensures d > 0x8000_0000 && r < 0x8000_0000 ==>
      var x := 2 * r + q / 0x8000_0000;
      && found' == 2 * found + (if Misread(x, d) then 1 else 0)
      && (!Misread(x, d) ==> Turn(q, r, WORD - d).1 == x && z' == 2 * z)
      && (x >= d ==> Turn(q, r, WORD - d).1 == x - d && z' == 2 * z)
  {
    hide Turn;
    Doubled(s, u);
    assert 0 <= q < WORD by { Below(low, 2 * u, found, s); }
    var carry, fit, c := TurnArithmetic(q, r, d);
    low' := low - carry * u;
    assert 0 <= low' < u && q - carry * 0x8000_0000 == low' * s + found by {
      TopBit(low, found, s, u, q);
    }
    found' := 2 * found + (if fit then 1 else 0);
    z' := 2 * z - c;
    var t := Turn(q, r, WORD - d);
    Doubled(low', s);
    assert t.0 == low' * (2 * s) + found';
    Balance(a, d, u, found, found', r, t.1, low, low', z, z', carry, fit, c);
  }

  lemma Balance(a: int, d: int, u: int, found: int, found': int, r: int, r': int,
                low: int, low': int, z: int, z': int, carry: int, fit: bool, c: int)
    requires a == (found * d + r + WORD * z) * (2 * u) + low
    requires low' == low - carry * u && z' == 2 * z - c
    requires found' == 2 * found + (if fit then 1 else 0)
    requires r' == 2 * r + carry - (if fit then d else 0) + WORD * c
    ensures a == (found' * d + r' + WORD * z') * u + low'
  {
    var hi := found * d + r + WORD * z;
    assert found' * d == 2 * (found * d) + (if fit then d else 0);
    assert found' * d + r' + WORD * z' == 2 * hi + carry;
    assert (2 * hi + carry) * u == hi * (2 * u) + carry * u;
  }

  lemma Below(low: int, u: int, found: int, s: int)
    requires 0 <= low < u && 0 <= found < s
    ensures 0 <= low * s + found < u * s
  {
    assert (low + 1) * s <= u * s;
    assert (low + 1) * s == low * s + s;
  }

  lemma TopBit(low: int, found: int, s: int, u: int, q: int)
    requires s >= 1 && u >= 1 && s * u == 0x8000_0000
    requires 0 <= low < 2 * u && 0 <= found < s && q == low * s + found
    ensures var carry := q / 0x8000_0000; var low' := low - carry * u;
      0 <= low' < u && q - carry * 0x8000_0000 == low' * s + found
  {
    if low < u {
      Below(low, u, found, s);
    } else {
      Below(low - u, u, found, s);
      assert (low - u) * s == low * s - u * s;
    }
  }

  lemma {:induction false} TurnsKeep(n: nat, a: int, d: int, s: int, q: int, r: int, found: int, low: int, z: int)
    returns (z': int)
    requires Between(a, d, s, Pow2(n), q, r, found, low, z) && 0 < d < WORD
    ensures var t := Turns(n, q, r, WORD - d);
      0 <= t.1 < WORD && a == t.0 * d + t.1 + WORD * z'
    ensures d <= 0x8000_0000 && r < d && z == 0 ==> Turns(n, q, r, WORD - d).1 < d && z' == 0
    ensures Turns(n, q, r, WORD - d).0 >= found
    ensures n > 0 ==> Turns(n, q, r, WORD - d).0 >= 2 * found
  {
    hide Turn;
    if n == 0 {
      z' := z;
    } else {
      var found', low', z1 := TurnKeeps(a, d, s, Pow2(n - 1), q, r, found, low, z);
      var t := Turn(q, r, WORD - d);
      z' := TurnsKeep(n - 1, a, d, 2 * s, t.0, t.1, found', low', z1);
    }
  }

  lemma Complement(d: int)
    requires 0 <= d < WORD
    ensures Xor(d, MAXVAL) + 1 == WORD - d
  {
    hide Xor, Pow2;
    Pow2Values();
    XorLowOnes(d, 32);
  }

  predicate Exact(a: int, d: int)
    requires d > 0
  {
    DivMod(a, d) == (a / d, a % d)
  }

  /** For every dividend and every divisor the results satisfy quotient * divisor + remainder =
      dividend modulo 2^32; for divisors up to 2^31 they are the true quotient and remainder. */
  lemma Correct(a: int, d: int)
    requires 0 <= a < WORD && 0 < d < WORD
    ensures (DivMod(a, d).0 * d + DivMod(a, d).1) % WORD == a
    ensures 0 <= DivMod(a, d).1 < WORD
    ensures d <= 0x8000_0000 ==> Exact(a, d)
  {
    hide Turns, Pow2;
    Complement(d);
    Pow2Values();
    var z := TurnsKeep(32, a, d, 1, a, 0, 0, a, 0);
    var q, r := DivMod(a, d).0, DivMod(a, d).1;
    assert q * d + r == a + WORD * (-z);
    DivideExact(WORD, -z, a);
    if d <= 0x8000_0000 { DivideExact(d, q, r); }
  }

  /** The first turn, for a divisor above 2^31: it finds a one, which stands at the top of the
      quotient, unless the dividend's top bit is set and the divisor is 2^31 + 1. */
  lemma FirstTurn(a: int, d: int) returns (found: int, low: int, z: int)
    requires 0 <= a < WORD && 0x8000_0000 < d < WORD
    ensures var t := Turn(a, 0, WORD - d); Between(a, d, 2, Pow2(31), t.0, t.1, found, low, z)
    ensures d > 0x8000_0001 || a < 0x8000_0000 ==> found == 1
    ensures d == 0x8000_0001 && a >= 0x8000_0000 ==> found == 0 && z == 0 && Turn(a, 0, WORD - d).1 == 1
  {
    hide Turn, Pow2;
    Pow2Values();
    Pow2Step(31);
    found, low, z := TurnKeeps(a, d, 1, Pow2(31), a, 0, 0, a, 0);
  }

  /** A quotient that starts with a one is at least two; the true one is at most one. */
  lemma WrongAbove(a: int, d: int)
    requires 0 <= a < WORD && 0x8000_0000 < d < WORD && (d > 0x8000_0001 || a < 0x8000_0000)
    ensures !Exact(a, d)
  {
    hide Turn, Pow2;
    Complement(d);
    var found, low, z1 := FirstTurn(a, d);
    var t := Turn(a, 0, WORD - d);
    var z := TurnsKeep(31, a, d, 2, t.0, t.1, found, low, z1);
    AtMostOne(a, d);
  }

  lemma AtMostOne(a: int, d: int)
    requires 0 <= a < WORD && 0x8000_0000 < d
    ensures a / d == if a >= d then 1 else 0
    ensures a % d == if a >= d then a - d else a
  {
    if a >= d { DivideExact(d, 1, a - d); } else { DivideExact(d, 0, a); }
  }

  /** With divisor 2^31 + 1 and a remainder that is no longer zero, nothing is misread: the bits
      shifted in stay below the divisor up to the last turn, which decides. */
  lemma UnmisreadTurn(a: int, s: int, u: int, q: int, r: int, low: int) returns (low': int)
    requires u >= 1 && 0 <= a < WORD && 1 <= r < 0x8000_0000
    requires Between(a, 0x8000_0001, s, 2 * u, q, r, 0, low, 0)
    ensures var t := Turn(q, r, WORD - 0x8000_0001);
      if u == 1 then t == (a / 0x8000_0001, a % 0x8000_0001)
      else Between(a, 0x8000_0001, 2 * s, u, t.0, t.1, 0, low', 0) && 1 <= t.1 < 0x8000_0000
  {
    hide Turn, Between, Misread;
    var d := 0x8000_0001;
    CarryPositive(a, d, s, 2 * u, q, r, low);
    var x := 2 * r + q / 0x8000_0000;
    var found', z';
    found', low', z' := TurnKeeps(a, d, s, u, q, r, 0, low, 0);
    var t := Turn(q, r, WORD - d);
    if u == 1 {
      LastTurn(a, d, 2 * s, t.0, t.1, found', low', z', x);
    } else {
      SmallSoFar(a, d, 2 * s, u, t.0, t.1, found', low', z', x);
    }
  }

  lemma CarryPositive(a: int, d: int, s: int, u: int, q: int, r: int, low: int)
    requires Between(a, d, s, u, q, r, 0, low, 0)
    ensures q >= 0
  {
    assert low * s >= 0;
  }

  lemma {:induction false} NothingMisread(n: nat, a: int, s: int, q: int, r: int, low: int)
    requires 0 < n && 0 <= a < WORD && 1 <= r < 0x8000_0000
    requires Between(a, 0x8000_0001, s, Pow2(n), q, r, 0, low, 0)
    ensures Turns(n, q, r, WORD - 0x8000_0001) == (a / 0x8000_0001, a % 0x8000_0001)
  {
    hide Turn, Between, Pow2;
    Pow2Step(n - 1);
    var low' := UnmisreadTurn(a, s, Pow2(n - 1), q, r, low);
    var t := Turn(q, r, WORD - 0x8000_0001);
    if n == 1 {
      Pow2Nothing();
      assert Turns(1, q, r, WORD - 0x8000_0001) == Turns(0, t.0, t.1, WORD - 0x8000_0001);
    } else {
      Pow2Step(n - 2);
      NothingMisread(n - 1, a, 2 * s, t.0, t.1, low');
    }
  }

  lemma LastTurn(a: int, d: int, s: int, q: int, r: int, found: int, low: int, z: int, x: int)
    requires Between(a, d, s, 1, q, r, found, low, z)
    requires 0 <= a < WORD && d == 0x8000_0001 && x >= 2 && found == if Misread(x, d) then 1 else 0
    requires !Misread(x, d) ==> r == x && z == 0
    requires x >= d ==> r == x - d && z == 0
    ensures (q, r) == (a / d, a % d)
  {
    assert a == found * d + r;
    AtMostOne(a, d);
  }

  lemma SmallSoFar(a: int, d: int, s: int, u: int, q: int, r: int, found: int, low: int, z: int, x: int)
    requires 0 <= a < WORD && d == 0x8000_0001 && u >= 2 && Between(a, d, s, u, q, r, found, low, z)
    requires x >= 2
    requires found == if Misread(x, d) then 1 else 0
    requires !Misread(x, d) ==> r == x && z == 0
    requires x >= d ==> r == x - d && z == 0
    ensures found == 0 && z == 0 && r == x && 1 <= r < 0x8000_0000
  {
    assert found * d + r == x;
    assert x * u >= 2 * x;
  }

  lemma Pow2Step(n: nat)
    ensures Pow2(n + 1) == 2 * Pow2(n)
  {
  }

  /** Which calls are exact: those with a divisor up to 2^31, and those with 2^31 + 1 and a dividend
      of 2^31 or more. */
  lemma ExactCalls(a: int, d: int)
    requires 0 <= a < WORD && 0 < d < WORD
    ensures Exact(a, d) <==> d <= 0x8000_0000 || (d == 0x8000_0001 && a >= 0x8000_0000)
  {
    hide Exact, Pow2;
    if d <= 0x8000_0000 {
      Correct(a, d);
    } else if d > 0x8000_0001 || a < 0x8000_0000 {
      WrongAbove(a, d);
    } else {
      ExactJustAbove(a);
    }
  }

  lemma ExactJustAbove(a: int)
    requires 0x8000_0000 <= a < WORD
    ensures Exact(a, 0x8000_0001)
  {
    hide Turn, Pow2;
    var d := 0x8000_0001;
    Complement(d);
    var found, low, z := FirstTurn(a, d);
    var t := Turn(a, 0, WORD - d);
    NothingMisread(31, a, 2, t.0, t.1, low);
  }

  /** The divisors for which the loop divides every 32-bit dividend correctly are exactly 1..2^31. */
  lemma ExactDivisors(d: int)
    requires 0 < d < WORD
    ensures (forall a :: 0 <= a < WORD ==> Exact(a, d)) <==> d <= 0x8000_0000
  {
    hide Exact;
    forall a | 0 <= a < WORD
      ensures Exact(a, d) <==> d <= 0x8000_0000 || (d == 0x8000_0001 && a >= 0x8000_0000)
    {
      ExactCalls(a, d);
    }
    assert Exact(0, d) <==> d <= 0x8000_0000;
  }
}
