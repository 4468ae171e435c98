/** Integers as the emulator's Python uses them: unbounded, with bitwise operators read as
    infinite two's complement.  Everything that narrows a value to 32 or 8 bits says so. */
module Words {

  const MAXVAL: int := 0xffff_ffff
  const WORD: int := 0x1_0000_0000

  type Byte = b: int | 0 <= b < 256

  function Pow2(n: nat): (p: int)
    ensures p >= 1
  {
    if n == 0 then 1 else 2 * Pow2(n - 1)
  }

  lemma Pow2Nothing()
    ensures Pow2(0) == 1
  {
  }

  lemma Doubled(x: int, y: int)
    ensures x * (2 * y) == 2 * (x * y) == (2 * x) * y
  {
  }

  lemma Multiple(m: int, d: int)
    requires m >= 1
    ensures d >= 1 ==> m * d >= m
    ensures d <= -1 ==> m * d <= -m
  {
  }

  lemma DivideExact(m: int, q: int, r: int)
    requires 0 <= r < m
    ensures (m * q + r) / m == q && (m * q + r) % m == r
  {
    var s := m * q + r;
    Multiple(m, s / m - q);
    assert m * (s / m - q) == r - s % m;
  }

  lemma QuotientWord(x: int, y: int, q: int)
    requires 0 <= x <= MAXVAL && 0 < y && q == x / y
    ensures 0 <= q <= x && q % WORD == q
  {
    if q > x { Multiple(y, q - x); }
  }

  /** `x & y`. */
  function And(x: int, y: int): (z: int)
    ensures 0 <= x ==> 0 <= z <= x
    ensures 0 <= y ==> 0 <= z <= y
    decreases if x < 0 then -x else x
  {
    if x == 0 then 0
    else if x == -1 then y
    else 2 * And(x / 2, y / 2) + (if x % 2 == 1 && y % 2 == 1 then 1 else 0)
  }

  /** `x | y`. */
  function Or(x: int, y: int): (z: int)
    ensures 0 <= x && 0 <= y ==> x <= z && y <= z <= x + y
    decreases if x < 0 then -x else x
  {
    if x == 0 then y
    else if x == -1 then -1
    else 2 * Or(x / 2, y / 2) + (if x % 2 == 1 then 1 else y % 2)
  }

  /** `x ^ y`. */
  function Xor(x: int, y: int): (z: int)
    ensures 0 <= x && 0 <= y ==> 0 <= z <= x + y
    decreases if x < 0 then -x else x
  {
    if x == 0 then y
    else if x == -1 then -1 - y
    else 2 * Xor(x / 2, y / 2) + (if x % 2 == y % 2 then 0 else 1)
  }

  /** `x | y` adds when the operands share no bit position: `x` is a multiple of a power of two
      that `y` stays below. */
  lemma {:induction false} OrAdds(q: int, y: int, k: nat)
    requires 0 <= y < Pow2(k)
    ensures Or(q * Pow2(k), y) == q * Pow2(k) + y
    decreases k
  {
    var x := q * Pow2(k);
    if k == 0 {
      OrZero(x);
    } else {
      var h := q * Pow2(k - 1);
      assert x == 2 * h;
      OrAdds(q, y / 2, k - 1);
      assert Or(h, y / 2) == h + y / 2;
    }
  }

  lemma {:induction false} OrZero(x: int)
    ensures Or(x, 0) == x
    decreases if x < 0 then -x else x
  {
    if x != 0 && x != -1 { OrZero(x / 2); }
  }

  /** Or-ing a bit into an even number adds it. */
  lemma OrBit(h: int, b: int)
    requires b == 0 || b == 1
    ensures Or(2 * h, b) == 2 * h + b
  {
    assert Pow2(1) == 2;
    OrAdds(h, b, 1);
  }

  lemma {:induction false} XorLowOnes(x: int, k: nat)
    requires 0 <= x < Pow2(k)
    ensures Xor(x, Pow2(k) - 1) == Pow2(k) - 1 - x
  {
    if k != 0 && x != 0 {
      assert (Pow2(k) - 1) / 2 == Pow2(k - 1) - 1;
      XorLowOnes(x / 2, k - 1);
    }
  }

  lemma Pow2Values()
    ensures Pow2(8) == 0x100 && Pow2(16) == 0x1_0000 && Pow2(24) == 0x100_0000
    ensures Pow2(32) == WORD
  {
    assert Pow2(4) == 16;
    assert Pow2(8) == 0x100;
    assert Pow2(12) == 0x1000;
    assert Pow2(16) == 0x1_0000;
    assert Pow2(20) == 0x10_0000;
    assert Pow2(24) == 0x100_0000;
    assert Pow2(28) == 0x1000_0000;
    assert Pow2(32) == 0x1_0000_0000;
  }

  /** `_binary_to_signed`. */
  function Signed(x: int): int {
    if x > 0x7fff_ffff then x - WORD else x
  }

  /** The four bytes `struct.pack(">I", w)` yields. */
  function Packed(w: int): (bytes: seq<Byte>)
    ensures |bytes| == 4
  {
    [(w / 0x100_0000) % 256, (w / 0x1_0000) % 256, (w / 0x100) % 256, w % 256]
  }

  lemma PackedZero()
    ensures Packed(0) == [0, 0, 0, 0]
  {
  }

  function Unpacked(b0: Byte, b1: Byte, b2: Byte, b3: Byte): (w: int)
    ensures 0 <= w <= MAXVAL
  {
    b0 * 0x100_0000 + b1 * 0x1_0000 + b2 * 0x100 + b3
  }

  /** A word packed and unpacked is the word. */
  lemma UnpackPacked(w: int)
    requires 0 <= w <= MAXVAL
    ensures var p := Packed(w); Unpacked(p[0], p[1], p[2], p[3]) == w
  {
    var q1, r0 := w / 0x100, w % 0x100;
    var q2, r1 := q1 / 0x100, q1 % 0x100;
    var q3, r2 := q2 / 0x100, q2 % 0x100;
    assert w / 0x1_0000 == q2 by { assert w == 0x1_0000 * q2 + (0x100 * r1 + r0); }
    assert w / 0x100_0000 == q3 by { assert w == 0x100_0000 * q3 + (0x1_0000 * r2 + 0x100 * r1 + r0); }
    assert w == 0x100_0000 * q3 + 0x1_0000 * r2 + 0x100 * r1 + r0;
  }

  /** Or-ing in a lower lane of a word adds it. */
  lemma OrLane(h: int, b: Byte, lane: int)
    requires lane == 0 || lane == 1 || lane == 2
    ensures lane == 0 ==> Or(h * 0x100, b) == h * 0x100 + b
    ensures lane == 1 ==> Or(h * 0x1_0000, b * 0x100) == h * 0x1_0000 + b * 0x100
    ensures lane == 2 ==> Or(h * 0x100_0000, b * 0x1_0000) == h * 0x100_0000 + b * 0x1_0000
  {
    hide Or, Pow2;
    Pow2Values();
    match lane
    case 0 => OrAdds(h, b, 8);
    case 1 => OrAdds(h, b * 0x100, 16);
    case 2 => OrAdds(h, b * 0x1_0000, 24);
  }

  /** The word that four byte loads or-ed together make. */
  lemma OrWord(b0: Byte, b1: Byte, b2: Byte, b3: Byte)
    ensures Or(Or(Or(b0 * 0x100_0000, b1 * 0x1_0000), b2 * 0x100), b3) == Unpacked(b0, b1, b2, b3)
  {
    hide Or;
    OrLane(b0, b1, 2);
    OrLane(b0 * 0x100 + b1, b2, 1);
    OrLane(b0 * 0x1_0000 + b1 * 0x100 + b2, b3, 0);
  }
}
