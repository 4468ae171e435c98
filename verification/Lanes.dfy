/** Byte lanes of device registers: the 32-bit setter whose mask table runs against its shift, and
    the 64-bit one whose table does not. */
module Lanes {
  import opened Words

  // -------- a number as its bytes, most significant first --------

  function Join(l: seq<Byte>): (n: int)
    ensures n >= 0
  {
    if |l| == 0 then 0 else 256 * Join(l[..|l| - 1]) + l[|l| - 1]
  }

  function Split(n: int, k: nat): (l: seq<Byte>)
    requires n >= 0
    ensures |l| == k
  {
    if k == 0 then [] else Split(n / 256, k - 1) + [n % 256]
  }

  lemma {:induction false} JoinSplit(n: int, k: nat)
    requires 0 <= n < Pow2(8 * k)
    ensures Join(Split(n, k)) == n
  {
    if k != 0 {
      Pow2Byte(k - 1);
      JoinSplit(n / 256, k - 1);
      var l := Split(n, k);
      assert l[..k - 1] == Split(n / 256, k - 1);
    }
  }

  lemma Pow2Byte(k: nat)
    ensures Pow2(8 * (k + 1)) == 256 * Pow2(8 * k)
  {
    var n := 8 * k;
    assert Pow2(n + 2) == 4 * Pow2(n);
    assert Pow2(n + 4) == 4 * Pow2(n + 2);
    assert Pow2(n + 6) == 4 * Pow2(n + 4);
    assert Pow2(n + 8) == 4 * Pow2(n + 6);
  }

  // -------- bitwise operators lane by lane --------

  lemma AndStep(x: int, y: int)
    requires x >= 0
    ensures And(x, y) == 2 * And(x / 2, y / 2) + (if x % 2 == 1 && y % 2 == 1 then 1 else 0)
  {
  }

  lemma OrStep(x: int, y: int)
    requires x >= 0
    ensures Or(x, y) == 2 * Or(x / 2, y / 2) + (if x % 2 == 1 then 1 else y % 2)
  {
  }

  lemma {:induction false} AndSplit(x: int, y: int, a: int, b: int, k: nat)
    requires 0 <= x && 0 <= a < Pow2(k) && 0 <= b < Pow2(k)
    ensures And(x * Pow2(k) + a, y * Pow2(k) + b) == And(x, y) * Pow2(k) + And(a, b)
    decreases k
  {
    hide And;
    if k == 0 {
      AndZero();
    } else {
      var p := Pow2(k - 1);
      var xp, yp := x * p, y * p;
      Doubled(x, p);
      Doubled(y, p);
      Doubled(And(x, y), p);
      Halves(xp, a);
      Halves(yp, b);
      AndStep(2 * xp + a, 2 * yp + b);
      AndStep(a, b);
      AndSplit(x, y, a / 2, b / 2, k - 1);
    }
  }

  lemma Halves(h: int, a: int)
    ensures (2 * h + a) / 2 == h + a / 2 && (2 * h + a) % 2 == a % 2
  {
  }

  lemma AndZero()
    ensures And(0, 0) == 0 && Or(0, 0) == 0
  {
  }

  lemma {:induction false} OrSplit(x: int, y: int, a: int, b: int, k: nat)
    requires 0 <= x && 0 <= a < Pow2(k) && 0 <= b < Pow2(k)
    ensures Or(x * Pow2(k) + a, y * Pow2(k) + b) == Or(x, y) * Pow2(k) + Or(a, b)
    decreases k
  {
    hide Or;
    if k == 0 {
      AndZero();
    } else {
      var p := Pow2(k - 1);
      var xp, yp := x * p, y * p;
      Doubled(x, p);
      Doubled(y, p);
      Doubled(Or(x, y), p);
      Halves(xp, a);
      Halves(yp, b);
      OrStep(2 * xp + a, 2 * yp + b);
      OrStep(a, b);
      OrSplit(x, y, a / 2, b / 2, k - 1);
    }
  }

  lemma {:induction false} AndOnes(b: int, k: nat)
    requires 0 <= b < Pow2(k)
    ensures And(Pow2(k) - 1, b) == b && And(b, Pow2(k) - 1) == b
  {
    hide And;
    if k == 0 {
      AndZero();
    } else {
      AndStep(Pow2(k) - 1, b);
      AndStep(b, Pow2(k) - 1);
      assert (Pow2(k) - 1) / 2 == Pow2(k - 1) - 1;
      AndOnes(b / 2, k - 1);
    }
  }

  /** `x & 0xff` and the like. */
  lemma AndLow(x: int, k: nat)
    requires x >= 0
    ensures And(x, Pow2(k) - 1) == x % Pow2(k)
  {
    hide And, Pow2;
    var p := Pow2(k);
    AndSplit(x / p, 0, x % p, p - 1, k);
    AndNothing(x / p);
    AndOnes(x % p, k);
    assert x / p * p + x % p == x;
  }

  lemma {:induction false} AndNothing(x: int)
    requires x >= 0
    ensures And(x, 0) == 0
  {
    if x != 0 { AndNothing(x / 2); }
  }

  lemma {:induction false} OrBounded(a: int, b: int, k: nat)
    requires 0 <= a < Pow2(k) && 0 <= b < Pow2(k)
    ensures Or(a, b) < Pow2(k)
  {
    if k != 0 { OrBounded(a / 2, b / 2, k - 1); }
  }

  function OrByte(a: Byte, b: Byte): Byte {
    Pow2Values();
    OrBounded(a, b, 8);
    Or(a, b)
  }

  function AndByte(a: Byte, b: Byte): Byte { And(a, b) }

  function AndLanes(a: seq<Byte>, b: seq<Byte>): (c: seq<Byte>)
    requires |a| == |b|
    ensures |c| == |a|
  {
    seq(|a|, i requires 0 <= i < |a| => AndByte(a[i], b[i]))
  }

  function OrLanes(a: seq<Byte>, b: seq<Byte>): (c: seq<Byte>)
    requires |a| == |b|
    ensures |c| == |a|
  {
    seq(|a|, i requires 0 <= i < |a| => OrByte(a[i], b[i]))
  }

  lemma {:induction false} AndJoin(a: seq<Byte>, b: seq<Byte>)
    requires |a| == |b|
    ensures And(Join(a), Join(b)) == Join(AndLanes(a, b))
  {
    hide And, Pow2;
    if |a| == 0 {
      AndZero();
    } else {
      var n := |a| - 1;
      AndJoin(a[..n], b[..n]);
      Pow2Values();
      AndSplit(Join(a[..n]), Join(b[..n]), a[n], b[n], 8);
      assert AndLanes(a, b)[..n] == AndLanes(a[..n], b[..n]);
    }
  }

  lemma {:induction false} OrJoin(a: seq<Byte>, b: seq<Byte>)
    requires |a| == |b|
    ensures Or(Join(a), Join(b)) == Join(OrLanes(a, b))
  {
    hide Or, Pow2;
    if |a| == 0 {
      AndZero();
    } else {
      var n := |a| - 1;
      OrJoin(a[..n], b[..n]);
      Pow2Values();
      OrSplit(Join(a[..n]), Join(b[..n]), a[n], b[n], 8);
      assert OrLanes(a, b)[..n] == OrLanes(a[..n], b[..n]);
    }
  }

  function Fill(v: Byte, k: nat): (l: seq<Byte>)
    ensures |l| == k
  {
    seq(k, _ => v)
  }

  /** A byte shifted to its lane. */
  lemma {:induction false} ShiftJoin(v: Byte, i: nat, k: nat)
    requires i < k
    ensures v * Pow2(8 * (k - 1 - i)) == Join(Fill(0, k)[i := v])
  {
    hide Pow2;
    var l := Fill(0, k)[i := v];
    if i == k - 1 {
      JoinZeros(k - 1);
      assert l[..k - 1] == Fill(0, k - 1);
      assert Pow2(0) == 1 by { Pow2Nothing(); }
    } else {
      ShiftJoin(v, i, k - 1);
      assert l[..k - 1] == Fill(0, k - 1)[i := v];
      Pow2Byte(k - 2 - i);
    }
  }

  lemma {:induction false} JoinZeros(k: nat)
    ensures Join(Fill(0, k)) == 0
  {
    if k != 0 {
      JoinZeros(k - 1);
      assert Fill(0, k)[..k - 1] == Fill(0, k - 1);
    }
  }

  /** A lane shifted down and masked. */
  lemma {:induction false} LaneJoin(l: seq<Byte>, i: nat)
    requires i < |l|
    ensures And(Join(l) / Pow2(8 * (|l| - 1 - i)), 0xff) == l[i]
  {
    hide And, Pow2;
    var n := |l| - 1;
    if i == n {
      LastLane(l);
    } else {
      LaneJoin(l[..n], i);
      Pow2Byte(n - 1 - i);
      ShiftByte(Join(l), Join(l[..n]), l[n], Pow2(8 * (n - 1 - i)));
    }
  }

  lemma LastLane(l: seq<Byte>)
    requires |l| > 0
    ensures And(Join(l) / Pow2(0), 0xff) == l[|l| - 1]
  {
    hide And, Pow2;
    Pow2Values();
    Pow2Nothing();
    AndLow(Join(l), 8);
  }

  lemma ShiftByte(n: int, h: int, b: Byte, p: int)
    requires n == 256 * h + b && p >= 1 && h >= 0
    ensures n / (256 * p) == h / p
  {
    var q, r := h / p, h % p;
    assert h == p * q + r;
    assert 256 * h == 256 * (p * q) + 256 * r;
    assert 256 * (p * q) == (256 * p) * q;
    DivideExact(256 * p, q, 256 * r + b);
  }

  // -------- the setters and getters --------

  function WordMask(j: nat): int {
    match j
    case 0 => 0x00ff_ffff
    case 1 => 0xff00_ffff
    case 2 => 0xffff_00ff
    case _ => 0xffff_ff00
  }

  function DoubleMask(j: nat): int {
    match j
    case 0 => 0xffff_ffff_ffff_ff00
    case 1 => 0xffff_ffff_ffff_00ff
    case 2 => 0xffff_ffff_ff00_ffff
    case 3 => 0xffff_ffff_00ff_ffff
    case 4 => 0xffff_ff00_ffff_ffff
    case 5 => 0xffff_00ff_ffff_ffff
    case 6 => 0xff00_ffff_ffff_ffff
    case _ => 0x00ff_ffff_ffff_ffff
  }

  function SetWordByte(num: int, byte: nat, val: int): int
    requires byte < 4
  {
    Or(And(WordMask(3 - byte), num), And(val, 0xff) * Pow2(8 * (3 - byte)))
  }

  function GetWordByte(num: int, byte: nat): int
    requires byte < 4
  {
    And(num / Pow2(8 * (3 - byte)), 0xff)
  }

  function SetDoubleByte(num: int, byte: nat, val: int): int
    requires byte < 8
  {
    Or(And(DoubleMask(7 - byte), num), And(val, 0xff) * Pow2(8 * (7 - byte)))
  }

  function GetDoubleByte(num: int, byte: nat): int
    requires byte < 8
  {
    And(num / Pow2(8 * (7 - byte)), 0xff)
  }

  // -------- what the setters do to the lanes --------

  /** All ones but for one lane. */
  function Hole(k: nat, i: nat): seq<Byte>
    requires i < k
  {
    Fill(0xff, k)[i := 0]
  }

  lemma {:induction false} JoinOnes(k: nat)
    ensures Join(Fill(0xff, k)) == Pow2(8 * k) - 1
  {
    if k != 0 {
      JoinOnes(k - 1);
      Pow2Byte(k - 1);
      assert Fill(0xff, k)[..k - 1] == Fill(0xff, k - 1);
    }
  }

  lemma {:induction false} JoinHole(k: nat, i: nat)
    requires i < k
    ensures Join(Hole(k, i)) == Pow2(8 * k) - 1 - 255 * Pow2(8 * (k - 1 - i))
  {
    hide Pow2;
    var l := Hole(k, i);
    Pow2Byte(k - 1);
    Pow2Nothing();
    if i == k - 1 {
      JoinOnes(k - 1);
      assert l[..k - 1] == Fill(0xff, k - 1);
    } else {
      JoinHole(k - 1, i);
      Pow2Byte(k - 2 - i);
      assert l[..k - 1] == Hole(k - 1, i);
    }
  }

  lemma MoreValues()
    ensures Pow2(0) == 1 && Pow2(40) == 0x100_0000_0000 && Pow2(48) == 0x1_0000_0000_0000
    ensures Pow2(56) == 0x100_0000_0000_0000 && Pow2(64) == 0x1_0000_0000_0000_0000
  {
    hide Pow2;
    Pow2Values();
    Pow2Nothing();
    Pow2Byte(4);
    Pow2Byte(5);
    Pow2Byte(6);
    Pow2Byte(7);
  }

  /** The 32-bit table masks the mirrored lane, the 64-bit one the lane itself. */
  lemma Masks(j: nat)
    ensures j < 4 ==> WordMask(j) == Join(Hole(4, j))
    ensures j < 8 ==> DoubleMask(j) == Join(Hole(8, 7 - j))
  {
    hide Pow2, Join;
    Pow2Values();
    MoreValues();
    if j < 4 { JoinHole(4, j); }
    if j < 8 { JoinHole(8, 7 - j); }
  }

  /** Clearing one lane and or-ing a byte into another. */
  lemma Merge(l: seq<Byte>, hole: nat, i: nat, v: Byte)
    requires hole < |l| && i < |l|
    ensures Or(And(Join(Hole(|l|, hole)), Join(l)), v * Pow2(8 * (|l| - 1 - i)))
         == Join(l[hole := 0][i := OrByte(l[hole := 0][i], v)])
  {
    hide And, Or, Pow2, Join;
    var k := |l|;
    AndJoin(Hole(k, hole), l);
    var cleared := AndLanes(Hole(k, hole), l);
    forall x | 0 <= x < k ensures cleared[x] == l[hole := 0][x] {
      Pow2Values();
      AndOnes(l[x], 8);
      AndNothingLeft(l[x]);
    }
    assert cleared == l[hole := 0];
    ShiftJoin(v, i, k);
    OrJoin(cleared, Fill(0, k)[i := v]);
    var merged := OrLanes(cleared, Fill(0, k)[i := v]);
    forall x | 0 <= x < k ensures merged[x] == cleared[i := OrByte(cleared[i], v)][x] {
      OrZero(cleared[x]);
    }
    assert merged == cleared[i := OrByte(cleared[i], v)];
  }

  lemma AndNothingLeft(b: int)
    ensures And(0, b) == 0
  {
  }

  function Smeared(l: seq<Byte>, i: nat, v: Byte): (m: seq<Byte>)
    requires |l| == 4 && i < 4
    ensures |m| == 4
  {
    l[3 - i := 0][i := OrByte(l[i], v)]
  }

  /** One byte written to a device word: or-ed into its own lane, and the mirrored lane lost. */
  lemma WordByteSet(l: seq<Byte>, i: nat, v: int)
    requires |l| == 4 && i < 4 && v >= 0
    ensures SetWordByte(Join(l), i, v) == Join(Smeared(l, i, v % 256))
  {
    hide And, Or, Pow2, Join, WordMask, OrByte;
    LowByte(v);
    Masks(3 - i);
    Merge(l, 3 - i, i, v % 256);
  }

  lemma LowByte(v: int)
    requires v >= 0
    ensures And(v, 0xff) == v % 256
  {
    hide And, Pow2;
    Pow2Values();
    AndLow(v, 8);
  }

  /** One byte written to a device double: its lane, and nothing else. */
  lemma DoubleByteSet(l: seq<Byte>, i: nat, v: int)
    requires |l| == 8 && i < 8 && v >= 0
    ensures SetDoubleByte(Join(l), i, v) == Join(l[i := v % 256])
  {
    hide And, Or, Pow2, Join;
    Pow2Values();
    AndLow(v, 8);
    Masks(7 - i);
    Merge(l, i, i, v % 256);
    OrNothing(v % 256);
    assert l[i := 0][i := v % 256] == l[i := v % 256];
  }

  lemma OrNothing(b: Byte)
    ensures OrByte(0, b) == b
  {
    assert OrByte(0, b) == Or(0, b);
  }

  // -------- words and doubles stored byte by byte --------

  /** Every double is read back lane by lane as it was set, and a lane set leaves the others. */
  lemma DoubleLanes(num: int, i: nat, c: nat, v: int)
    requires 0 <= num < Pow2(64) && i < 8 && c < 8 && v >= 0
    ensures GetDoubleByte(SetDoubleByte(num, i, v), c) == if c == i then v % 256 else GetDoubleByte(num, c)
  {
    hide And, Or, Pow2, Join;
    JoinSplit(num, 8);
    var l := Split(num, 8);
    DoubleByteSet(l, i, v);
    LaneJoin(l, c);
    LaneJoin(l[i := v % 256], c);
  }

  /** For words, the lane collects bits and the mirrored lane is lost. */
  lemma WordLanes(num: int, i: nat, c: nat, v: int)
    requires 0 <= num < WORD && i < 4 && c < 4 && v >= 0
    ensures GetWordByte(SetWordByte(num, i, v), c)
         == if c == i then Or(GetWordByte(num, i), v % 256) else if c == 3 - i then 0 else GetWordByte(num, c)
  {
    hide And, Or, Pow2, Join;
    Pow2Values();
    JoinSplit(num, 4);
    var l := Split(num, 4);
    WordByteSet(l, i, v);
    LaneJoin(l, c);
    LaneJoin(l, i);
    LaneJoin(Smeared(l, i, v % 256), c);
  }

  /** The lane is set and the others kept. */
  predicate LaneLaws(num: int, i: nat, v: int)
    requires i < 4
  {
    forall c: nat :: c < 4 ==>
      GetWordByte(SetWordByte(num, i, v), c) == if c == i then v % 256 else GetWordByte(num, c)
  }

  /** So a single byte written behaves exactly when its lane held no bit the new byte lacks and the
      mirrored lane was clear. */
  lemma WordLawsExactly(num: int, i: nat, v: int)
    requires 0 <= num < WORD && i < 4 && v >= 0
    ensures LaneLaws(num, i, v) <==> Or(GetWordByte(num, i), v % 256) == v % 256 && GetWordByte(num, 3 - i) == 0
  {
    hide GetWordByte, SetWordByte, Or;
    forall c: nat | c < 4
      ensures GetWordByte(SetWordByte(num, i, v), c)
        == if c == i then Or(GetWordByte(num, i), v % 256) else if c == 3 - i then 0 else GetWordByte(num, c)
    {
      WordLanes(num, i, c, v);
    }
  }

  /** The bytes of a word written in ascending order, as `savew` does. */
  function StoredWord(num: int, w: int): int {
    var p := Packed(w);
    SetWordByte(SetWordByte(SetWordByte(SetWordByte(num, 0, p[0]), 1, p[1]), 2, p[2]), 3, p[3])
  }

  /** Whatever the register held, a word stored leaves exactly its low 16 bits. */
  lemma StoredHalf(num: int, w: int)
    requires 0 <= num < WORD && 0 <= w < WORD
    ensures StoredWord(num, w) == w % 0x1_0000
  {
    hide SetWordByte, Join, Split, Packed, Pow2;
    Pow2Values();
    JoinSplit(num, 4);
    var l, p := Split(num, 4), Packed(w);
    hide Smeared;
    WordByteIn(l, 0, p[0]);
    var l1 := Smeared(l, 0, p[0]);
    WordByteIn(l1, 1, p[1]);
    var l2 := Smeared(l1, 1, p[1]);
    WordByteIn(l2, 2, p[2]);
    var l3 := Smeared(l2, 2, p[2]);
    WordByteIn(l3, 3, p[3]);
    FourSmears(l, p);
    LowHalf(w);
  }

  lemma WordByteIn(l: seq<Byte>, i: nat, b: Byte)
    requires |l| == 4 && i < 4
    ensures SetWordByte(Join(l), i, b) == Join(Smeared(l, i, b))
  {
    hide SetWordByte, Join, Smeared;
    WordByteSet(l, i, b);
  }

  lemma FourSmears(l: seq<Byte>, p: seq<Byte>)
    requires |l| == |p| == 4
    ensures Smeared(Smeared(Smeared(Smeared(l, 0, p[0]), 1, p[1]), 2, p[2]), 3, p[3]) == [0, 0, p[2], p[3]]
  {
    hide OrByte;
    OrNothing(p[2]);
    OrNothing(p[3]);
  }

  lemma LowHalf(w: int)
    requires 0 <= w < WORD
    ensures Join([0, 0, Packed(w)[2], Packed(w)[3]]) == w % 0x1_0000
  {
    var p := Packed(w);
    var l: seq<Byte> := [0, 0, p[2], p[3]];
    assert l[..3] == [0, 0, p[2]] && l[..3][..2] == [0, 0] && l[..3][..2][..1] == [0];
    assert Join([0]) == 0 by { assert [0][..0] == []; }
    assert Join(l[..3][..2]) == 0;
    assert Join(l[..3]) == p[2];
    assert w % 0x1_0000 == 256 * (w / 256 % 256) + w % 256;
  }

  /** So a word round-trips through a device register exactly when it is below 2^16. */
  lemma WordRoundTrips(num: int, w: int)
    requires 0 <= num < WORD && 0 <= w < WORD
    ensures StoredWord(num, w) == w <==> w < 0x1_0000
  {
    hide StoredWord;
    StoredHalf(num, w);
  }

  function StoredLanes(num: int, l: seq<Byte>): int
    requires |l| <= 8
  {
    if |l| == 0 then num else SetDoubleByte(StoredLanes(num, l[..|l| - 1]), |l| - 1, l[|l| - 1])
  }

  /** Eight bytes written to a double in ascending order leave just those. */
  lemma {:induction false} DoubleStored(old_: seq<Byte>, l: seq<Byte>)
    requires |old_| == 8 && |l| <= 8
    ensures StoredLanes(Join(old_), l) == Join(l + old_[|l|..])
  {
    hide SetDoubleByte, Join;
    var n := |l| - 1;
    if n < 0 {
      assert l + old_[|l|..] == old_;
    } else {
      DoubleStored(old_, l[..n]);
      var before := l[..n] + old_[n..];
      DoubleByteSet(before, n, l[n]);
      assert before[n := l[n]] == l + old_[n + 1..];
    }
  }

  /** So every 64-bit value round-trips through a double. */
  lemma DoubleRoundTrips(num: int, v: int)
    requires 0 <= num < Pow2(64) && 0 <= v < Pow2(64)
    ensures StoredLanes(num, Split(v, 8)) == v
  {
    hide StoredLanes, Join, Pow2;
    JoinSplit(num, 8);
    JoinSplit(v, 8);
    DoubleStored(Split(num, 8), Split(v, 8));
    assert Split(v, 8) + Split(num, 8)[8..] == Split(v, 8);
  }
}
