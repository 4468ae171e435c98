/** What the instructions that calculate and move do, opcode by opcode, from their words in memory. */
module Calculations {
  import opened Words
  import opened Status
  import opened Machine
  import opened Instructions
  import opened Invariants
  import opened Fetch
  import opened Runs
  import opened Meanings
  import Division
  import Grammar
  import Lanes
  import Protection

  // -------- arithmetic --------

  /** The second operand: a register, or the word itself. */
  function Operand(m: State, b: int, imm: bool): int
    requires !imm ==> 0 <= b < RSVD
  {
    if imm then b else Reads(m, b)
  }

  /** Two registers or a register and a word, into a third register. */
  predicate Three(m: State, a: int, b: int, c: int, imm: bool) {
    Source(m, a) && (!imm ==> Source(m, b)) && Target(m, c)
  }

  /** The machine and the second register as the arithmetic sees them. */
  function Prepared(f: State, b: int, imm: bool): State { if imm then Put(f, RSVD, b) else f }

  function Second(b: int, imm: bool): int { if imm then RSVD else b }

  /** What the arithmetic reads, and that its preparation shows nowhere a program can look. */
  lemma Prepares(m: State, f: State, a: int, b: int, c: int, imm: bool)
    requires Ready(m) && Ready(f) && Three(m, a, b, c, imm) && b >= 0
    requires f.regs[PC] == m.regs[PC] + 16 && forall r :: 0 <= r < RSVD && r != PC ==> f.regs[r] == m.regs[r]
    ensures var p, s := Prepared(f, b, imm), Second(b, imm);
      && Ready(p) && p == f.(regs := p.regs) && (forall r :: 0 <= r < RSVD ==> p.regs[r] == f.regs[r])
      && Look(p, a) == p && Look(p, s) == p && Val(p, a) == Reads(m, a) && Val(p, s) == Operand(m, b, imm)
      && Val(p, a) >= 0 && Val(p, s) >= 0 && Target(p, c) && 0 <= s <= RSVD && s != FC
  {
    hide HasBit;
  }

  lemma ResultExact(f: State, r: int, result: int)
    requires Ready(f) && Target(f, r)
    ensures SetResult(f, r, result) == f.(regs := f.regs[r := result % WORD][CARRY := if result > MAXVAL then 1 else 0])
  {
    hide HasBit, Set;
    SetTarget(f, r, result % WORD);
    SetTarget(f.(regs := f.regs[r := result % WORD]), CARRY, if result > MAXVAL then 1 else 0);
  }

  lemma AddMul(p: State, a: int, s: int, c: int)
    requires Ready(p) && Look(p, a) == p && Look(p, s) == p && Target(p, c)
    ensures Add(p, a, s, c) == SetResult(p, c, Val(p, a) + Val(p, s))
    ensures Mul(p, a, s, c) == SetResult(p, c, Val(p, a) * Val(p, s))
  {
    hide SetResult, Look;
  }

  /** `sub` goes through the reserved register; what is there afterwards cannot be named. */
  lemma SubExact(p: State, a: int, s: int, c: int)
    requires Ready(p) && Look(p, a) == p && Look(p, s) == p && Target(p, c) && 0 <= a < RSVD
    ensures var n := Sub(p, a, s, c); var d := Val(p, a) - Val(p, s);
      n == p.(regs := p.regs[RSVD := -Val(p, s)][c := d % WORD][CARRY := if d > MAXVAL then 1 else 0])
  {
    hide SetResult, HasBit;
    var q := Put(p, RSVD, -Val(p, s));
    assert q == p.(regs := p.regs[RSVD := -Val(p, s)]);
    assert Look(q, a) == q && Look(q, RSVD) == q && Target(q, c);
    AddMul(q, a, RSVD, c);
    ResultExact(q, c, Val(p, a) - Val(p, s));
  }

  /** The registers an arithmetic instruction leaves. */
  function Outcome(c: int, result: int): map<int, int> {
    map[c := result % WORD][CARRY := if result > MAXVAL then 1 else 0]
  }

  /** The operands are at hand, and the arithmetic can start. */
  predicate Poised(m: State, p: State, a: int, b: int, c: int, imm: bool)
    requires 0 <= a < RSVD && (!imm ==> 0 <= b < RSVD)
  {
    var s := Second(b, imm);
    && Ready(p) && Look(p, a) == p && Look(p, s) == p && Target(p, c) && 0 <= s <= RSVD && s != FC
    && Val(p, a) == Reads(m, a) && Val(p, s) == Operand(m, b, imm) && Val(p, a) >= 0 && Val(p, s) >= 0
    && Reached(m, p)
  }

  /** The step of an arithmetic instruction, up to the arithmetic. */
  lemma ArithmeticRuns(m: State, o: int, f: Arithmetic, a: int, b: int, c: int, imm: bool, bus: Bus) returns (p: State)
    requires Ready(m) && b >= 0 && Three(m, a, b, c, imm) && At(m, o, a, b, c, bus)
    requires 0 <= o < OPCODES && Decode(o) == if imm then ArithI(f) else Arith(f)
    ensures Poised(m, p, a, b, c, imm)
    ensures var n := Arithmetic3(p, f, a, Second(b, imm), c); n.ctl != Privileged ==> Step(m, bus) == n
  {
    hide Step, HasBit, At, Look, Arithmetic3, Decode;
    var op := if imm then ArithI(f) else Arith(f);
    Allowed(m, op, a, b, c, imm);
    var g := Executed(m, o, a, b, c, bus, op);
    Prepares(m, g, a, b, c, imm);
    p := Prepared(g, b, imm);
    ArithmeticMeans(g, op, a, b, c, bus);
  }

  lemma AddPoised(m: State, p: State, a: int, b: int, c: int, imm: bool)
    requires 0 <= a < RSVD && (!imm ==> 0 <= b < RSVD) && 0 <= c < RSVD && Poised(m, p, a, b, c, imm)
    ensures var n := Add(p, a, Second(b, imm), c); var v := Reads(m, a) + Operand(m, b, imm);
      Does(m, n, Outcome(c, v)) && n.ctl == Running
    ensures var n := Mul(p, a, Second(b, imm), c); var v := Reads(m, a) * Operand(m, b, imm);
      Does(m, n, Outcome(c, v)) && n.ctl == Running
    ensures var n := Sub(p, a, Second(b, imm), c); var v := Reads(m, a) - Operand(m, b, imm);
      Does(m, n, Outcome(c, v)) && n.ctl == Running
  {
    hide Add, Mul, Sub, SetResult, Look, Target, Outcome, HasBit;
    var x, y := Reads(m, a), Operand(m, b, imm);
    AddMul(p, a, Second(b, imm), c);
    ResultExact(p, c, x + y);
    ResultExact(p, c, x * y);
    SubExact(p, a, Second(b, imm), c);
    assert p.regs[RSVD := p.regs[RSVD]] == p.regs;
    ResultDoes(m, p, SetResult(p, c, x + y), c, x + y, p.regs[RSVD]);
    ResultDoes(m, p, SetResult(p, c, x * y), c, x * y, p.regs[RSVD]);
    ResultDoes(m, p, Sub(p, a, Second(b, imm), c), c, x - y, -y);
  }

  lemma Allowed(m: State, op: Op, a: int, b: int, c: int, imm: bool)
    requires Three(m, a, b, c, imm)
    requires if imm then op.ArithI? || op.BitsI? else op.Arith? || op.Bits?
    ensures !BadOperands(op, a, b, c)
  {
  }

  lemma ArithmeticMeans(g: State, op: Op, a: int, b: int, c: int, bus: Bus)
    ensures op.Arith? ==> Execute(g, op, a, b, c, bus) == Arithmetic3(g, op.a, a, b, c)
    ensures op.ArithI? ==> Execute(g, op, a, b, c, bus) == Arithmetic3(Put(g, RSVD, b), op.ai, a, RSVD, c)
  {
    hide Arithmetic3;
  }

  /** The state after the fetch, but for registers that cannot be named. */
  predicate Reached(m: State, p: State) {
    && p.ctl == Running && p.pending == m.pending && SameMemory(m, p)
    && forall r :: 0 <= r < RSVD ==> p.regs[r] == if r == PC then m.regs[PC] + 16 else m.regs[r]
  }

  lemma ResultDoes(m: State, p: State, n: State, c: int, result: int, w: int)
    requires Reached(m, p) && 0 <= c < RSVD
    requires n == p.(regs := p.regs[RSVD := w][c := result % WORD][CARRY := if result > MAXVAL then 1 else 0])
    ensures Does(m, n, Outcome(c, result))
  {
  }

  lemma Decodes()
    ensures Decode(0x0f) == Arith(AddOp) && Decode(0x14) == ArithI(AddOp)
    ensures Decode(0x10) == Arith(SubOp) && Decode(0x15) == ArithI(SubOp)
    ensures Decode(0x11) == Arith(MulOp) && Decode(0x16) == ArithI(MulOp)
    ensures Decode(0x12) == Arith(DivOp) && Decode(0x17) == ArithI(DivOp)
    ensures Decode(0x13) == Arith(ModOp) && Decode(0x18) == ArithI(ModOp)
  {
  }

  lemma Ranges(m: State, a: int, b: int, c: int, imm: bool)
    requires Three(m, a, b, c, imm)
    ensures 0 <= a < RSVD && 0 <= c < RSVD && (!imm ==> 0 <= b < RSVD)
  {
  }

  lemma SmallDifference(m: State, n: State, a: int, b: int, c: int, imm: bool)
    requires Ready(m) && b >= 0 && Three(m, a, b, c, imm)
    ensures Word(Reads(m, a)) ==>
      Outcome(c, Reads(m, a) - Operand(m, b, imm)) == map[c := (Reads(m, a) - Operand(m, b, imm)) % WORD][CARRY := 0]
  {
  }

  /** 0x0f and 0x14: `add` and `addi` give the sum modulo 2^32 and its carry. */
  lemma AddStep(m: State, a: int, b: int, c: int, imm: bool, bus: Bus)
    requires Ready(m) && b >= 0 && Three(m, a, b, c, imm) && At(m, if imm then 0x14 else 0x0f, a, b, c, bus)
    ensures Does(m, Step(m, bus), Outcome(c, Reads(m, a) + Operand(m, b, imm)))
  {
    hide Step, At, Ready, Source, Target, Poised, Does, Outcome, Add, Sub, Mul, Div, Decode;
    Decodes();
    assert 0 <= a < RSVD && 0 <= c < RSVD && (!imm ==> 0 <= b < RSVD) by { Ranges(m, a, b, c, imm); }
    var p := ArithmeticRuns(m, if imm then 0x14 else 0x0f, AddOp, a, b, c, imm, bus);
    AddPoised(m, p, a, b, c, imm);
  }

  /** 0x10 and 0x15: `sub` and `subi` give the difference modulo 2^32; on 32-bit operands the carry is
      always 0. */
  lemma SubStep(m: State, a: int, b: int, c: int, imm: bool, bus: Bus)
    requires Ready(m) && b >= 0 && Three(m, a, b, c, imm) && At(m, if imm then 0x15 else 0x10, a, b, c, bus)
    ensures Does(m, Step(m, bus), Outcome(c, Reads(m, a) - Operand(m, b, imm)))
    ensures Word(Reads(m, a)) ==>
      Does(m, Step(m, bus), map[c := (Reads(m, a) - Operand(m, b, imm)) % WORD][CARRY := 0])
  {
    hide Step, At, Ready, Source, Target, Poised, Does, Outcome, Add, Sub, Mul, Div, Decode;
    Decodes();
    assert 0 <= a < RSVD && 0 <= c < RSVD && (!imm ==> 0 <= b < RSVD) by { Ranges(m, a, b, c, imm); }
    var p := ArithmeticRuns(m, if imm then 0x15 else 0x10, SubOp, a, b, c, imm, bus);
    AddPoised(m, p, a, b, c, imm);
    SmallDifference(m, Step(m, bus), a, b, c, imm);
  }

  /** 0x11 and 0x16: `mul` and `muli` give the product modulo 2^32; the carry says whether it was cut. */
  lemma MulStep(m: State, a: int, b: int, c: int, imm: bool, bus: Bus)
    requires Ready(m) && b >= 0 && Three(m, a, b, c, imm) && At(m, if imm then 0x16 else 0x11, a, b, c, bus)
    ensures Does(m, Step(m, bus), Outcome(c, Reads(m, a) * Operand(m, b, imm)))
  {
    hide Step, At, Ready, Source, Target, Poised, Does, Outcome, Add, Sub, Mul, Div, Decode;
    Decodes();
    assert 0 <= a < RSVD && 0 <= c < RSVD && (!imm ==> 0 <= b < RSVD) by { Ranges(m, a, b, c, imm); }
    var p := ArithmeticRuns(m, if imm then 0x16 else 0x11, MulOp, a, b, c, imm, bus);
    AddPoised(m, p, a, b, c, imm);
  }

  /** 0x12, 0x17, 0x13 and 0x18: `div`, `divi`, `mod` and `modi` trap to 0xfffff020 on a zero divisor; on
      32-bit operands and divisors up to 2^31 they give quotient and remainder, and carry 0. */
  lemma DivStep(m: State, a: int, b: int, c: int, imm: bool, quotient: bool, bus: Bus)
    requires Ready(m) && b >= 0 && Three(m, a, b, c, imm)
    requires At(m, (if quotient then 0x12 else 0x13) + (if imm then 5 else 0), a, b, c, bus)
    ensures Operand(m, b, imm) == 0 ==> Enters(m, Step(m, bus), 0xffff_f020)
    ensures var x, y := Reads(m, a), Operand(m, b, imm);
      Word(x) && 0 < y <= 0x8000_0000 ==>
        Does(m, Step(m, bus), map[c := if quotient then x / y else x % y][CARRY := 0])
    ensures var x, y := Reads(m, a), Operand(m, b, imm);
      y > 0 ==> var d := Division.DivMod(x, y);
        Does(m, Step(m, bus), map[c := (if quotient then d.0 else d.1) % WORD][CARRY := 0])
  {
    hide Step, At, Ready, Source, Target, Poised, Does, Enters, Add, Sub, Mul, Div, Decode, Division.DivMod;
    Decodes();
    assert 0 <= a < RSVD && 0 <= c < RSVD && (!imm ==> 0 <= b < RSVD) by { Ranges(m, a, b, c, imm); }
    var f := if quotient then DivOp else ModOp;
    var o := (if quotient then 0x12 else 0x13) + (if imm then 5 else 0);
    var p := ArithmeticRuns(m, o, f, a, b, c, imm, bus);
    DivPoised(m, p, a, b, c, imm, quotient);
  }

  lemma DivPoised(m: State, p: State, a: int, b: int, c: int, imm: bool, quotient: bool)
    requires Ready(m) && 0 <= a < RSVD && (!imm ==> 0 <= b < RSVD) && 0 <= c < RSVD && Poised(m, p, a, b, c, imm)
    ensures var n := Div(p, a, Second(b, imm), c, quotient); var x, y := Reads(m, a), Operand(m, b, imm);
      && n.ctl != Privileged
      && (y == 0 ==> Enters(m, n, 0xffff_f020))
      && (y > 0 ==> var d := Division.DivMod(x, y);
            Does(m, n, map[c := (if quotient then d.0 else d.1) % WORD][CARRY := 0]))
      && (Word(x) && 0 < y <= 0x8000_0000 ==> Does(m, n, map[c := if quotient then x / y else x % y][CARRY := 0]))
  {
    hide HasBit, Look, Div, Division.DivMod, Enters, Target;
    var s := Second(b, imm);
    var x, y := Reads(m, a), Operand(m, b, imm);
    if y == 0 {
      DivZero(p, a, s, c, quotient);
      ReachedTraps(m, p, TRAP_DIV);
    } else {
      DivExact(p, a, s, c, quotient);
      var d := Division.DivMod(x, y);
      var v := if quotient then d.0 else d.1;
      DivDoes(m, p, Div(p, a, s, c, quotient), c, v % WORD);
      if Word(x) && y <= 0x8000_0000 { Quotients(x, y); }
    }
  }

  lemma DivZero(p: State, a: int, s: int, c: int, quotient: bool)
    requires Ready(p) && Look(p, s) == p && Val(p, s) == 0
    ensures Div(p, a, s, c, quotient) == Trap(p, TRAP_DIV) && Trap(p, TRAP_DIV).ctl != Privileged
  {
    hide Look, Push;
  }

  lemma DivExact(p: State, a: int, s: int, c: int, quotient: bool)
    requires Ready(p) && Look(p, a) == p && Look(p, s) == p && Target(p, c) && Val(p, s) != 0
    ensures var d := Division.DivMod(Val(p, a), Val(p, s)); var v := if quotient then d.0 else d.1;
      Div(p, a, s, c, quotient) == p.(regs := p.regs[c := v % WORD][CARRY := 0])
  {
    hide Look, HasBit, Set, Division.DivMod;
    var d := Division.DivMod(Val(p, a), Val(p, s));
    var v := if quotient then d.0 else d.1;
    SetTarget(p, c, v % WORD);
    SetTarget(p.(regs := p.regs[c := v % WORD]), CARRY, 0);
  }

  lemma DivDoes(m: State, p: State, n: State, c: int, v: int)
    requires Reached(m, p) && 0 <= c < RSVD && n == p.(regs := p.regs[c := v][CARRY := 0])
    ensures Does(m, n, map[c := v][CARRY := 0])
  {
  }

  lemma Quotients(x: int, y: int)
    requires Word(x) && 0 < y <= 0x8000_0000
    ensures Division.DivMod(x, y) == (x / y, x % y) && (x / y) % WORD == x / y && (x % y) % WORD == x % y
  {
    hide Division.DivMod;
    Division.Correct(x, y);
    QuotientWord(x, y, x / y);
  }

  /** A trap taken from the state after the fetch. */
  lemma ReachedTraps(m: State, p: State, vector: int)
    requires Ready(m) && Reached(m, p) && Ready(p) && vector >= 0
    ensures Enters(m, Trap(p, vector), vector)
  {
    hide HasBit, Push;
  }

  // -------- bits --------

  /** One bit of a number. */
  predicate Bit(x: int, k: nat) { x / Pow2(k) % 2 == 1 }

  lemma BitLow(x: int)
    ensures Bit(x, 0) <==> x % 2 == 1
  {
  }

  /** The bitwise results, bit by bit. */
  lemma {:induction false} AndBits(x: int, y: int, k: nat)
    requires x >= 0 && y >= 0
    ensures Bit(And(x, y), k) <==> Bit(x, k) && Bit(y, k)
    decreases k
  {
    hide And, Bit;
    Lanes.AndStep(x, y);
    if k == 0 {
      BitLow(x);
      BitLow(y);
      BitLow(And(x, y));
    } else {
      AndBits(x / 2, y / 2, k - 1);
      BitHalf(x, k);
      BitHalf(y, k);
      BitHalf(And(x, y), k);
    }
  }

  lemma {:induction false} OrBits(x: int, y: int, k: nat)
    requires x >= 0 && y >= 0
    ensures Bit(Or(x, y), k) <==> Bit(x, k) || Bit(y, k)
    decreases k
  {
    hide Or, Bit;
    Lanes.OrStep(x, y);
    if k == 0 {
      BitLow(x);
      BitLow(y);
      BitLow(Or(x, y));
    } else {
      OrBits(x / 2, y / 2, k - 1);
      BitHalf(x, k);
      BitHalf(y, k);
      BitHalf(Or(x, y), k);
    }
  }

  lemma {:induction false} XorBits(x: int, y: int, k: nat)
    requires x >= 0 && y >= 0
    ensures Bit(Xor(x, y), k) <==> Bit(x, k) != Bit(y, k)
    decreases k
  {
    hide Xor, Bit;
    XorStep(x, y);
    if k == 0 {
      BitLow(x);
      BitLow(y);
      BitLow(Xor(x, y));
    } else {
      XorBits(x / 2, y / 2, k - 1);
      BitHalf(x, k);
      BitHalf(y, k);
      BitHalf(Xor(x, y), k);
    }
  }

  lemma XorStep(x: int, y: int)
    requires x >= 0
    ensures Xor(x, y) == 2 * Xor(x / 2, y / 2) + (if x % 2 == y % 2 then 0 else 1)
  {
  }

  lemma BitHalf(x: int, k: nat)
    requires k > 0 && x >= 0
    ensures Bit(x, k) == Bit(x / 2, k - 1)
  {
    var p := Pow2(k - 1);
    var q, r := x / 2 / p, x / 2 % p;
    assert x / 2 == p * q + r;
    assert x == (2 * p) * q + (2 * r + x % 2) by { Doubled(q, p); }
    DivideExact(2 * p, q, 2 * r + x % 2);
  }

  /** The result is defined by its bits. */
  ghost predicate BitwiseOf(f: Bitwise, x: int, y: int, v: int) {
    match f
    case AndOp => v >= 0 && forall k: nat :: Bit(v, k) <==> Bit(x, k) && Bit(y, k)
    case OrOp => v >= 0 && forall k: nat :: Bit(v, k) <==> Bit(x, k) || Bit(y, k)
    case XorOp => v >= 0 && forall k: nat :: Bit(v, k) <==> Bit(x, k) != Bit(y, k)
    case ShlOp => y >= 0 && v == x * Pow2(y) % WORD
    case ShrOp => y >= 0 && v == x / Pow2(y)
  }

  /** The opcodes, in the order of the table. */
  function BitsOpcode(f: Bitwise, imm: bool): int {
    match f
    case AndOp => if imm then 0x3c else 0x39
    case OrOp => if imm then 0x3d else 0x3a
    case XorOp => if imm then 0x3e else 0x3b
    case ShlOp => if imm then 0x42 else 0x40
    case ShrOp => if imm then 0x43 else 0x41
  }

  lemma BitsDecode(f: Bitwise, imm: bool)
    ensures Decode(BitsOpcode(f, imm)) == if imm then BitsI(f) else Bits(f)
  {
  }

  /** 0x39 to 0x3e and 0x40 to 0x43: `and`, `or`, `xor`, `shl` and `shr` and their immediate forms. */
  lemma BitsStep(m: State, f: Bitwise, a: int, b: int, c: int, imm: bool, bus: Bus) returns (v: int)
    requires Ready(m) && b >= 0 && Three(m, a, b, c, imm) && At(m, BitsOpcode(f, imm), a, b, c, bus)
    ensures Does(m, Step(m, bus), map[c := v])
    ensures BitwiseOf(f, Reads(m, a), Operand(m, b, imm), v)
  {
    hide Step, HasBit, At, Look, Decode, BitwiseResult, BitwiseOf, SetBits;
    BitsDecode(f, imm);
    var op := if imm then BitsI(f) else Bits(f);
    Allowed(m, op, a, b, c, imm);
    var g := Executed(m, BitsOpcode(f, imm), a, b, c, bus, op);
    var x, y := Reads(m, a), Operand(m, b, imm);
    v := BitwiseResult(f, x, y);
    BitwiseMeans(f, x, y);
    BitsExact(g, f, x, y, c);
    BitsMeans(g, op, a, b, c, bus);
  }

  lemma BitwiseMeans(f: Bitwise, x: int, y: int)
    requires x >= 0 && y >= 0
    ensures BitwiseOf(f, x, y, BitwiseResult(f, x, y)) && BitwiseResult(f, x, y) >= 0
  {
    hide And, Or, Xor, Pow2, Bit;
    forall k: nat
      ensures f.AndOp? ==> (Bit(And(x, y), k) <==> Bit(x, k) && Bit(y, k))
      ensures f.OrOp? ==> (Bit(Or(x, y), k) <==> Bit(x, k) || Bit(y, k))
      ensures f.XorOp? ==> (Bit(Xor(x, y), k) <==> Bit(x, k) != Bit(y, k))
    {
      AndBits(x, y, k);
      OrBits(x, y, k);
      XorBits(x, y, k);
    }
    if f.ShrOp? { assert x / Pow2(y) >= 0; }
  }

  lemma BitsExact(g: State, f: Bitwise, x: int, y: int, c: int)
    requires Ready(g) && Target(g, c) && x >= 0 && y >= 0
    ensures SetBits(g, f, x, y, c) == g.(regs := g.regs[c := BitwiseResult(f, x, y)])
  {
    hide Set, BitwiseResult, HasBit;
    SetTarget(g, c, BitwiseResult(f, x, y));
  }

  lemma BitsMeans(g: State, op: Op, a: int, b: int, c: int, bus: Bus)
    ensures op.Bits? ==>
      Execute(g, op, a, b, c, bus) == SetBits(Look(Look(g, a), b), op.b, Val(g, a), Val(g, b), c)
    ensures op.BitsI? ==> Execute(g, op, a, b, c, bus) == SetBits(Look(g, a), op.bi, Val(g, a), b, c)
  {
    hide SetBits, Look;
  }

  // -------- moves --------

  lemma MovesDecode()
    ensures Decode(0x00).Nop? && Decode(0x0a).LoadWI? && Decode(0x0c).LoadBI? && Decode(0x36).Wait?
  {
  }

  lemma OthersDecode()
    ensures Decode(0x37).Swap? && Decode(0x38).Copy? && Decode(0x3f).Not? && Decode(0x44).CpuId?
  {
  }

  /** What the plain instructions execute to. */
  lemma PlainMeans(f: State, a: int, b: int, c: int, bus: Bus)
    ensures Execute(f, Nop, a, b, c, bus) == f && Execute(f, Wait, a, b, c, bus) == f
    ensures Execute(f, CpuId, a, b, c, bus) == Set(f, RES, 6)
    ensures Execute(f, LoadWI, a, b, c, bus) == Set(f, a, b)
    ensures Execute(f, LoadBI, a, b, c, bus) == Set(f, a, b % 256)
  {
    hide Set, SaveWord, LoadWord, SaveByte, LoadByte, SaveWordI, InstallTrap, Arithmetic3, BranchTo, BranchImm,
         SwapRegs, SetBits, Rfe, Intr, Jump;
  }

  /** 0x00 `nop`; and 0x36 `wait`, whose waiting is the concern of the two threads. */
  lemma PlainSteps(m: State, o: int, a: int, b: int, c: int, bus: Bus)
    requires Ready(m) && At(m, o, a, b, c, bus) && (o == 0x00 || o == 0x36)
    ensures Does(m, Step(m, bus), map[])
  {
    hide Step, HasBit, At, Look, Decode, Execute, Source;
    MovesDecode();
    var f := Executed(m, o, a, b, c, bus, if o == 0x00 then Nop else Wait);
    PlainMeans(f, a, b, c, bus);
  }

  /** 0x44 `cpuid` answers 6 in the result register. */
  lemma CpuIdStep(m: State, a: int, b: int, c: int, bus: Bus)
    requires Ready(m) && At(m, 0x44, a, b, c, bus)
    ensures Does(m, Step(m, bus), map[RES := 6])
  {
    hide Step, HasBit, At, Look, Decode, Execute, Set;
    OthersDecode();
    var f := Executed(m, 0x44, a, b, c, bus, CpuId);
    PlainMeans(f, a, b, c, bus);
    SetTarget(f, RES, 6);
  }

  /** 0x0a `loadwi` and 0x0c `loadbi` put the word, or its low byte, into the register. */
  lemma ImmediateSteps(m: State, o: int, a: int, b: int, c: int, bus: Bus)
    requires Ready(m) && At(m, o, a, b, c, bus) && Target(m, a) && (o == 0x0a || o == 0x0c)
    ensures Does(m, Step(m, bus), map[a := if o == 0x0a then b else b % 256])
  {
    hide Step, HasBit, At, Look, Decode, Execute, Set;
    MovesDecode();
    var f := Executed(m, o, a, b, c, bus, if o == 0x0a then LoadWI else LoadBI);
    PlainMeans(f, a, b, c, bus);
    SetTarget(f, a, b);
    SetTarget(f, a, b % 256);
  }

  /** 0x38 `copy`, and 0x3f `not`: the complement within 32 bits. */
  lemma CopySteps(m: State, o: int, a: int, b: int, c: int, bus: Bus)
    requires Ready(m) && At(m, o, a, b, c, bus)
    ensures o == 0x38 && Target(m, a) && Source(m, b) ==> Does(m, Step(m, bus), map[a := Reads(m, b)])
    ensures o == 0x3f && Source(m, a) && Target(m, b) && Word(Reads(m, a)) ==>
      Does(m, Step(m, bus), map[b := MAXVAL - Reads(m, a)])
  {
    hide Step, HasBit, At, Look, Decode;
    OthersDecode();
    if o == 0x38 && Target(m, a) && Source(m, b) {
      var f := Executed(m, o, a, b, c, bus, Copy);
      SetTarget(f, a, Reads(m, b));
    } else if o == 0x3f && Source(m, a) && Target(m, b) && Word(Reads(m, a)) {
      var f := Executed(m, o, a, b, c, bus, Not);
      SetTarget(f, b, MAXVAL - Reads(m, a));
    }
  }

  /** 0x37 `swap`: the second register's number into the first, the first's contents into the second. */
  lemma SwapStep(m: State, a: int, b: int, c: int, bus: Bus)
    requires Ready(m) && At(m, 0x37, a, b, c, bus) && Target(m, a) && Target(m, b) && a != b
    ensures Does(m, Step(m, bus), map[a := b, b := Reads(m, a)])
  {
    hide Step, HasBit, At, Look, Decode, SwapRegs;
    OthersDecode();
    var f := Executed(m, 0x37, a, b, c, bus, Swap);
    Protection.SwapContents(f, a, b);
  }
}
