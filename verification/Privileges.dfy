/** The registers only the kernel may name: what a user program gets for naming one, and what the kernel
    gets for writing the status register. */
module Privileges {
  import opened Words
  import opened Status
  import opened Machine
  import opened Instructions
  import opened Invariants
  import opened Fetch
  import opened Runs
  import opened Meanings
  import opened Calculations
  import opened Protection
  import Division

  /** A register number the table admits. */
  predicate Nameable(r: int) { 0 <= r < RSVD && r != FC }

  lemma Refused(m: State, r: int)
    requires Ready(m) && UserMode(m) && Nameable(r)
    ensures IsPriv(r) ==> Look(m, r).ctl == Privileged && forall v :: Set(m, r, v).ctl == Privileged
    ensures !IsPriv(r) ==> Look(m, r) == m
  {
    hide HasBit, Trap;
  }

  /** A user program's machine, about to calculate. */
  predicate InUser(f: State) { Ready(f) && UserMode(f) }

  lemma ResultRaises(f: State, r: int, result: int)
    requires InUser(f) && IsPriv(r)
    ensures SetResult(f, r, result).ctl == Privileged
  {
    hide HasBit, Set;
    Refused(f, r);
    SetStopped(Set(f, r, result % WORD), CARRY);
  }

  lemma SumRaises(f: State, r1: int, r2: int, r3: int)
    requires InUser(f) && Nameable(r1) && (Nameable(r2) || r2 == RSVD) && Nameable(r3)
    requires IsPriv(r1) || IsPriv(r2) || IsPriv(r3)
    ensures Add(f, r1, r2, r3).ctl == Privileged && Mul(f, r1, r2, r3).ctl == Privileged
  {
    hide HasBit, SetResult;
    var l := Look(Look(f, r1), r2);
    if l.ctl == Running {
      ResultRaises(f, r3, Val(f, r1) + Val(f, r2));
      ResultRaises(f, r3, Val(f, r1) * Val(f, r2));
    } else {
      StoppedResult(l, r3, Val(f, r1) + Val(f, r2));
      StoppedResult(l, r3, Val(f, r1) * Val(f, r2));
    }
  }

  lemma DifferenceRaises(f: State, r1: int, r2: int, r3: int)
    requires InUser(f) && Nameable(r1) && (Nameable(r2) || r2 == RSVD) && Nameable(r3)
    requires IsPriv(r1) || IsPriv(r2) || IsPriv(r3)
    ensures Sub(f, r1, r2, r3).ctl == Privileged
  {
    hide HasBit, Add;
    if IsPriv(r2) {
      StoppedAdd(Look(f, r2), r1, RSVD, r3);
    } else {
      SumRaises(Put(f, RSVD, -Val(f, r2)), r1, RSVD, r3);
    }
  }

  lemma QuotientRaises(f: State, r1: int, r2: int, r3: int, quotient: bool)
    requires InUser(f) && Nameable(r1) && (Nameable(r2) || r2 == RSVD) && Nameable(r3)
    requires IsPriv(r1) || IsPriv(r2) || IsPriv(r3)
    requires !IsPriv(r2) ==> Val(f, r2) != 0
    ensures Div(f, r1, r2, r3, quotient).ctl == Privileged
  {
    hide HasBit, Set, Trap, Division.DivMod;
    var l := Look(f, r2);
    StoppedTrap(l, TRAP_DIV);
    if Val(f, r2) != 0 {
      var k := Look(l, r1);
      var d := Division.DivMod(Val(f, r1), Val(f, r2));
      var v := if quotient then d.0 else d.1;
      SetStopped(k, r3);
      Refused(f, r3);
      SetStopped(Set(k, r3, v % WORD), CARRY);
    }
  }

  lemma ArithmeticRaises(f: State, g: Arithmetic, r1: int, r2: int, r3: int)
    requires InUser(f) && Nameable(r1) && (Nameable(r2) || r2 == RSVD) && Nameable(r3)
    requires IsPriv(r1) || IsPriv(r2) || IsPriv(r3)
    requires (g.DivOp? || g.ModOp?) && !IsPriv(r2) ==> Val(f, r2) != 0
    ensures Arithmetic3(f, g, r1, r2, r3).ctl == Privileged
  {
    hide InUser, Add, Sub, Mul, Div;
    match g
    case AddOp => SumRaises(f, r1, r2, r3);
    case SubOp => DifferenceRaises(f, r1, r2, r3);
    case MulOp => SumRaises(f, r1, r2, r3);
    case DivOp => QuotientRaises(f, r1, r2, r3, true);
    case ModOp => QuotientRaises(f, r1, r2, r3, false);
  }

  lemma BranchRaises(f: State, k: Condition, r1: int, r2: int, to: int)
    requires InUser(f) && Nameable(r1) && (Nameable(r2) || r2 == RSVD) && (IsPriv(r1) || IsPriv(r2))
    ensures BranchTo(f, k, r1, r2, to).ctl == Privileged
  {
    hide HasBit, Jump, Holds;
    StoppedJump(Look(Look(f, r1), r2), to);
  }

  lemma BitsRaises(f: State, g: Bitwise, x: int, y: int, r: int)
    requires (f.ctl == Privileged) || (InUser(f) && IsPriv(r) && y >= 0)
    ensures SetBits(f, g, x, y, r).ctl == Privileged
  {
    hide HasBit, BitwiseResult, Set;
    if f.ctl == Running { Refused(f, r); }
  }

  lemma SwapsRaise(f: State, r1: int, r2: int)
    requires InUser(f) && Nameable(r1) && Nameable(r2) && (IsPriv(r1) || IsPriv(r2))
    ensures SwapRegs(f, r1, r2).ctl == Privileged
  {
    hide HasBit;
  }

  // -------- by instruction --------

  /** The words used as registers that the table says are; where a branch has its target in a register
      and a word to compare with, the table is wrong about the word. */
  predicate NamesPriv(op: Op, a: int, b: int, c: int) {
    var k := ArgTypes(op);
    (k.0 == Reg && IsPriv(a)) || (k.1 == Reg && !op.BranchRI? && IsPriv(b)) || (k.2 == Reg && IsPriv(c))
  }

  predicate AllNameable(op: Op, a: int, b: int, c: int) {
    var k := ArgTypes(op);
    (k.0 == Reg ==> Nameable(a)) && (k.1 == Reg && !op.BranchRI? ==> Nameable(b)) && (k.2 == Reg ==> Nameable(c))
  }

  lemma ComputeRaises(f: State, op: Op, a: int, b: int, c: int, bus: Bus)
    requires InUser(f) && IsComputeOp(op) && NamesPriv(op, a, b, c) && AllNameable(op, a, b, c) && b >= 0
    requires op.Arith? && (op.a.DivOp? || op.a.ModOp?) && !IsPriv(b) ==> Val(f, b) != 0
    requires op.ArithI? && (op.ai.DivOp? || op.ai.ModOp?) ==> b != 0
    ensures Execute(f, op, a, b, c, bus).ctl == Privileged
  {
    hide HasBit, Arithmetic3, SetBits;
    ArithmeticMeans(f, op, a, b, c, bus);
    BitsMeans(f, op, a, b, c, bus);
    match op
    case Arith(g) => ArithmeticRaises(f, g, a, b, c);
    case ArithI(g) => ArithmeticRaises(Put(f, RSVD, b), g, a, RSVD, c);
    case Bits(g) => BitsRaises(Look(Look(f, a), b), g, Val(f, a), Val(f, b), c);
    case BitsI(g) => BitsRaises(Look(f, a), g, Val(f, a), b, c);
    case _ =>
  }

  lemma BranchesRaise(f: State, op: Op, a: int, b: int, c: int, bus: Bus)
    requires InUser(f) && IsBranchOp(op) && NamesPriv(op, a, b, c) && AllNameable(op, a, b, c)
    ensures Execute(f, op, a, b, c, bus).ctl == Privileged
  {
    hide HasBit, BranchTo, Jump;
    match op
    case JmpR => StoppedJump(Look(f, a), Val(f, a));
    case Branch(k) => BranchRaises(f, k, a, b, c);
    case BranchI(k) => BranchRaises(Put(f, RSVD, b), k, a, RSVD, c);
    case BranchR(k) =>
      StoppedBranch(Look(f, c), k, a, b, Val(f, c));
      if !IsPriv(c) { BranchRaises(f, k, a, b, Val(f, c)); }
    case BranchRI(k) =>
      StoppedBranch(Look(f, c), k, a, RSVD, Val(f, c));
      if !IsPriv(c) { BranchRaises(Put(f, RSVD, b), k, a, RSVD, Val(f, c)); }
    case _ =>
  }

  lemma MovesRaise(f: State, op: Op, a: int, b: int, c: int, bus: Bus)
    requires InUser(f) && (op.LoadWI? || op.LoadBI? || op.Copy? || op.Not? || op.Swap?)
    requires NamesPriv(op, a, b, c) && AllNameable(op, a, b, c)
    ensures Execute(f, op, a, b, c, bus).ctl == Privileged
  {
    hide HasBit, Trap, SwapRegs;
    if op.Swap? { SwapsRaise(f, a, b); }
  }

  /** The instructions that touch no memory and name a register. */
  predicate Internal(op: Op) {
    IsComputeOp(op) || (IsBranchOp(op) && !op.Jmp?) || op.LoadWI? || op.LoadBI? || op.Copy? || op.Not? || op.Swap?
  }

  /** A division traps on a zero divisor before it looks at its other registers. */
  predicate ByZero(m: State, op: Op, b: int) {
    || (op.Arith? && (op.a.DivOp? || op.a.ModOp?) && Nameable(b) && !IsPriv(b) && Reads(m, b) == 0)
    || (op.ArithI? && (op.ai.DivOp? || op.ai.ModOp?) && b == 0)
  }

  /** An instruction that touches no memory and names a register of the kernel's, in user mode, raises;
      at fault count 0 the step is the illegal-instruction trap with RET at the instruction and nothing
      done, unless a `swap` overwrote its first register. */
  lemma KernelOnly(m: State, o: int, a: int, b: int, c: int, bus: Bus)
    requires Ready(m) && UserMode(m) && At(m, o, a, b, c, bus) && 0 <= o < OPCODES && b >= 0
    requires !BadOperands(Decode(o), a, b, c) && Internal(Decode(o))
    requires NamesPriv(Decode(o), a, b, c) && AllNameable(Decode(o), a, b, c) && !ByZero(m, Decode(o), b)
    ensures Raises(m, bus)
    ensures m.regs[FC] == 0 && !SwapShows(m, bus) ==> FaultEntered(m, Step(m, bus))
  {
    hide HasBit, Step, InstrWord, Fetchable, Decode, ArgTypes, Execute, BadOperands, NamesPriv, AllNameable, SwapShows,
         FaultEntered, IsPriv, Fetching;
    var f := Fetching(m, 4, bus);
    var op := Decode(o);
    FetchingReady(m, bus);
    UserFetch(m, bus);
    FetchingReads(m, b, bus);
    if op.Arith? { DivisorNamed(op, a, b, c); }
    if IsComputeOp(op) { ComputeRaises(f, op, a, b, c, bus); }
    else if IsBranchOp(op) { BranchesRaise(f, op, a, b, c, bus); }
    else { MovesRaise(f, op, a, b, c, bus); }
    if m.regs[FC] == 0 { FaultStepExact(m, bus); }
  }

  lemma DivisorNamed(op: Op, a: int, b: int, c: int)
    requires op.Arith? && AllNameable(op, a, b, c)
    ensures Nameable(b)
  {
  }

  lemma FetchingReads(m: State, r: int, bus: Bus)
    ensures Nameable(r) ==> Val(Fetching(m, 4, bus), r) == Reads(m, r)
  {
    hide InstrWord;
  }

  // -------- writing STATUS --------

  /** Interrupts come on with bit 0 of the status register; one that waited is taken at once, the new
      status saved and the instruction behind in RET. */
  predicate StatusSet(m: State, n: State, v: int) {
    if !(m.pending && v % 2 == 1) then Does(m, n, map[STATUS := v])
    else
      SameMemory(m, n)
      && if m.regs[FC] == 0 then
           !n.pending && Sets(m, n.(pending := m.pending),
                              map[STATUS := Push(v), FC := 1, RET := m.regs[PC] + 16, PC := 0xffff_f000])
         else n.ctl == Halted && n.regs[FC] == 3
  }

  lemma StatusWritten(m: State, f: State, v: int)
    requires Ready(m) && Ready(f) && !UserMode(m) && v >= 0
    requires f.regs[FC] == m.regs[FC] && f == m.(regs := f.regs, accesses := f.accesses)
    requires forall r :: 0 <= r < RSVD ==> f.regs[r] == if r == PC then m.regs[PC] + 16 else m.regs[r]
    ensures StatusSet(m, Set(f, STATUS, v), v) && Set(f, STATUS, v).ctl != Privileged
  {
    hide Push;
  }

  /** 0x0a `loadwi` and 0x38 `copy` into the status register, in kernel mode. */
  lemma StatusStep(m: State, o: int, a: int, b: int, c: int, bus: Bus)
    requires Ready(m) && !UserMode(m) && At(m, o, STATUS, b, c, bus) && b >= 0
    ensures o == 0x0a ==> StatusSet(m, Step(m, bus), b)
    ensures o == 0x38 && Nameable(b) ==> StatusSet(m, Step(m, bus), Reads(m, b))
  {
    hide Step, HasBit, At, Look, Decode, Set, StatusSet, Execute;
    MovesDecode();
    OthersDecode();
    if o == 0x0a {
      var f := Executed(m, o, STATUS, b, c, bus, LoadWI);
      PlainMeans(f, STATUS, b, c, bus);
      StatusWritten(m, f, b);
    } else if o == 0x38 && Nameable(b) {
      var f := Executed(m, o, STATUS, b, c, bus, Copy);
      CopyMeans(f, STATUS, b, c, bus);
      StatusWritten(m, f, Reads(m, b));
    }
  }

  lemma CopyMeans(f: State, a: int, b: int, c: int, bus: Bus)
    ensures Execute(f, Copy, a, b, c, bus) == Set(Look(f, b), a, Val(f, b))
  {
    hide Set, Look;
  }
}
