/** How wide the registers get: every register a program can name stays below 2^32 on every run, until
    an instruction at the last address that has one is executed. */
module Widths {
  import opened Words
  import opened Status
  import opened Machine
  import opened Instructions
  import opened Invariants
  import opened Fetch
  import opened Runs
  import opened Vectors
  import Division
  import Lanes

  /** The last address an instruction can be fetched from: behind it PC is 2^32. */
  const LAST_FETCH: int := 0xffff_fff0

  predicate Fits(v: int) { 0 <= v < WORD }

  /** Every register a program can name but the fault counter, which has a bound of its own, is a
      32-bit word. */
  predicate Narrow(m: State) { forall r :: 0 <= r < RSVD && r != FC ==> Fits(m.regs[r]) }

  /** A register an operand can name. */
  predicate Nameable(r: int) { r != FC && r != RSVD }

  // -------- primitives --------

  lemma PushFits(s: int)
    requires Fits(s)
    ensures Fits(Push(s)) && Fits(Pop(s))
  {
    assert s - s % 64 <= 0xffff_ffc0 by { assert s % 64 >= s - 0xffff_ffc0; }
    assert 0 <= s % 16 < 16 && 0 <= s % 64 < 64;
    assert 0 <= (s % 64) / 4 < 16 && 0 <= (s % 64) / 16 < 4;
  }

  lemma TrapNarrow(m: State, addr: int)
    requires Narrow(m) && Fits(addr)
    ensures Narrow(Trap(m, addr))
  {
    hide Push, Pop;
    PushFits(m.regs[STATUS]);
    PushFits(Push(m.regs[STATUS]));
  }

  lemma SetNarrow(m: State, r: int, v: int)
    requires Narrow(m) && (Fits(v) || !Nameable(r))
    ensures Narrow(Set(m, r, v))
  {
    hide HasBit, Trap;
    var w := if 0 <= r < LAST then m.(regs := m.regs[r := v]) else m;
    TrapNarrow(w.(pending := false), TRAP_INTR);
  }

  lemma PutNarrow(m: State, v: int)
    requires Narrow(m)
    ensures Narrow(Put(m, RSVD, v))
  {
  }

  lemma LookNarrow(m: State, r: int)
    requires Narrow(m)
    ensures Narrow(Look(m, r)) && (Nameable(r) ==> Fits(Val(m, r)))
  {
    hide HasBit;
  }

  lemma AccessNarrow(m: State, a: int, v: Byte)
    requires Narrow(m)
    ensures Narrow(Access(m, a)) && Narrow(StoreByte(m, a, v))
  {
    hide HasBit;
  }

  lemma JumpNarrow(m: State, addr: int)
    requires Narrow(m) && addr < WORD
    ensures Narrow(Jump(m, addr))
  {
    hide Set, Trap;
    if addr < 0 { TrapNarrow(m, TRAP_ILL); } else { SetNarrow(m, PC, addr); }
  }

  lemma IntrNarrow(m: State)
    requires Narrow(m)
    ensures Narrow(Intr(m))
  {
    hide Trap, HasBit;
    TrapNarrow(m.(pending := false), TRAP_INTR);
  }

  lemma RfeNarrow(m: State)
    requires Narrow(m)
    ensures Narrow(Rfe(m))
  {
    hide Set, Intr, Pop, HasBit;
    if m.ctl == Running {
      PushFits(m.regs[STATUS]);
      var m1 := Put(m, STATUS, Pop(m.regs[STATUS]));
      SetNarrow(m1, FC, m1.regs[FC] - 1);
      var m2 := if m1.regs[FC] > 0 then Set(m1, FC, m1.regs[FC] - 1) else m1;
      IntrNarrow(m2);
      var m3 := if m2.pending && Interruptible(m2) then Intr(m2) else m2;
      SetNarrow(m3, PC, m3.regs[RET]);
    }
  }

  // -------- instructions --------

  lemma LaneNarrow(m: State, r: int, addr: int, scale: int, bus: Bus)
    requires Narrow(m) && Nameable(r) && (scale == 1 || scale == 0x100 || scale == 0x1_0000)
    ensures Narrow(LoadLane(m, r, addr, scale, bus))
  {
    hide Set, Access, ByteAt, Or, Look, Pow2;
    var l := Look(m, r);
    LookNarrow(m, r);
    AccessNarrow(l, addr, 0);
    var b: int := ByteAt(l, addr, bus);
    Pow2Values();
    Lanes.OrBounded(Val(m, r), b * scale, 32);
    SetNarrow(Access(l, addr), r, Or(Val(m, r), b * scale));
  }

  lemma LoadNarrow(m: State, r: int, addr: int, bus: Bus)
    requires Narrow(m) && Nameable(r)
    ensures Narrow(LoadWord(m, r, addr, bus)) && Narrow(LoadByte(m, r, addr, bus))
  {
    hide Set, Access, ByteAt, LoadLane, Trap;
    AccessNarrow(m, addr, 0);
    var b: int := ByteAt(m, addr, bus);
    SetNarrow(Access(m, addr), r, b);
    SetNarrow(Access(m, addr), r, b * 0x100_0000);
    TrapNarrow(m, TRAP_ILL);
    var m1 := Set(Access(m, addr), r, b * 0x100_0000);
    LaneNarrow(m1, r, addr + 1, 0x1_0000, bus);
    var m2 := LoadLane(m1, r, addr + 1, 0x1_0000, bus);
    LaneNarrow(m2, r, addr + 2, 0x100, bus);
    LaneNarrow(LoadLane(m2, r, addr + 2, 0x100, bus), r, addr + 3, 1, bus);
  }

  lemma StoreLaneNarrow(m: State, r: int, addr: int, scale: int)
    requires Narrow(m) && scale > 0
    ensures Narrow(SaveLane(m, r, addr, scale))
  {
    hide Look, StoreByte;
    LookNarrow(m, r);
    AccessNarrow(Look(m, r), addr, (Val(m, r) / scale) % 256);
  }

  lemma SaveNarrow(m: State, r: int, addr: int)
    requires Narrow(m)
    ensures Narrow(SaveWord(m, r, addr)) && Narrow(SaveByte(m, r, addr))
  {
    hide SaveLane, Trap;
    TrapNarrow(m, TRAP_ILL);
    StoreLaneNarrow(m, r, addr, 1);
    StoreLaneNarrow(m, r, addr, 0x100_0000);
    var m1 := SaveLane(m, r, addr, 0x100_0000);
    StoreLaneNarrow(m1, r, addr + 1, 0x1_0000);
    var m2 := SaveLane(m1, r, addr + 1, 0x1_0000);
    StoreLaneNarrow(m2, r, addr + 2, 0x100);
    StoreLaneNarrow(SaveLane(m2, r, addr + 2, 0x100), r, addr + 3, 1);
  }

  lemma SaveINarrow(m: State, v: int, addr: int)
    requires Narrow(m)
    ensures Narrow(SaveWordI(m, v, addr))
  {
    hide SaveWord, Put;
    PutNarrow(m, v);
    SaveNarrow(Put(m, RSVD, v), RSVD, addr);
  }

  lemma InstallNarrow(m: State, r: int, addr: int)
    requires Narrow(m)
    ensures Narrow(InstallTrap(m, r, addr))
  {
    hide SaveWordI, Look;
    LookNarrow(m, r);
    var l, at := Look(m, r), VECTORS + Val(m, r) * 16;
    SaveINarrow(l, 0x19, at);
    var m1 := SaveWordI(l, 0x19, at);
    SaveINarrow(m1, addr, at + 4);
    var m2 := SaveWordI(m1, addr, at + 4);
    SaveINarrow(m2, 0, at + 8);
    SaveINarrow(SaveWordI(m2, 0, at + 8), 0, at + 12);
  }

  lemma ResultNarrow(m: State, r: int, result: int)
    requires Narrow(m)
    ensures Narrow(SetResult(m, r, result))
  {
    hide Set;
    SetNarrow(m, r, result % WORD);
    SetNarrow(Set(m, r, result % WORD), CARRY, if result > MAXVAL then 1 else 0);
  }

  lemma AddNarrow(m: State, r1: int, r2: int, r3: int)
    requires Narrow(m)
    ensures Narrow(Add(m, r1, r2, r3)) && Narrow(Mul(m, r1, r2, r3))
  {
    hide SetResult, Look;
    LookNarrow(m, r1);
    LookNarrow(Look(m, r1), r2);
    ResultNarrow(Look(Look(m, r1), r2), r3, Val(m, r1) + Val(m, r2));
    ResultNarrow(Look(Look(m, r1), r2), r3, Val(m, r1) * Val(m, r2));
  }

  lemma ArithmeticNarrow(m: State, f: Arithmetic, r1: int, r2: int, r3: int)
    requires Narrow(m)
    ensures Narrow(Arithmetic3(m, f, r1, r2, r3))
  {
    hide Add, Mul, Div, Look, Put;
    AddNarrow(m, r1, r2, r3);
    LookNarrow(m, r2);
    PutNarrow(Look(m, r2), -Val(m, r2));
    AddNarrow(Put(Look(m, r2), RSVD, -Val(m, r2)), r1, RSVD, r3);
    DivNarrow(m, r1, r2, r3, true);
    DivNarrow(m, r1, r2, r3, false);
  }

  lemma DivNarrow(m: State, r1: int, r2: int, r3: int, quotient: bool)
    requires Narrow(m)
    ensures Narrow(Div(m, r1, r2, r3, quotient))
  {
    hide Set, Look, Trap, Division.DivMod;
    var l := Look(m, r2);
    LookNarrow(m, r2);
    LookNarrow(l, r1);
    TrapNarrow(l, TRAP_DIV);
    var result := Division.DivMod(Val(m, r1), Val(m, r2));
    var v := if quotient then result.0 else result.1;
    SetNarrow(Look(l, r1), r3, v % WORD);
    SetNarrow(Set(Look(l, r1), r3, v % WORD), CARRY, 0);
  }

  lemma {:induction false} XorBounded(a: int, b: int, k: nat)
    requires 0 <= a < Pow2(k) && 0 <= b < Pow2(k)
    ensures 0 <= Xor(a, b) < Pow2(k)
  {
    if k != 0 && a != 0 { XorBounded(a / 2, b / 2, k - 1); }
  }

  lemma BitwiseFits(f: Bitwise, x: int, y: int)
    requires Fits(x) && Fits(y)
    ensures Fits(BitwiseResult(f, x, y))
  {
    hide And, Or, Xor, Pow2;
    Pow2Values();
    match f
    case AndOp =>
    case OrOp => Lanes.OrBounded(x, y, 32);
    case XorOp => XorBounded(x, y, 32);
    case ShlOp =>
    case ShrOp => ShiftFits(x, Pow2(y));
  }

  lemma ShiftFits(x: int, p: int)
    requires x >= 0 && p >= 1
    ensures 0 <= x / p <= x
  {
    if x / p > x { Multiple(p, x / p - x); }
  }

  lemma BitsNarrow(m: State, f: Bitwise, x: int, y: int, r: int)
    requires Narrow(m) && Fits(x) && Fits(y)
    ensures Narrow(SetBits(m, f, x, y, r))
  {
    hide Set, BitwiseResult;
    BitwiseFits(f, x, y);
    SetNarrow(m, r, BitwiseResult(f, x, y));
  }

  lemma BranchNarrow(m: State, c: Condition, r1: int, r2: int, v: int, addr: int)
    requires Narrow(m) && addr < WORD
    ensures Narrow(BranchTo(m, c, r1, r2, addr)) && Narrow(BranchImm(m, c, r1, v, addr))
  {
    hide Jump, Look, Put, Holds;
    OneBranch(m, c, r1, r2, addr);
    PutNarrow(m, v);
    OneBranch(Put(m, RSVD, v), c, r1, RSVD, addr);
  }

  lemma OneBranch(m: State, c: Condition, r1: int, r2: int, addr: int)
    requires Narrow(m) && addr < WORD
    ensures Narrow(BranchTo(m, c, r1, r2, addr))
  {
    hide Jump, Look, Holds;
    LookNarrow(m, r1);
    LookNarrow(Look(m, r1), r2);
    JumpNarrow(Look(Look(m, r1), r2), addr);
  }

  lemma SwapNarrow(m: State, r1: int, r2: int)
    requires Narrow(m) && Fits(r2) && Nameable(r1)
    ensures Narrow(SwapRegs(m, r1, r2))
  {
    hide Set, Look;
    LookNarrow(m, r1);
    SetNarrow(Look(m, r1), r1, r2);
    SetNarrow(Set(Look(m, r1), r1, r2), r2, Val(m, r1));
  }

  predicate Given(op: Op, a: int, b: int, c: int) { Fits(a) && Fits(b) && Fits(c) && !BadOperands(op, a, b, c) }

  lemma MemoryNarrow(m: State, op: Op, a: int, b: int, c: int, bus: Bus)
    requires Narrow(m) && Given(op, a, b, c) && IsMemoryOp(op)
    ensures Narrow(Execute(m, op, a, b, c, bus))
  {
    hide Narrow, LoadWord, LoadByte, SaveWord, SaveByte, SaveWordI, InstallTrap, Look, Put, Arithmetic3, BranchTo,
         BranchImm, SwapRegs, SetBits, Rfe, Intr, Jump, Set;
    LookNarrow(m, b);
    var l := Look(m, b);
    PutNarrow(m, a);
    PutNarrow(l, a);
    match op
    case SaveW => SaveNarrow(m, a, b);
    case LoadW => LoadNarrow(m, a, b, bus);
    case SaveB => SaveNarrow(m, a, b);
    case LoadB => LoadNarrow(m, a, b, bus);
    case SaveWR => SaveNarrow(l, a, Val(m, b));
    case LoadWR => LoadNarrow(l, a, Val(m, b), bus);
    case SaveBR => SaveNarrow(l, a, Val(m, b));
    case LoadBR => LoadNarrow(l, a, Val(m, b), bus);
    case SaveWI => SaveINarrow(m, a, b);
    case SaveBI => SaveNarrow(Put(m, RSVD, a), RSVD, b);
    case SaveWRI => SaveINarrow(l, a, Val(m, b));
    case SaveBRI => SaveNarrow(Put(l, RSVD, a), RSVD, Val(m, b));
    case StrapR => InstallNarrow(m, a, b);
    case StrapI => InstallNarrow(Put(m, RSVD, a), RSVD, b);
  }

  lemma BranchOpNarrow(m: State, op: Op, a: int, b: int, c: int, bus: Bus)
    requires Narrow(m) && Given(op, a, b, c) && IsBranchOp(op)
    ensures Narrow(Execute(m, op, a, b, c, bus))
  {
    hide Narrow, LoadWord, LoadByte, SaveWord, SaveByte, SaveWordI, InstallTrap, Look, Put, Arithmetic3, BranchTo,
         BranchImm, SwapRegs, SetBits, Rfe, Intr, Jump, Set;
    LookNarrow(m, a);
    LookNarrow(m, c);
    match op
    case Jmp => JumpNarrow(m, a);
    case JmpR => JumpNarrow(Look(m, a), Val(m, a));
    case Branch(k) => BranchNarrow(m, k, a, b, b, c);
    case BranchI(k) => BranchNarrow(m, k, a, a, b, c);
    case BranchR(k) => BranchNarrow(Look(m, c), k, a, b, b, Val(m, c));
    case BranchRI(k) => BranchNarrow(Look(m, c), k, a, a, b, Val(m, c));
  }

  lemma OtherNarrow(m: State, op: Op, a: int, b: int, c: int, bus: Bus)
    requires Narrow(m) && Given(op, a, b, c) && !IsMemoryOp(op) && !IsBranchOp(op)
    ensures Narrow(Execute(m, op, a, b, c, bus))
  {
    hide LoadWord, LoadByte, SaveWord, SaveByte, SaveWordI, InstallTrap, Look, Put, Arithmetic3, BranchTo, BranchImm,
         SwapRegs, SetBits, Rfe, Intr, Jump, Set;
    LookNarrow(m, a);
    LookNarrow(m, b);
    match op
    case Arith(f) => ArithmeticNarrow(m, f, a, b, c);
    case ArithI(f) => PutNarrow(m, b); ArithmeticNarrow(Put(m, RSVD, b), f, a, RSVD, c);
    case Bits(f) => LookNarrow(Look(m, a), b); BitsNarrow(Look(Look(m, a), b), f, Val(m, a), Val(m, b), c);
    case BitsI(f) => BitsNarrow(Look(m, a), f, Val(m, a), b, c);
    case LoadWI => SetNarrow(m, a, b);
    case LoadBI => SetNarrow(m, a, b % 256);
    case Swap => SwapNarrow(m, a, b);
    case Copy => SetNarrow(Look(m, b), a, Val(m, b));
    case Not => SetNarrow(Look(m, a), b, (-1 - Val(m, a)) % WORD);
    case CpuId => SetNarrow(m, RES, 6);
    case Interrupt => IntrNarrow(m);
    case ReturnFromTrap => RfeNarrow(m);
    case _ =>
  }

  lemma ExecuteNarrow(m: State, op: Op, a: int, b: int, c: int, bus: Bus)
    requires Narrow(m) && Given(op, a, b, c)
    ensures Narrow(Execute(m, op, a, b, c, bus))
  {
    hide Execute, Narrow;
    if IsMemoryOp(op) { MemoryNarrow(m, op, a, b, c, bus); }
    else if IsBranchOp(op) { BranchOpNarrow(m, op, a, b, c, bus); }
    else { OtherNarrow(m, op, a, b, c, bus); }
  }

  // -------- steps and runs --------

  lemma RecoverNarrow(k: State)
    requires Narrow(k) && (k.ctl == Privileged ==> k.regs[PC] >= 16)
    ensures Narrow(Recover(k))
  {
    hide Set, Trap;
    var l := k.(ctl := Running);
    if k.ctl == Privileged {
      SetNarrow(l, PC, l.regs[PC] - 16);
      TrapNarrow(Set(l, PC, l.regs[PC] - 16), TRAP_ILL);
    }
  }

  /** When a privilege exception is in flight, PC is past the instruction. */
  lemma PrivilegedPast(f: State, op: Op, a: int, b: int, c: int, bus: Bus)
    requires Ready(f) && f.regs[PC] >= 16 && Given(op, a, b, c)
    ensures var k := Execute(f, op, a, b, c, bus); k.ctl == Privileged ==> k.regs[PC] >= 16
  {
    hide Execute, Rfe, Kept, Trapped, HasBit, Destination, BadOperands;
    if op.ReturnFromTrap? {
      RfeReady(f);
      RfeMeans(f, a, b, c, bus);
    } else {
      ExecuteEffect(f, op, a, b, c, bus);
    }
  }

  lemma RfeMeans(f: State, a: int, b: int, c: int, bus: Bus)
    ensures Execute(f, ReturnFromTrap, a, b, c, bus) == Rfe(f)
  {
    hide Rfe;
  }

  lemma DispatchNarrow(f: State, o: int, a: int, b: int, c: int, bus: Bus)
    requires Ready(f) && Narrow(f) && f.regs[PC] >= 16 && Fits(o) && Fits(a) && Fits(b) && Fits(c)
    ensures Narrow(Dispatch(f, o, a, b, c, bus))
  {
    hide Execute, Decode, BadOperands, Trap, Recover, Narrow;
    TrapNarrow(f, TRAP_ILL);
    if o < OPCODES && !BadOperands(Decode(o), a, b, c) {
      ExecuteNarrow(f, Decode(o), a, b, c, bus);
      PrivilegedPast(f, Decode(o), a, b, c, bus);
      RecoverNarrow(Execute(f, Decode(o), a, b, c, bus));
    }
  }

  lemma StepNarrow(m: State, bus: Bus)
    requires Ready(m) && Narrow(m) && m.regs[PC] != LAST_FETCH
    ensures Ended(Step(m, bus)) || Narrow(Step(m, bus))
  {
    hide Step, Dispatch, InstrWord, HasBit;
    StepDecoded(m, bus);
    if Fetchable(m) {
      FetchingReady(m, bus);
      FetchingKeeps(m, bus);
      assert m.regs[PC] + 16 <= MAXVAL;
      DispatchNarrow(Fetching(m, 4, bus), InstrWord(m, 0, bus), InstrWord(m, 1, bus), InstrWord(m, 2, bus),
                     InstrWord(m, 3, bus), bus);
    }
  }

  /** No instruction of the run is the one at the last address. */
  predicate BelowLast(m: State, events: seq<Event>) {
    |events| == 0 ||
    (&& BelowLast(m, events[..|events| - 1])
     && (events[|events| - 1].Tick? ==> Run(m, events[..|events| - 1]).regs[PC] != LAST_FETCH))
  }

  /** On every run, whatever the program, the devices and the interrupt requests, every register a
      program can name is a 32-bit word, as long as no instruction at the last address is executed. */
  lemma {:induction false} RunNarrow(m: State, events: seq<Event>)
    requires Ready(m) && Narrow(m) && BelowLast(m, events)
    ensures var n := Run(m, events);
      Ended(n) || (Ready(n) && Narrow(n) && forall r :: 0 <= r < RSVD ==> 0 <= n.regs[r] < WORD)
  {
    hide Step, Intr, Ready, Narrow;
    if |events| != 0 {
      var before, e := events[..|events| - 1], events[|events| - 1];
      var k := Run(m, before);
      RunNarrow(m, before);
      RunReady(m, events);
      if Ended(k) {
        EndedStays(k, e);
      } else if e.Tick? {
        StepNarrow(k, e.bus);
      } else {
        IntrNarrow(k);
      }
    }
    if !Ended(Run(m, events)) { AllFit(Run(m, events)); }
  }

  lemma AllFit(n: State)
    requires Ready(n) && Narrow(n)
    ensures forall r :: 0 <= r < RSVD ==> 0 <= n.regs[r] < WORD
  {
  }

  /** At the last address it does not: `copy $0 $pc` there, at the end of the last vector, leaves 2^32
      in `$0`. */
  lemma LastWidens(m: State, bus: Bus)
    requires Ready(m) && !MmuOn(m) && m.regs[PC] == LAST_FETCH
    requires m.vectors[4080..4084] == Packed(0x38) && m.vectors[4084..4088] == Packed(0)
    requires m.vectors[4088..4092] == Packed(PC) && m.vectors[4092..4096] == Packed(0)
    ensures Step(m, bus).ctl == Running && Step(m, bus).regs[0] == WORD
  {
    hide HasBit, Packed, InstrWord, WordFetchable, Step, Execute, Decode, BadOperands;
    FetchedVector(m, 255, 0, 0x38, bus);
    FetchedVector(m, 255, 1, 0, bus);
    FetchedVector(m, 255, 2, PC, bus);
    FetchedVector(m, 255, 3, 0, bus);
    StepDecoded(m, bus);
    FetchingReady(m, bus);
    var f := Fetching(m, 4, bus);
    CopyPc(f, bus);
    DispatchQuiet(f, 0x38, 0, PC, 0, bus);
  }

  lemma CopyPc(f: State, bus: Bus)
    requires Ready(f)
    ensures Decode(0x38).Copy? && !BadOperands(Decode(0x38), 0, PC, 0)
    ensures Execute(f, Copy, 0, PC, 0, bus) == f.(regs := f.regs[0 := f.regs[PC]])
  {
    hide HasBit, Trap;
    SetPlain(f, 0, f.regs[PC]);
  }
}
