/** What the instructions that move PC do, opcode by opcode, from their words in memory; and the words
    that are no instruction. */
module Jumps {
  import opened Words
  import opened Status
  import opened Machine
  import opened Instructions
  import opened Invariants
  import opened Fetch
  import opened Runs
  import opened Meanings
  import opened Calculations
  import opened Transfers

  /** A 32-bit number below another in two's complement: below it once both are moved by 2^31. */
  predicate Below(x: int, y: int) { (x + 0x8000_0000) % WORD < (y + 0x8000_0000) % WORD }

  /** The six conditions in the order of the table. */
  predicate Taken(k: int, x: int, y: int) {
    if k == 0 then Below(x, y)
    else if k == 1 then Below(y, x)
    else if k == 2 then Below(x, y) || x == y
    else if k == 3 then !Below(x, y)
    else if k == 4 then x == y
    else x != y
  }

  function ConditionOf(k: int): Condition {
    if k == 0 then Lt
    else if k == 1 then Gt
    else if k == 2 then Le
    else if k == 3 then Ge
    else if k == 4 then Eq
    else Ne
  }

  lemma TakenHolds(k: int, x: int, y: int)
    requires 0 <= k < 6 && (k < 4 ==> Word(x) && Word(y))
    ensures Holds(ConditionOf(k), x, y) <==> Taken(k, x, y)
  {
    if k < 4 {
      SignedMoved(x);
      SignedMoved(y);
    }
  }

  lemma SignedMoved(x: int)
    requires Word(x)
    ensures Signed(x) == (x + 0x8000_0000) % WORD - 0x8000_0000
  {
  }

  /** 0x1b to 0x32: four groups of six, by whether the second operand is a word and the target in a
      register. */
  function BranchOpcode(k: int, imm: bool, indirect: bool): int {
    0x1b + (if indirect then 12 else 0) + (if imm then 6 else 0) + k
  }

  function BranchOp(k: int, imm: bool, indirect: bool): Op {
    if indirect then (if imm then BranchRI(ConditionOf(k)) else BranchR(ConditionOf(k)))
    else if imm then BranchI(ConditionOf(k)) else Branch(ConditionOf(k))
  }

  lemma BranchDecodes(k: int, imm: bool, indirect: bool)
    requires 0 <= k < 6
    ensures 0 <= BranchOpcode(k, imm, indirect) < OPCODES
    ensures Decode(BranchOpcode(k, imm, indirect)) == BranchOp(k, imm, indirect)
  {
  }

  /** The operands a branch may have: where the target is in a register, a word that is the number of
      the fault counter or of the reserved register is taken for that register. */
  predicate BranchOperands(m: State, a: int, b: int, c: int, imm: bool, indirect: bool) {
    && Source(m, a) && (!imm ==> Source(m, b)) && (indirect ==> Source(m, c))
    && (imm && indirect ==> b != FC && b != RSVD)
  }

  lemma BranchAllowed(m: State, k: int, a: int, b: int, c: int, imm: bool, indirect: bool)
    requires BranchOperands(m, a, b, c, imm, indirect)
    ensures !BadOperands(BranchOp(k, imm, indirect), a, b, c)
  {
  }

  lemma BranchMeans(f: State, k: int, a: int, b: int, c: int, imm: bool, indirect: bool, bus: Bus)
    requires indirect ==> Look(f, c) == f
    ensures var to := if indirect then Val(f, c) else c;
      Execute(f, BranchOp(k, imm, indirect), a, b, c, bus)
      == BranchTo(Prepared(f, b, imm), ConditionOf(k), a, Second(b, imm), to)
  {
    hide BranchTo, Look, Put, Holds;
  }

  /** A jump from the state after the fetch. */
  lemma JumpDoes(m: State, p: State, to: int)
    requires Ready(p) && Reached(m, p) && to >= 0
    ensures Jump(p, to).ctl == Running && Does(m, Jump(p, to), map[PC := to])
  {
    hide HasBit, Set;
    SetTarget(p, PC, to);
  }

  lemma BranchDoes(m: State, p: State, k: int, a: int, s: int, to: int)
    requires 0 <= k < 6 && Ready(p) && Reached(m, p) && Look(p, a) == p && Look(p, s) == p && to >= 0
    requires k < 4 ==> Word(Val(p, a)) && Word(Val(p, s))
    ensures var n := BranchTo(p, ConditionOf(k), a, s, to);
      n.ctl == Running && Does(m, n, if Taken(k, Val(p, a), Val(p, s)) then map[PC := to] else map[])
  {
    hide HasBit, Jump, Look, Taken, Holds, Ready;
    TakenHolds(k, Val(p, a), Val(p, s));
    JumpDoes(m, p, to);
  }

  /** The 24 conditional branches: PC becomes the target exactly if the condition holds, and nothing
      else changes. */
  lemma BranchStep(m: State, k: int, a: int, b: int, c: int, imm: bool, indirect: bool, bus: Bus)
    requires Ready(m) && 0 <= k < 6 && b >= 0 && c >= 0 && At(m, BranchOpcode(k, imm, indirect), a, b, c, bus)
    requires BranchOperands(m, a, b, c, imm, indirect)
    ensures var x, y := Reads(m, a), Operand(m, b, imm);
      k < 4 ==> Word(x) && Word(y) ==>
        Does(m, Step(m, bus), if Taken(k, x, y) then map[PC := Address(m, c, indirect)] else map[])
    ensures var x, y := Reads(m, a), Operand(m, b, imm);
      k >= 4 ==> Does(m, Step(m, bus), if Taken(k, x, y) then map[PC := Address(m, c, indirect)] else map[])
  {
    hide Step, HasBit, At, Decode, Execute, Look, Taken, Holds, BranchOpcode, BranchOp, BranchTo, BadOperands, Does;
    BranchDecodes(k, imm, indirect);
    BranchAllowed(m, k, a, b, c, imm, indirect);
    var f := Executed(m, BranchOpcode(k, imm, indirect), a, b, c, bus, BranchOp(k, imm, indirect));
    BranchMeans(f, k, a, b, c, imm, indirect, bus);
    assert Three(m, a, b, PC, imm);
    Prepares(m, f, a, b, PC, imm);
    var p := Prepared(f, b, imm);
    if k < 4 ==> Word(Reads(m, a)) && Word(Operand(m, b, imm)) {
      BranchDoes(m, p, k, a, Second(b, imm), Address(m, c, indirect));
    }
  }

  lemma PlainJumpMeans(f: State, a: int, b: int, c: int, bus: Bus)
    ensures Decode(0x19) == Jmp && Decode(0x1a) == JmpR
    ensures Execute(f, Jmp, a, b, c, bus) == Jump(f, a)
    ensures Execute(f, JmpR, a, b, c, bus) == Jump(Look(f, a), Val(f, a))
  {
    hide Jump, Look;
  }

  /** 0x19 `jmp` and 0x1a `jmpr`. */
  lemma JumpStep(m: State, a: int, b: int, c: int, indirect: bool, bus: Bus)
    requires Ready(m) && a >= 0 && At(m, if indirect then 0x1a else 0x19, a, b, c, bus) && (indirect ==> Source(m, a))
    ensures Does(m, Step(m, bus), map[PC := Address(m, a, indirect)])
  {
    hide Step, HasBit, At, Decode, Execute, Look, Jump;
    var op := if indirect then JmpR else Jmp;
    PlainJumpMeans(m, a, b, c, bus);
    var f := Executed(m, if indirect then 0x1a else 0x19, a, b, c, bus, op);
    PlainJumpMeans(f, a, b, c, bus);
    JumpDoes(m, f, Address(m, a, indirect));
  }

  lemma ControlMeans(f: State, a: int, b: int, c: int, bus: Bus)
    ensures Decode(0x33) == Halt && Decode(0x34) == Interrupt
    ensures Execute(f, Halt, a, b, c, bus) == if f.ctl == Running then f.(ctl := Halted) else f
    ensures Execute(f, Interrupt, a, b, c, bus) == Intr(f)
  {
    hide Intr;
  }

  /** 0x33 `halt` ends the run where it is. */
  lemma HaltStep(m: State, a: int, b: int, c: int, bus: Bus)
    requires Ready(m) && At(m, 0x33, a, b, c, bus)
    ensures var n := Step(m, bus); n.ctl == Halted && Does(m, n.(ctl := Running), map[])
  {
    hide Step, HasBit, At, Decode, Execute, Look;
    ControlMeans(m, a, b, c, bus);
    var f := Executed(m, 0x33, a, b, c, bus, Halt);
    ControlMeans(f, a, b, c, bus);
  }

  /** 0x34 `intr` takes the interrupt trap with interrupts on, and leaves the pending flag with them off. */
  lemma InterruptStep(m: State, a: int, b: int, c: int, bus: Bus)
    requires Ready(m) && At(m, 0x34, a, b, c, bus)
    ensures Interruptible(m) ==> Enters(m, Step(m, bus), 0xffff_f000)
    ensures !Interruptible(m) ==> Step(m, bus).pending && Does(m, Step(m, bus).(pending := m.pending), map[])
  {
    hide Step, HasBit, At, Decode, Execute, Look, Trap, Enters;
    ControlMeans(m, a, b, c, bus);
    var f := Executed(m, 0x34, a, b, c, bus, Interrupt);
    ControlMeans(f, a, b, c, bus);
    if Interruptible(m) {
      assert f.(pending := false) == f;
      TrapEntered(m, f, f, TRAP_INTR);
      TrapControl(f, TRAP_INTR);
    }
  }

  /** 0x35 `rfe` goes to RET with the saved level back, unless a waiting interrupt is let in: then the
      machine is in the trap again, to return behind the `rfe`, and goes on there. */
  lemma ReturnStep(m: State, a: int, b: int, c: int, bus: Bus)
    requires Ready(m) && At(m, 0x35, a, b, c, bus)
    ensures !(m.pending && HasBit(m.regs[STATUS], INTR_PREV)) ==>
      Does(m, Step(m, bus), map[STATUS := Pop(m.regs[STATUS]), FC := FaultsBelow(m), PC := m.regs[RET]])
    ensures m.pending && HasBit(m.regs[STATUS], INTR_PREV) ==>
      && !Step(m, bus).pending
      && Does(m, Step(m, bus).(pending := true),
              map[STATUS := Push(Pop(m.regs[STATUS])), FC := FaultsBelow(m) + 1, RET := m.regs[PC] + 16])
  {
    hide Step, HasBit, Push, Pop, InstrWord, Fetchable, Rfe;
    RfeStep(m, bus);
    FetchingReady(m, bus);
    FetchingKeeps(m, bus);
    RfeExact(Fetching(m, 4, bus));
  }

  // -------- what is no instruction --------

  /** The opcodes whose first, second and third word is a register number. */
  predicate FirstRegister(o: int) {
    0x01 <= o <= 0x08 || o == 0x0a || o == 0x0c || 0x0f <= o <= 0x18 || 0x1a <= o <= 0x32 || 0x37 <= o <= 0x43
    || o == 0x45
  }

  predicate SecondRegister(o: int) {
    0x05 <= o <= 0x08 || 0x0d <= o <= 0x13 || 0x1b <= o <= 0x20 || 0x27 <= o <= 0x32 || 0x37 <= o <= 0x3b
    || 0x3f <= o <= 0x41
  }

  predicate ThirdRegister(o: int) {
    0x0f <= o <= 0x18 || 0x27 <= o <= 0x32 || 0x39 <= o <= 0x3e || 0x40 <= o <= 0x43
  }

  /** No program may name the fault counter or the reserved register. */
  predicate Reserved(r: int) { r == 0x28 || r == 0x29 }

  predicate NoInstruction(o: int, a: int, b: int, c: int) {
    || o >= 0x47
    || (FirstRegister(o) && Reserved(a)) || (SecondRegister(o) && Reserved(b)) || (ThirdRegister(o) && Reserved(c))
  }

  lemma FirstRegisters(o: int)
    requires 0 <= o < OPCODES
    ensures FirstRegister(o) <==> ArgTypes(Decode(o)).0 == Reg
  {
  }

  lemma SecondRegisters(o: int)
    requires 0 <= o < OPCODES
    ensures SecondRegister(o) <==> ArgTypes(Decode(o)).1 == Reg
  {
  }

  lemma ThirdRegisters(o: int)
    requires 0 <= o < OPCODES
    ensures ThirdRegister(o) <==> ArgTypes(Decode(o)).2 == Reg
  {
  }

  /** What is no instruction takes the illegal-instruction trap and does nothing else. */
  lemma IllegalStep(m: State, o: int, a: int, b: int, c: int, bus: Bus)
    requires Ready(m) && At(m, o, a, b, c, bus) && o >= 0 && NoInstruction(o, a, b, c)
    ensures Enters(m, Step(m, bus), 0xffff_f010)
  {
    hide Step, HasBit, At, Decode, Execute, Look, Trap, Enters, ArgTypes, FirstRegister, SecondRegister, ThirdRegister,
         Recover;
    var f := Decoded(m, o, a, b, c, bus);
    if o < OPCODES {
      FirstRegisters(o);
      SecondRegisters(o);
      ThirdRegisters(o);
    }
    Dispatched(f, o, a, b, c, bus);
    TrapEntered(m, f, f, TRAP_ILL);
  }
}
