/** The instruction set: the opcode table, what each instruction does to the machine, and one
    fetch-decode-execute step. */
module Instructions {
  import opened Words
  import opened Status
  import opened Machine
  import Division

  datatype Condition = Eq | Ne | Gt | Ge | Lt | Le
  datatype Arithmetic = AddOp | SubOp | MulOp | DivOp | ModOp
  datatype Bitwise = AndOp | OrOp | XorOp | ShlOp | ShrOp

  datatype Op =
    | Nop
    | SaveW | LoadW | SaveB | LoadB
    | SaveWR | LoadWR | SaveBR | LoadBR
    | SaveWI | LoadWI | SaveBI | LoadBI | SaveWRI | SaveBRI
    | Arith(a: Arithmetic) | ArithI(ai: Arithmetic)
    | Jmp | JmpR
    | Branch(c: Condition) | BranchI(ci: Condition) | BranchR(cr: Condition) | BranchRI(cri: Condition)
    | Halt | Interrupt | ReturnFromTrap | Wait
    | Swap | Copy
    | Bits(b: Bitwise) | BitsI(bi: Bitwise) | Not
    | CpuId | StrapR | StrapI

  datatype Arg = None | Immed | Addr | Reg

  const OPCODES: int := 0x47

  /** The opcode table. */
  function Decode(opcode: int): Op
    requires 0 <= opcode < OPCODES
  {
    match opcode
    case 0x00 => Nop
    case 0x01 => SaveW
    case 0x02 => LoadW
    case 0x03 => SaveB
    case 0x04 => LoadB
    case 0x05 => SaveWR
    case 0x06 => LoadWR
    case 0x07 => SaveBR
    case 0x08 => LoadBR
    case 0x09 => SaveWI
    case 0x0a => LoadWI
    case 0x0b => SaveBI
    case 0x0c => LoadBI
    case 0x0d => SaveWRI
    case 0x0e => SaveBRI
    case 0x0f => Arith(AddOp)
    case 0x10 => Arith(SubOp)
    case 0x11 => Arith(MulOp)
    case 0x12 => Arith(DivOp)
    case 0x13 => Arith(ModOp)
    case 0x14 => ArithI(AddOp)
    case 0x15 => ArithI(SubOp)
    case 0x16 => ArithI(MulOp)
    case 0x17 => ArithI(DivOp)
    case 0x18 => ArithI(ModOp)
    case 0x19 => Jmp
    case 0x1a => JmpR
    case 0x1b => Branch(Lt)
    case 0x1c => Branch(Gt)
    case 0x1d => Branch(Le)
    case 0x1e => Branch(Ge)
    case 0x1f => Branch(Eq)
    case 0x20 => Branch(Ne)
    case 0x21 => BranchI(Lt)
    case 0x22 => BranchI(Gt)
    case 0x23 => BranchI(Le)
    case 0x24 => BranchI(Ge)
    case 0x25 => BranchI(Eq)
    case 0x26 => BranchI(Ne)
    case 0x27 => BranchR(Lt)
    case 0x28 => BranchR(Gt)
    case 0x29 => BranchR(Le)
    case 0x2a => BranchR(Ge)
    case 0x2b => BranchR(Eq)
    case 0x2c => BranchR(Ne)
    case 0x2d => BranchRI(Lt)
    case 0x2e => BranchRI(Gt)
    case 0x2f => BranchRI(Le)
    case 0x30 => BranchRI(Ge)
    case 0x31 => BranchRI(Eq)
    case 0x32 => BranchRI(Ne)
    case 0x33 => Halt
    case 0x34 => Interrupt
    case 0x35 => ReturnFromTrap
    case 0x36 => Wait
    case 0x37 => Swap
    case 0x38 => Copy
    case 0x39 => Bits(AndOp)
    case 0x3a => Bits(OrOp)
    case 0x3b => Bits(XorOp)
    case 0x3c => BitsI(AndOp)
    case 0x3d => BitsI(OrOp)
    case 0x3e => BitsI(XorOp)
    case 0x3f => Not
    case 0x40 => Bits(ShlOp)
    case 0x41 => Bits(ShrOp)
    case 0x42 => BitsI(ShlOp)
    case 0x43 => BitsI(ShrOp)
    case 0x44 => CpuId
    case 0x45 => StrapR
    case _ => StrapI
  }

  /** The operand types column of the table. */
  function ArgTypes(op: Op): (Arg, Arg, Arg) {
    match op
    case Nop => (None, None, None)
    case SaveW => (Reg, Addr, None)
    case LoadW => (Reg, Addr, None)
    case SaveB => (Reg, Addr, None)
    case LoadB => (Reg, Addr, None)
    case SaveWR => (Reg, Reg, None)
    case LoadWR => (Reg, Reg, None)
    case SaveBR => (Reg, Reg, None)
    case LoadBR => (Reg, Reg, None)
    case SaveWI => (Immed, Addr, None)
    case LoadWI => (Reg, Immed, None)
    case SaveBI => (Immed, Addr, None)
    case LoadBI => (Reg, Immed, None)
    case SaveWRI => (Immed, Reg, None)
    case SaveBRI => (Immed, Reg, None)
    case Arith(_) => (Reg, Reg, Reg)
    case ArithI(_) => (Reg, Immed, Reg)
    case Jmp => (Addr, None, None)
    case JmpR => (Reg, None, None)
    case Branch(_) => (Reg, Reg, Addr)
    case BranchI(_) => (Reg, Immed, Addr)
    case BranchR(_) => (Reg, Reg, Reg)
    case BranchRI(_) => (Reg, Reg, Reg)   // the middle one is used as an immediate all the same
    case Halt => (None, None, None)
    case Interrupt => (None, None, None)
    case ReturnFromTrap => (None, None, None)
    case Wait => (None, None, None)
    case Swap => (Reg, Reg, None)
    case Copy => (Reg, Reg, None)
    case Bits(_) => (Reg, Reg, Reg)
    case BitsI(_) => (Reg, Immed, Reg)
    case Not => (Reg, Reg, None)
    case CpuId => (None, None, None)
    case StrapR => (Reg, Addr, None)
    case StrapI => (Immed, Addr, None)
  }

  // The table in four groups.

  predicate IsMemoryOp(op: Op) {
    op.SaveW? || op.LoadW? || op.SaveB? || op.LoadB? || op.SaveWR? || op.LoadWR?
    || op.SaveBR? || op.LoadBR? || op.SaveWI? || op.SaveBI? || op.SaveWRI? || op.SaveBRI?
    || op.StrapR? || op.StrapI?
  }

  predicate IsBranchOp(op: Op) {
    op.Jmp? || op.JmpR? || op.Branch? || op.BranchI? || op.BranchR? || op.BranchRI?
  }

  predicate IsComputeOp(op: Op) { op.Arith? || op.ArithI? || op.Bits? || op.BitsI? }

  // -------- loads and stores --------

  /** `registers[r] |= byte << shift`, with `scale` = 2^shift. */
  function LoadLane(m: State, r: int, addr: int, scale: int, bus: Bus): State {
    var l := Look(m, r);
    Set(Access(l, addr), r, Or(Val(m, r), ByteAt(l, addr, bus) * scale))
  }

  function LoadWord(m: State, r: int, addr: int, bus: Bus): State {
    if addr + 3 > MAXVAL then Trap(m, TRAP_ILL)
    else
      var m1 := Set(Access(m, addr), r, ByteAt(m, addr, bus) * 0x100_0000);
      var m2 := LoadLane(m1, r, addr + 1, 0x1_0000, bus);
      var m3 := LoadLane(m2, r, addr + 2, 0x100, bus);
      LoadLane(m3, r, addr + 3, 1, bus)
  }

  function LoadByte(m: State, r: int, addr: int, bus: Bus): State {
    Set(Access(m, addr), r, ByteAt(m, addr, bus))
  }

  function SaveLane(m: State, r: int, addr: int, scale: int): State
    requires scale > 0
  {
    StoreByte(Look(m, r), addr, (Val(m, r) / scale) % 256)
  }

  function SaveWord(m: State, r: int, addr: int): State {
    if addr + 3 > MAXVAL then Trap(m, TRAP_ILL)
    else
      var m1 := SaveLane(m, r, addr, 0x100_0000);
      var m2 := SaveLane(m1, r, addr + 1, 0x1_0000);
      var m3 := SaveLane(m2, r, addr + 2, 0x100);
      SaveLane(m3, r, addr + 3, 1)
  }

  function SaveWordI(m: State, v: int, addr: int): State {
    SaveWord(Put(m, RSVD, v), RSVD, addr)
  }

  function SaveByte(m: State, r: int, addr: int): State {
    SaveLane(m, r, addr, 1)
  }

  /** `strapr`: write a jump into the vector numbered by a register. */
  function InstallTrap(m: State, r: int, addr: int): State {
    var l := Look(m, r);
    var at := VECTORS + Val(m, r) * 16;
    var m1 := SaveWordI(l, 0x19, at);
    var m2 := SaveWordI(m1, addr, at + 4);
    var m3 := SaveWordI(m2, 0, at + 8);
    SaveWordI(m3, 0, at + 12)
  }

  // -------- arithmetic and bits --------

  /** A result narrowed to 32 bits into a register, and its carry. */
  function SetResult(m: State, r: int, result: int): State {
    Set(Set(m, r, result % WORD), CARRY, if result > MAXVAL then 1 else 0)
  }

  function Add(m: State, r1: int, r2: int, r3: int): State {
    SetResult(Look(Look(m, r1), r2), r3, Val(m, r1) + Val(m, r2))
  }

  /** Adds the negated operand, through the reserved register. */
  function Sub(m: State, r1: int, r2: int, r3: int): State {
    Add(Put(Look(m, r2), RSVD, -Val(m, r2)), r1, RSVD, r3)
  }

  function Mul(m: State, r1: int, r2: int, r3: int): State {
    SetResult(Look(Look(m, r1), r2), r3, Val(m, r1) * Val(m, r2))
  }

  function Div(m: State, r1: int, r2: int, r3: int, quotient: bool): State {
    var l := Look(m, r2);
    if Val(m, r2) == 0 then Trap(l, TRAP_DIV)
    else
      var result := Division.DivMod(Val(m, r1), Val(m, r2));
      var v := if quotient then result.0 else result.1;
      Set(Set(Look(l, r1), r3, v % WORD), CARRY, 0)
  }

  function Arithmetic3(m: State, f: Arithmetic, r1: int, r2: int, r3: int): State {
    match f
    case AddOp => Add(m, r1, r2, r3)
    case SubOp => Sub(m, r1, r2, r3)
    case MulOp => Mul(m, r1, r2, r3)
    case DivOp => Div(m, r1, r2, r3, true)
    case ModOp => Div(m, r1, r2, r3, false)
  }

  function BitwiseResult(f: Bitwise, x: int, y: int): int
    requires f.ShlOp? || f.ShrOp? ==> y >= 0
  {
    match f
    case AndOp => And(x, y)
    case OrOp => Or(x, y)
    case XorOp => Xor(x, y)
    case ShlOp => x * Pow2(y) % WORD
    case ShrOp => x / Pow2(y)
  }

  /** Shifting by a negative count raises ValueError. */
  function SetBits(m: State, f: Bitwise, x: int, y: int, r: int): State {
    if m.ctl != Running then m
    else if (f.ShlOp? || f.ShrOp?) && y < 0 then m.(ctl := Crashed)
    else Set(m, r, BitwiseResult(f, x, y))
  }

  // -------- branches and moves --------

  predicate Holds(c: Condition, x: int, y: int) {
    match c
    case Eq => x == y
    case Ne => x != y
    case Gt => Signed(x) > Signed(y)
    case Ge => Signed(x) >= Signed(y)
    case Lt => Signed(x) < Signed(y)
    case Le => Signed(x) <= Signed(y)
  }

  function BranchTo(m: State, c: Condition, r1: int, r2: int, addr: int): State {
    var l := Look(Look(m, r1), r2);
    if Holds(c, Val(m, r1), Val(m, r2)) then Jump(l, addr) else l
  }

  function BranchImm(m: State, c: Condition, r1: int, v: int, addr: int): State {
    BranchTo(Put(m, RSVD, v), c, r1, RSVD, addr)
  }

  /** Stores the second register's number, not its contents, into the first. */
  function SwapRegs(m: State, r1: int, r2: int): State {
    Set(Set(Look(m, r1), r1, r2), r2, Val(m, r1))
  }

  // -------- dispatch --------

  function Execute(m: State, op: Op, a: int, b: int, c: int, bus: Bus): State {
    match op
    case Nop => m
    case SaveW => SaveWord(m, a, b)
    case LoadW => LoadWord(m, a, b, bus)
    case SaveB => SaveByte(m, a, b)
    case LoadB => LoadByte(m, a, b, bus)
    case SaveWR => SaveWord(Look(m, b), a, Val(m, b))
    case LoadWR => LoadWord(Look(m, b), a, Val(m, b), bus)
    case SaveBR => SaveByte(Look(m, b), a, Val(m, b))
    case LoadBR => LoadByte(Look(m, b), a, Val(m, b), bus)
    case SaveWI => SaveWordI(m, a, b)
    case LoadWI => Set(m, a, b)
    case SaveBI => SaveByte(Put(m, RSVD, a), RSVD, b)
    case LoadBI => Set(m, a, b % 256)
    case SaveWRI => SaveWordI(Look(m, b), a, Val(m, b))
    case SaveBRI => SaveByte(Put(Look(m, b), RSVD, a), RSVD, Val(m, b))
    case Arith(f) => Arithmetic3(m, f, a, b, c)
    case ArithI(f) => Arithmetic3(Put(m, RSVD, b), f, a, RSVD, c)
    case Jmp => Jump(m, a)
    case JmpR => Jump(Look(m, a), Val(m, a))
    case Branch(k) => BranchTo(m, k, a, b, c)
    case BranchI(k) => BranchImm(m, k, a, b, c)
    case BranchR(k) => BranchTo(Look(m, c), k, a, b, Val(m, c))
    case BranchRI(k) => BranchImm(Look(m, c), k, a, b, Val(m, c))
    case Halt => if m.ctl == Running then m.(ctl := Halted) else m
    case Interrupt => Intr(m)
    case ReturnFromTrap => Rfe(m)
    case Wait => m
    case Swap => SwapRegs(m, a, b)
    case Copy => Set(Look(m, b), a, Val(m, b))
    case Bits(f) => SetBits(Look(Look(m, a), b), f, Val(m, a), Val(m, b), c)
    case BitsI(f) => SetBits(Look(m, a), f, Val(m, a), b, c)
    case Not => Set(Look(m, a), b, (-1 - Val(m, a)) % WORD)
    case CpuId => Set(m, RES, 6)
    case StrapR => InstallTrap(m, a, b)
    case StrapI => InstallTrap(Put(m, RSVD, a), RSVD, b)
  }

  /** One word of the instruction, by way of the reserved register; PC moves on. */
  function FetchWord(m: State, bus: Bus): State {
    if m.ctl != Running then m
    else if m.regs[PC] + 3 > MAXVAL then m.(ctl := Unmodelled)
    else
      var l := LoadWord(m, RSVD, m.regs[PC], bus);
      Set(l, PC, l.regs[PC] + 4)
  }

  /** A register operand may not name the fault counter or the reserved register. */
  predicate Disallowed(kind: Arg, v: int) { kind == Reg && (v == FC || v == RSVD) }

  predicate BadOperands(op: Op, a: int, b: int, c: int) {
    var kinds := ArgTypes(op);
    Disallowed(kinds.0, a) || Disallowed(kinds.1, b) || Disallowed(kinds.2, c)
  }

  /** A privilege fault goes back to the instruction and traps. */
  function Recover(m: State): State {
    if m.ctl == Privileged then
      var l := m.(ctl := Running);
      Trap(Set(l, PC, l.regs[PC] - 16), TRAP_ILL)
    else m
  }

  function Dispatch(m: State, opcode: int, a: int, b: int, c: int, bus: Bus): State {
    if m.ctl != Running then m
    else if !(0 <= opcode < OPCODES) || BadOperands(Decode(opcode), a, b, c) then Trap(m, TRAP_ILL)
    else Recover(Execute(m, Decode(opcode), a, b, c, bus))
  }

  function Fetched(m: State, k: nat, bus: Bus): State {
    if k == 0 then m else FetchWord(Fetched(m, k - 1, bus), bus)
  }

  function Step(m: State, bus: Bus): State {
    var m1 := Fetched(m, 1, bus);
    var m2 := Fetched(m, 2, bus);
    var m3 := Fetched(m, 3, bus);
    var m4 := Fetched(m, 4, bus);
    Dispatch(m4, m1.regs[RSVD], m2.regs[RSVD], m3.regs[RSVD], m4.regs[RSVD], bus)
  }

  lemma FetchedUnfolds(m: State, bus: Bus)
    ensures Fetched(m, 1, bus) == FetchWord(m, bus)
    ensures Fetched(m, 2, bus) == FetchWord(Fetched(m, 1, bus), bus)
    ensures Fetched(m, 3, bus) == FetchWord(Fetched(m, 2, bus), bus)
    ensures Fetched(m, 4, bus) == FetchWord(Fetched(m, 3, bus), bus)
  {
    hide FetchWord;
    assert Fetched(m, 0, bus) == m;
  }

  // -------- runs --------

  /** What happens between two instruction boundaries: an instruction, with what the devices answer
      while it runs, or an interrupt request arriving from another thread. */
  datatype Event = Tick(bus: Bus) | Request

  function After(m: State, e: Event): State {
    match e
    case Tick(bus) => Step(m, bus)
    case Request => Intr(m)
  }

  function Run(m: State, events: seq<Event>): State {
    if |events| == 0 then m
    else After(Run(m, events[..|events| - 1]), events[|events| - 1])
  }
}
