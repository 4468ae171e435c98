/** The machine as one value: registers, memory, the pending-interrupt flag and how the emulator's
    thread of control stands; and the primitives every instruction is made of.  Memory is read
    directly here.  Exceptions are a field: once the control is not `Running`, every primitive
    leaves the machine alone. */
module Machine {
  import opened Words
  import opened Status

  // Register numbers
  const PC: int := 0x20
  const SP: int := 0x21
  const RES: int := 0x22
  const CARRY: int := 0x23
  const RET: int := 0x24
  const STATUS: int := 0x25
  const VADDR: int := 0x26
  const BPTR: int := 0x27
  const FC: int := 0x28
  const RSVD: int := 0x29
  const LAST: int := 0x2a

  // Trap vectors
  const VECTORS: int := 0xffff_f000
  const TRAP_INTR: int := 0xffff_f000
  const TRAP_ILL: int := 0xffff_f010
  const TRAP_DIV: int := 0xffff_f020

  type Registers = s: seq<int> | |s| == 0x2a witness seq(0x2a, _ => 0)
  type Vectors = s: seq<Byte> | |s| == 4096 witness seq(4096, _ => 0)

  /** `Privileged`: a PrivilegeException is in flight.  `Halted`: `halt` ran.  `Crashed`: Python
      raised something the emulator does not catch.  `Unmodelled`: an access with the MMU on, or a
      fetch past the top of the address space; the model stops following the program there. */
  datatype Control = Running | Privileged | Halted | Crashed | Unmodelled

  datatype State = State(
    regs: Registers,
    pending: bool,                // intr_pending
    ram: seq<Byte>,
    vectors: Vectors,
    sent: seq<(int, Byte)>,       // bytes written to devices, in order
    accesses: nat,                // memory reads so far
    ctl: Control)

  /** What the devices answer: the n-th memory read of the run, at an address. */
  type Bus = (nat, int) -> Byte

  predicate IsPriv(r: int) { r == STATUS || r == VADDR || r == BPTR }

  predicate Interruptible(m: State) { HasBit(m.regs[STATUS], INTR) }

  predicate UserMode(m: State) { HasBit(m.regs[STATUS], USER) }

  predicate MmuOn(m: State) { HasBit(m.regs[STATUS], MMU_ENABLE) }

  // -------- registers --------

  /** The value at a register number; the check that goes with reading it is `Look`. */
  function Val(m: State, r: int): int {
    if 0 <= r < LAST then m.regs[r] else 0
  }

  /** Evaluating `registers[r]`, for its exceptions. */
  function Look(m: State, r: int): State {
    if m.ctl != Running then m
    else if IsPriv(r) && UserMode(m) then m.(ctl := Privileged)
    else if !(0 <= r < LAST) then m.(ctl := Crashed)
    else m
  }

  /** A property setter: straight into the list, no checks. */
  function Put(m: State, r: int, v: int): State
    requires 0 <= r < LAST
  {
    if m.ctl != Running then m else m.(regs := m.regs[r := v])
  }

  /** `registers[r] = v`: the privilege check, the store, and then a pending interrupt fires if the
      store left interrupts enabled. */
  function Set(m: State, r: int, v: int): State {
    var l := Look(m, r);
    if l.ctl != Running then l
    else
      var w := l.(regs := l.regs[r := v]);
      if Interruptible(w) && w.pending then Trap(w.(pending := false), TRAP_INTR) else w
  }

  lemma SetStopped(m: State, r: int)
    ensures m.ctl != Running ==> forall v :: Set(m, r, v) == m
  {
  }

  // -------- traps --------

  /** Trap entry.  A second fault goes to the double fault entry, which counts to three and halts:
      nothing is saved and no vector is entered. */
  function Trap(m: State, addr: int): State {
    if m.ctl != Running then m
    else
      var pushed := m.regs[STATUS := Push(m.regs[STATUS])];
      var fc := m.regs[FC] + 1;
      if fc == 2 then
        m.(regs := pushed[STATUS := Push(pushed[STATUS])][FC := 3], ctl := Halted)
      else if fc == 3 then
        m.(regs := pushed[FC := 3], ctl := Halted)
      else
        m.(regs := pushed[FC := fc][RET := m.regs[PC]][PC := addr])
  }

  /** An interrupt request, from the instruction or from the interrupt controller's thread. */
  function Intr(m: State): State {
    if m.ctl != Running then m
    else if !Interruptible(m) then m.(pending := true)
    else Trap(m.(pending := false), TRAP_INTR)
  }

  /** Return from a trap. */
  function Rfe(m: State): State {
    if m.ctl != Running then m
    else
      var m1 := Put(m, STATUS, Pop(m.regs[STATUS]));
      var m2 := if m1.regs[FC] > 0 then Set(m1, FC, m1.regs[FC] - 1) else m1;
      var m3 := if m2.pending && Interruptible(m2) then Intr(m2) else m2;
      Set(m3, PC, m3.regs[RET])
  }

  function Jump(m: State, addr: int): State {
    if addr < 0 then Trap(m, TRAP_ILL) else Set(m, PC, addr)
  }

  // -------- memory, with the MMU off --------

  /** The addresses the attached devices answer. */
  predicate IsDevice(a: int) {
    0xffff_e937 <= a <= 0xffff_efff && a != 0xffff_efc0 && a != 0xffff_efcd
  }

  /** They are the registers of the clock, the network, the storage, the keyboard, the timer, the
      interrupt controller and the printer. */
  lemma DevicesAnswer(a: int)
    ensures IsDevice(a) <==>
      || 0xffff_e937 <= a <= 0xffff_e94e || 0xffff_e94f <= a <= 0xffff_edaf || 0xffff_edb0 <= a <= 0xffff_efbf
      || 0xffff_efc1 <= a <= 0xffff_efc8 || 0xffff_efc9 <= a <= 0xffff_efcc || 0xffff_efce <= a <= 0xffff_effe
      || a == 0xffff_efff
  {
  }

  predicate IsVector(a: int) { VECTORS <= a <= MAXVAL }

  predicate IsRam(m: State, a: int) { 0 <= a < |m.ram| && !IsDevice(a) && a < VECTORS }

  predicate Mapped(m: State, a: int) { IsVector(a) || IsDevice(a) || IsRam(m, a) }

  /** The byte a read of `a` returns now. */
  function ByteAt(m: State, a: int, bus: Bus): Byte {
    if IsVector(a) then m.vectors[a - VECTORS]
    else if IsDevice(a) then bus(m.accesses, a)
    else if IsRam(m, a) then m.ram[a]
    else 0
  }

  /** Making the access `ByteAt` answers. */
  function Access(m: State, a: int): State {
    if m.ctl != Running then m
    else if MmuOn(m) then m.(ctl := Unmodelled)
    else if !Mapped(m, a) then m.(ctl := Crashed)
    else m.(accesses := m.accesses + 1)
  }

  function StoreByte(m: State, a: int, v: Byte): State {
    if m.ctl != Running then m
    else if MmuOn(m) then m.(ctl := Unmodelled)
    else if IsVector(a) then m.(vectors := m.vectors[a - VECTORS := v])
    else if IsDevice(a) then m.(sent := m.sent + [(a, v)])
    else if IsRam(m, a) then m.(ram := m.ram[a := v])
    else m.(ctl := Crashed)
  }
}
