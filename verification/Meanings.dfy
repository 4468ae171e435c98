/** How the meaning of an instruction is stated: by its four words in memory and what one step makes of
    the machine, register by register and byte by byte. */
module Meanings {
  import opened Words
  import opened Status
  import opened Machine
  import opened Instructions
  import opened Invariants
  import opened Fetch
  import opened Runs

  /** The instruction at PC, as it is fetched. */
  predicate At(m: State, o: int, a: int, b: int, c: int, bus: Bus) {
    && Fetchable(m) && InstrWord(m, 0, bus) == o && InstrWord(m, 1, bus) == a
    && InstrWord(m, 2, bus) == b && InstrWord(m, 3, bus) == c
  }

  /** The sixteen bytes of an instruction somewhere in RAM. */
  predicate Laid(ram: seq<Byte>, at: int, o: int, a: int, b: int, c: int) {
    && 0 <= at && at + 16 <= |ram| && at + 16 <= LOWEST_DEVICE
    && ram[at..at + 4] == Packed(o) && ram[at + 4..at + 8] == Packed(a)
    && ram[at + 8..at + 12] == Packed(b) && ram[at + 12..at + 16] == Packed(c)
  }

  predicate Stands(m: State, o: int, a: int, b: int, c: int) { Laid(m.ram, m.regs[PC], o, a, b, c) }

  predicate Word(v: int) { 0 <= v <= MAXVAL }

  /** An instruction whose bytes stand in RAM at PC is fetched, with the MMU off. */
  lemma RamAt(m: State, o: int, a: int, b: int, c: int, bus: Bus)
    requires Stands(m, o, a, b, c) && !MmuOn(m) && Word(o) && Word(a) && Word(b) && Word(c)
    ensures At(m, o, a, b, c, bus)
  {
    hide HasBit, InstrWord, WordFetchable, Packed;
    RamInstrWord(m, 0, o, bus);
    RamInstrWord(m, 1, a, bus);
    RamInstrWord(m, 2, b, bus);
    RamInstrWord(m, 3, c, bus);
  }

  /** A register an instruction may read. */
  predicate Source(m: State, r: int) { 0 <= r < RSVD && r != FC && (IsPriv(r) ==> !UserMode(m)) }

  /** A register it may write without setting off an interrupt. */
  predicate Target(m: State, r: int) { Source(m, r) && r != STATUS }

  /** What it reads there: PC is already past the instruction. */
  function Reads(m: State, r: int): int
    requires 0 <= r < RSVD
  {
    if r == PC then m.regs[PC] + 16 else m.regs[r]
  }

  predicate SameMemory(m: State, n: State) { n.ram == m.ram && n.vectors == m.vectors && n.sent == m.sent }

  /** The registers named get the values given; every other a program can name is as it was, and PC is
      past the instruction. */
  predicate Sets(m: State, n: State, t: map<int, int>) {
    && n.ctl == Running && n.pending == m.pending
    && forall r :: 0 <= r < RSVD ==>
         n.regs[r] == if r in t then t[r] else if r == PC then m.regs[PC] + 16 else m.regs[r]
  }

  /** And nothing else happens. */
  predicate Does(m: State, n: State, t: map<int, int>) { Sets(m, n, t) && SameMemory(m, n) }

  /** A trap from the instruction: into the vector at fault count 0, else the end. */
  predicate Enters(m: State, n: State, vector: int) {
    && SameMemory(m, n)
    && (if m.regs[FC] == 0 then
          Sets(m, n, map[STATUS := Push(m.regs[STATUS]), FC := 1, RET := m.regs[PC] + 16, PC := vector])
        else n.ctl == Halted && n.regs[FC] == 3)
  }

  /** What a step makes of it: the words are dispatched from the state after the fetch. */
  lemma Decoded(m: State, o: int, a: int, b: int, c: int, bus: Bus) returns (f: State)
    requires Ready(m) && At(m, o, a, b, c, bus)
    ensures Ready(f) && Step(m, bus) == Dispatch(f, o, a, b, c, bus)
    ensures f == m.(regs := m.regs[RSVD := c][PC := m.regs[PC] + 16], accesses := m.accesses + 16)
    ensures !MmuOn(f) && !MmuOn(m)
    ensures forall r :: 0 <= r < RSVD ==> Val(f, r) == Reads(m, r) >= 0
    ensures forall r :: Source(m, r) ==> Look(f, r) == f && Source(f, r)
  {
    hide Step, Dispatch, InstrWord, HasBit;
    StepDecoded(m, bus);
    FetchingReady(m, bus);
    f := Fetching(m, 4, bus);
    MmuOff(m);
  }

  lemma MmuOff(m: State)
    requires Fetchable(m)
    ensures !MmuOn(m)
  {
    hide HasBit;
  }

  /** The same for an instruction that goes through. */
  lemma Executed(m: State, o: int, a: int, b: int, c: int, bus: Bus, op: Op) returns (f: State)
    requires Ready(m) && At(m, o, a, b, c, bus) && 0 <= o < OPCODES && op == Decode(o) && !BadOperands(op, a, b, c)
    ensures Ready(f) && !MmuOn(f) && !MmuOn(m)
    ensures f == m.(regs := m.regs[RSVD := c][PC := m.regs[PC] + 16], accesses := m.accesses + 16)
    ensures forall r :: 0 <= r < RSVD ==> Val(f, r) == Reads(m, r) >= 0
    ensures forall r :: Source(m, r) ==> Look(f, r) == f && Source(f, r)
    ensures Execute(f, op, a, b, c, bus).ctl != Privileged ==> Step(m, bus) == Execute(f, op, a, b, c, bus)
  {
    hide Step, Dispatch, Execute, At, Decode, BadOperands, Look, Source, HasBit;
    f := Decoded(m, o, a, b, c, bus);
    if Execute(f, op, a, b, c, bus).ctl != Privileged { DispatchQuiet(f, o, a, b, c, bus); }
  }

  /** A write to a register that sets nothing off. */
  lemma SetTarget(f: State, r: int, v: int)
    requires Ready(f) && Target(f, r)
    ensures Set(f, r, v) == f.(regs := f.regs[r := v])
    ensures v >= 0 ==> Ready(f.(regs := f.regs[r := v]))
  {
    hide HasBit, Trap;
    SetPlain(f, r, v);
  }

  /** A trap taken after the fetch. */
  lemma TrapEntered(m: State, f: State, k: State, vector: int)
    requires Ready(m) && Ready(f) && vector >= 0
    requires f.regs[FC] == m.regs[FC] && f.regs[STATUS] == m.regs[STATUS] && f.regs[PC] == m.regs[PC] + 16
    requires k == f.(regs := k.regs) && SameMemory(m, f) && f.pending == m.pending
    requires forall r :: 0 <= r < RSVD ==> k.regs[r] == if r == PC then m.regs[PC] + 16 else m.regs[r]
    ensures Enters(m, Trap(k, vector), vector)
  {
    hide HasBit, Push;
  }
}
