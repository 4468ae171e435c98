/** A delivery followed to its handler: the controller's registers, the trap vector that jumps to them,
    and the two instructions the processor takes to get there. */
module Handlers {
  import opened Words
  import opened Status
  import opened Machine
  import opened Instructions
  import opened Invariants
  import opened Fetch
  import opened Runs
  import opened Vectors
  import I = Interrupts

  /** Where the controller's registers are, and the instruction among them. */
  const CONTROLLER: int := 0xffff_efce
  const ENTRY: int := 0xffff_efea

  /** The devices answer reads of the controller's registers with what it holds. */
  ghost predicate Answers(bus: Bus, c: I.Controller) {
    forall n: nat, a :: CONTROLLER <= a <= CONTROLLER + 0x30 ==> bus(n, a) == I.ReadByte(c, a - CONTROLLER)
  }

  lemma EntryByte(m: State, c: I.Controller, bus: Bus, i: nat)
    requires Answers(bus, c) && i < 16
    ensures IsDevice(ENTRY + i)
    ensures ByteAt(m, ENTRY + i, bus) == I.Instruction(c)[i]
  {
    hide I.ReadByte;
    assert ENTRY + i == CONTROLLER + (I.JMP_INSTR + i);
  }

  /** A word of the instruction at the entry, as a fetch sees it. */
  lemma EntryWord(t: State, c: I.Controller, bus: Bus, j: nat, w: int)
    requires Answers(bus, c) && t.regs[PC] == ENTRY && !MmuOn(t) && j < 4 && 0 <= w <= MAXVAL
    requires I.Instruction(c)[4 * j..4 * j + 4] == Packed(w)
    ensures InstrWord(t, j, bus) == w && WordFetchable(t, j)
  {
    hide HasBit, Packed, ByteAt, IsDevice, I.Instruction;
    var s := t.(accesses := t.accesses + 4 * j);
    EntryNth(s, c, bus, 4 * j, 0);
    EntryNth(s, c, bus, 4 * j, 1);
    EntryNth(s, c, bus, 4 * j, 2);
    EntryNth(s, c, bus, 4 * j, 3);
    var p := I.Instruction(c)[4 * j..4 * j + 4];
    assert p[0] == I.Instruction(c)[4 * j] && p[1] == I.Instruction(c)[4 * j + 1];
    assert p[2] == I.Instruction(c)[4 * j + 2] && p[3] == I.Instruction(c)[4 * j + 3];
    UnpackPacked(w);
  }

  lemma EntryNth(s: State, c: I.Controller, bus: Bus, at: nat, i: nat)
    requires Answers(bus, c) && at + i < 16
    ensures NthByte(s, i, ENTRY + at, bus) == I.Instruction(c)[at + i] && IsDevice(ENTRY + at + i)
  {
    hide ByteAt, IsDevice, I.Instruction, Answers;
    EntryByte(s.(accesses := s.accesses + i), c, bus, at + i);
  }

  lemma FourWords(a: seq<int>, b: seq<int>)
    requires |a| == 4 && |b| == 4
    ensures var s := a + b + [0, 0, 0, 0, 0, 0, 0, 0];
      s[0..4] == a && s[4..8] == b && s[8..12] == [0, 0, 0, 0] && s[12..16] == [0, 0, 0, 0]
  {
  }

  /** A processor at the entry takes the jump the controller holds. */
  lemma EntryTaken(t: State, c: I.Controller, bus: Bus)
    requires Ready(t) && !MmuOn(t) && t.regs[PC] == ENTRY && Answers(bus, c) && I.Narrow(c)
    ensures var n := Step(t, bus);
      && Ready(n) && n.regs[PC] == c.current && n.regs[RET] == t.regs[RET] && n.regs[FC] == t.regs[FC]
      && n.regs[STATUS] == t.regs[STATUS] && n.ram == t.ram
  {
    hide HasBit, Packed, I.Instruction, InstrWord, WordFetchable, Dispatch, Answers, Step, Fetching;
    I.InstructionBytes(c);
    PackedZero();
    FourWords(Packed(0x19), Packed(c.current));
    assert c.current <= MAXVAL;
    EntryWord(t, c, bus, 0, 0x19);
    EntryWord(t, c, bus, 1, c.current);
    EntryWord(t, c, bus, 2, 0);
    EntryWord(t, c, bus, 3, 0);
    StepDecoded(t, bus);
    FetchingReady(t, bus);
    FetchingKeeps(t, bus);
    JumpExecuted(Fetching(t, 4, bus), c.current, 0, 0, bus);
    StepReady(t, bus);
  }

  /** An interrupt delivered to a processor with interrupts on, at fault count 0 and with the first
      vector jumping to the controller: two instructions later it is at the handler registered for
      that interrupt, in kernel mode with interrupts off, the interrupted address in RET. */
  lemma DeliveredToHandler(steps: seq<I.Step>, m: State, first: Bus, second: Bus)
    requires I.Legal(steps) && I.Reached(steps).worker.Masked?
    requires I.Reached(steps).worker.n in I.Reached(steps).interrupts
    requires Ready(m) && Interruptible(m) && m.regs[FC] == 0 && !MmuOn(m) && JumpAt(m.vectors, 0, ENTRY)
    requires Answers(second, I.Next(I.Reached(steps), I.Deliver))
    ensures var c := I.Reached(steps); var n := Run(m, [Request, Tick(first), Tick(second)]);
      && n.ctl == Running && n.regs[PC] == c.interrupts[c.worker.n] && n.regs[RET] == m.regs[PC]
      && !UserMode(n) && !Interruptible(n) && n.regs[FC] == 1 && n.ram == m.ram
  {
    hide HasBit, Push, Step, Answers, JumpAt, I.Legal, I.Reached;
    var c := I.Reached(steps);
    var d := I.Next(c, I.Deliver);
    I.AllNarrow(steps);
    assert I.Narrow(d) && d.current == c.interrupts[c.worker.n] by { DeliverNarrow(c); }
    RequestEnters(m);
    var t := Intr(m);
    VectorTo(t, first);
    var u := Step(t, first);
    EntryTaken(u, d, second);
    ThreeEvents(m, first, second);
  }

  lemma DeliverNarrow(c: I.Controller)
    requires I.Narrow(c) && c.worker.Masked? && c.worker.n in c.interrupts
    ensures var d := I.Next(c, I.Deliver); I.Narrow(d) && d.current == c.interrupts[c.worker.n]
  {
  }

  lemma RequestEnters(m: State)
    requires Ready(m) && Interruptible(m) && m.regs[FC] == 0 && !MmuOn(m)
    ensures var t := Intr(m);
      && Ready(t) && t.regs[PC] == TRAP_INTR && t.regs[RET] == m.regs[PC] && t.regs[FC] == 1
      && !UserMode(t) && !Interruptible(t) && !MmuOn(t) && t.vectors == m.vectors && t.ram == m.ram
  {
    hide HasBit, Push;
    var q := m.(pending := false);
    TrapAtZero(q, TRAP_INTR);
    TrapOnce(q, TRAP_INTR);
    TrapMmu(q);
  }

  /** The first vector's jump to the controller. */
  lemma VectorTo(t: State, bus: Bus)
    requires Ready(t) && !MmuOn(t) && t.regs[PC] == TRAP_INTR && JumpAt(t.vectors, 0, ENTRY)
    ensures var n := Step(t, bus);
      && Ready(n) && n.regs[PC] == ENTRY && n.regs[RET] == t.regs[RET] && n.regs[FC] == t.regs[FC]
      && n.regs[STATUS] == t.regs[STATUS] && n.ram == t.ram
  {
    hide HasBit, InstrWord, WordFetchable, Dispatch, JumpAt;
    JumpFetched(t, 0, ENTRY, bus);
    StepDecoded(t, bus);
    FetchingReady(t, bus);
    FetchingKeeps(t, bus);
    JumpExecuted(Fetching(t, 4, bus), ENTRY, 0, 0, bus);
    StepReady(t, bus);
  }

  lemma ThreeEvents(m: State, first: Bus, second: Bus)
    ensures Run(m, [Request, Tick(first), Tick(second)]) == Step(Step(Intr(m), first), second)
  {
    hide Step, Intr;
    var all := [Request, Tick(first), Tick(second)];
    assert all[..2] == [Request, Tick(first)] && all[..2][..1] == [Request] && all[..2][..1][..0] == [];
    assert Run(m, []) == m && Run(m, [Request]) == Intr(m);
    assert Run(m, all[..2]) == Step(Intr(m), first);
  }
}
