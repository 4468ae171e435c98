/** Small programs the general theorems speak about: a vector that returns at once, without and with
    an interrupt request meanwhile, a user program that reads the status register, and one that
    returns from a trap it is not in. */
module Cases {
  import opened Words
  import opened Status
  import opened Machine
  import opened Instructions
  import opened Invariants
  import opened Fetch
  import opened Runs
  import opened Protection
  import opened Vectors
  import opened Meanings

  /** A vector slot that starts with `rfe`: a trap into it from a first-level program is over in one
      step, and nothing of it shows. */
  lemma SlotReturns(m: State, k: nat, bus: Bus)
    requires Ready(m) && m.regs[FC] == 0 && !MmuOn(m)
    requires k < 256 && m.vectors[16 * k..16 * k + 4] == Packed(RFE)
    ensures var t := Trap(m, VECTORS + 16 * k);
      AtRfe(t, bus) && Resumed(m, Step(t, bus)) && Step(t, bus).ram == m.ram
  {
    hide HasBit, Push, Step, Resumed, Handler, InstrWord, WordFetchable, Packed;
    var addr := VECTORS + 16 * k;
    var t := Trap(m, addr);
    TrapAtZero(m, addr);
    TrapOnce(m, addr);
    TrapMmu(m);
    FetchedVector(t, k, 0, RFE, bus);
    SlotFetchable(t, k);
    assert Handler(t, []) by { NoEvents(t); }
    assert Run(t, []) == t;
    TrapBracket(m, addr, [], bus);
    RfeStep(t, bus);
    FetchingReady(t, bus);
    RfeExact(Fetching(t, 4, bus));
    FetchingKeeps(t, bus);
  }

  /** The same vector with one interrupt request while the handler runs: the interrupted program had
      interrupts on, so `rfe` takes the request and goes on behind itself, one level deep. */
  lemma RequestMissesReturn(m: State, k: nat, bus: Bus)
    requires Ready(m) && m.regs[FC] == 0 && !MmuOn(m) && Interruptible(m)
    requires k < 256 && m.vectors[16 * k..16 * k + 4] == Packed(RFE)
    ensures var t := Trap(m, VECTORS + 16 * k); var h := Run(t, [Request]); var r := Step(h, bus);
      && Handler(t, [Request]) && h == t.(pending := true) && AtRfe(h, bus)
      && !Resumed(m, r) && r.regs[PC] == VECTORS + 16 * k + 16 && r.regs[FC] == 1
  {
    hide HasBit, Push, Step, Resumed, Handler, InstrWord, WordFetchable, Packed;
    var addr := VECTORS + 16 * k;
    var t := Trap(m, addr);
    TrapAtZero(m, addr);
    TrapOnce(m, addr);
    TrapMmu(m);
    var h := t.(pending := true);
    RequestPends(t);
    FetchedVector(h, k, 0, RFE, bus);
    SlotFetchable(h, k);
    TrapBracket(m, addr, [Request], bus);
  }

  lemma RequestPends(t: State)
    requires t.ctl == Running && !Interruptible(t)
    ensures Handler(t, [Request]) && Run(t, [Request]) == t.(pending := true)
  {
    hide HasBit;
    assert [Request][..0] == [];
    assert Run(t, []) == t && Handler(t, []);
  }

  lemma NoEvents(t: State)
    ensures Handler(t, [])
  {
  }

  lemma SlotFetchable(t: State, k: nat)
    requires k < 256 && t.regs[PC] == VECTORS + 16 * k && !MmuOn(t)
    ensures Fetchable(t)
  {
    hide HasBit;
  }

  const COPY: int := 0x38

  /** `copy $r $status` in user mode traps as an illegal instruction, changing nothing else. */
  lemma StatusReadFaults(m: State, r: int, bus: Bus)
    requires Ready(m) && UserMode(m) && m.regs[FC] == 0 && !MmuOn(m)
    requires 0 <= r < PC && Stands(m, COPY, r, STATUS, 0)
    ensures FaultEntered(m, Step(m, bus))
  {
    hide HasBit, Step, InstrWord, WordFetchable, Packed, FaultEntered, Execute, Decode, BadOperands;
    RamInstrWord(m, 0, COPY, bus);
    RamInstrWord(m, 1, r, bus);
    RamInstrWord(m, 2, STATUS, bus);
    RamInstrWord(m, 3, 0, bus);
    CopyDecodes(r);
    FetchingReady(m, bus);
    UserFetch(m, bus);
    CopyRaises(Fetching(m, 4, bus), r, bus);
    FaultStep(m, bus);
  }

  lemma CopyDecodes(r: int)
    requires 0 <= r < PC
    ensures Decode(COPY).Copy? && !BadOperands(Decode(COPY), r, STATUS, 0)
  {
  }

  lemma CopyRaises(f: State, r: int, bus: Bus)
    requires f.ctl == Running && UserMode(f)
    ensures Execute(f, Copy, r, STATUS, 0, bus).ctl == Privileged
  {
    hide HasBit;
  }

  /** `rfe` in user mode with the saved user bit clear and nothing pending: no trap is entered, and
      the program goes on in kernel mode at the address in RET. */
  lemma RfeLeavesUser(m: State, bus: Bus)
    requires Ready(m) && UserMode(m) && !MmuOn(m) && !m.pending && !HasBit(m.regs[STATUS], USER_PREV)
    requires Stands(m, RFE, 0, 0, 0)
    ensures TrapFree(m, [Tick(bus)]) && !StaysUser(m, [Tick(bus)]) && !SavedUser(m, [Tick(bus)])
    ensures !UserMode(Step(m, bus)) && Step(m, bus).regs[PC] == m.regs[RET]
  {
    hide HasBit, Step, InstrWord, WordFetchable, Packed;
    RamInstrWord(m, 0, RFE, bus);
    RamInstrWord(m, 1, 0, bus);
    RamInstrWord(m, 2, 0, bus);
    RamInstrWord(m, 3, 0, bus);
    RfeMode(m, bus);
    assert [Tick(bus)][..0] == [];
    assert Run(m, []) == m && TrapFree(m, []) && SavedUser(m, []);
    assert Run(m, [Tick(bus)]) == Step(m, bus);
  }
}
