/** Safety over whole runs: instructions and interrupt requests in any order. */
module Runs {
  import opened Words
  import opened Status
  import opened Machine
  import opened Instructions
  import opened Invariants
  import opened Fetch

  const RFE: int := 0x35

  /** The decoded instruction at PC, when it is one that gets executed. */
  predicate Executes(m: State, bus: Bus) {
    Fetchable(m) && InstrWord(m, 0, bus) < OPCODES
    && !BadOperands(Decode(InstrWord(m, 0, bus)), InstrWord(m, 1, bus), InstrWord(m, 2, bus), InstrWord(m, 3, bus))
  }

  /** The registers the next step may write when it does not trap. */
  function StepDestination(m: State, bus: Bus): set<int> {
    if Executes(m, bus) then
      Destination(Decode(InstrWord(m, 0, bus)), InstrWord(m, 1, bus), InstrWord(m, 2, bus), InstrWord(m, 3, bus)) + {PC}
    else {PC}
  }

  predicate AtRfe(m: State, bus: Bus) { Fetchable(m) && InstrWord(m, 0, bus) == RFE }

  lemma RecoverEffect(m: State, k: State, dest: set<int>)
    requires Ready(m) && Effect(m, k, dest) && PC in dest && m.regs[PC] >= 16
    ensures Effect(m, Recover(k), dest)
    ensures Recover(k).ctl != Privileged
  {
    if k.ctl == Privileged {
      var l := k.(ctl := Running);
      assert Effect(m, l, dest);
      hide Trap, Kept, Trapped, HasBit;
      SetPlain(l, PC, l.regs[PC] - 16);
      var p := Set(l, PC, l.regs[PC] - 16);
      assert Ready(p);
      assert Effect(m, p, dest) by { MovedPC(m, l, p, dest); }
      TrapEffect(p, TRAP_ILL, dest);
      TrapControl(p, TRAP_ILL);
      Compose(m, p, Trap(p, TRAP_ILL), dest);
    }
  }

  lemma MovedPC(m: State, l: State, p: State, dest: set<int>)
    requires Effect(m, l, dest) && l.ctl == Running && PC in dest
    requires p == l.(regs := l.regs[PC := l.regs[PC] - 16]) && l.regs[PC] >= 16
    ensures Effect(m, p, dest)
  {
  }

  lemma TrapControl(m: State, addr: int)
    requires m.ctl == Running
    ensures Trap(m, addr).ctl == Running || Trap(m, addr).ctl == Halted
  {
  }

  lemma FetchingEffect(m: State, n: State, bus: Bus, dest: set<int>)
    requires Ready(m) && Effect(Fetching(m, 4, bus), n, dest) && PC in dest
    requires n.ctl != Privileged
    ensures Effect(m, n, dest)
  {
  }

  lemma FetchingReady(m: State, bus: Bus)
    requires Ready(m)
    ensures Ready(Fetching(m, 4, bus)) && Fetching(m, 4, bus).regs[PC] == m.regs[PC] + 16
    ensures Fetching(m, 4, bus).regs[FC] == m.regs[FC]
  {
    hide InstrWord, HasBit;
  }

  lemma EffectGrows(m: State, n: State, dest: set<int>, more: set<int>)
    requires Effect(m, n, dest) && dest <= more
    ensures Effect(m, n, more)
  {
  }

  lemma DispatchEffect(f: State, o: int, a: int, b: int, c: int, bus: Bus)
    requires Ready(f) && f.regs[PC] >= 16 && o != RFE && o >= 0 && a >= 0 && b >= 0 && c >= 0
    ensures var n := Dispatch(f, o, a, b, c, bus);
      && n.ctl != Privileged
      && Effect(f, n, if o < OPCODES && !BadOperands(Decode(o), a, b, c)
                      then Destination(Decode(o), a, b, c) + {PC} else {PC})
  {
    hide Effect, Destination, Execute, Recover, Trap, Decode, BadOperands;
    Dispatched(f, o, a, b, c, bus);
    if o < OPCODES && !BadOperands(Decode(o), a, b, c) {
      var op := Decode(o);
      DecodeRfe(o);
      var k := Execute(f, op, a, b, c, bus);
      ExecuteEffect(f, op, a, b, c, bus);
      EffectGrows(f, k, Destination(op, a, b, c), Destination(op, a, b, c) + {PC});
      RecoverEffect(f, k, Destination(op, a, b, c) + {PC});
    } else {
      TrapEffect(f, TRAP_ILL, {PC});
      TrapControl(f, TRAP_ILL);
    }
  }

  /** One instruction other than `rfe`, as a whole: fetch, operand checks, execution, and the trap
      that an illegal or a privileged instruction takes. */
  lemma StepEffect(m: State, bus: Bus)
    requires Ready(m) && !AtRfe(m, bus)
    ensures Effect(m, Step(m, bus), StepDestination(m, bus))
    ensures Step(m, bus).ctl != Privileged
  {
    hide Step, Effect, Destination, Dispatch, Fetching, WordFetchable, Decode, BadOperands, InstrWord;
    StepDecoded(m, bus);
    var dest := StepDestination(m, bus);
    if Fetchable(m) {
      FetchingReady(m, bus);
      var f := Fetching(m, 4, bus);
      DispatchEffect(f, InstrWord(m, 0, bus), InstrWord(m, 1, bus), InstrWord(m, 2, bus), InstrWord(m, 3, bus), bus);
      FetchingEffect(m, Step(m, bus), bus, dest);
    } else {
      EndedEffect(m, Step(m, bus), dest);
    }
  }

  lemma Dispatched(f: State, o: int, a: int, b: int, c: int, bus: Bus)
    requires f.ctl == Running
    ensures Dispatch(f, o, a, b, c, bus) ==
      if 0 <= o < OPCODES && !BadOperands(Decode(o), a, b, c) then Recover(Execute(f, Decode(o), a, b, c, bus))
      else Trap(f, TRAP_ILL)
  {
    hide Execute, Recover, Trap, Decode, BadOperands;
  }

  lemma ReadyRuns(m: State)
    requires Ready(m)
    ensures m.ctl == Running
  {
  }

  /** An instruction that raises nothing is the whole dispatch. */
  lemma DispatchQuiet(f: State, o: int, a: int, b: int, c: int, bus: Bus)
    requires Ready(f) && 0 <= o < OPCODES && !BadOperands(Decode(o), a, b, c)
    requires Execute(f, Decode(o), a, b, c, bus).ctl != Privileged
    ensures Dispatch(f, o, a, b, c, bus) == Execute(f, Decode(o), a, b, c, bus)
  {
    hide Execute, Decode, BadOperands, Ready, Dispatch;
    ReadyRuns(f);
    Dispatched(f, o, a, b, c, bus);
  }

  lemma DecodeRfe(o: int)
    requires 0 <= o < OPCODES
    ensures Decode(o).ReturnFromTrap? <==> o == RFE
  {
  }

  // -------- rfe --------

  /** Whether `rfe` is about to let a pending interrupt in. */
  predicate Reopens(m: State) { m.pending && HasBit(m.regs[STATUS], INTR_PREV) }

  function FaultsBelow(m: State): int { if m.regs[FC] > 0 then m.regs[FC] - 1 else m.regs[FC] }

  lemma TrapAtZero(m: State, addr: int)
    requires m.ctl == Running && m.regs[FC] == 0
    ensures Trap(m, addr) ==
      m.(regs := m.regs[STATUS := Push(m.regs[STATUS])][FC := 1][RET := m.regs[PC]][PC := addr])
  {
  }

  lemma RfeQuiet(m: State)
    requires Ready(m) && !Reopens(m)
    ensures Rfe(m) ==
      m.(regs := m.regs[STATUS := Pop(m.regs[STATUS])][FC := FaultsBelow(m)][PC := m.regs[RET]])
  {
    PopRestores(m.regs[STATUS]);
    hide Trap, Pop, HasBit, Intr, Set;
    var m1 := Put(m, STATUS, Pop(m.regs[STATUS]));
    SetPlain(m1, FC, m1.regs[FC] - 1);
    var m2 := m1.(regs := m1.regs[FC := FaultsBelow(m)]);
    assert m1.regs[FC := m1.regs[FC]] == m1.regs;
    assert Interruptible(m2) == Interruptible(m1);
    SetPlain(m2, PC, m2.regs[RET]);
  }

  lemma RfeLate(m: State)
    requires Ready(m) && Reopens(m)
    ensures Rfe(m) ==
      m.(regs := m.regs[STATUS := Push(Pop(m.regs[STATUS]))][FC := FaultsBelow(m) + 1][RET := m.regs[PC]],
         pending := false)
  {
    PopRestores(m.regs[STATUS]);
    hide Trap, Pop, Push, HasBit;
    var m1 := Put(m, STATUS, Pop(m.regs[STATUS]));
    var m2 := m1.(regs := m1.regs[FC := 0]);
    assert Interruptible(m2) == Interruptible(m1);
    assert m1.regs[FC] == 0 ==> m1.regs[FC := 0] == m1.regs;
    var t := Trap(m2.(pending := false), TRAP_INTR);
    TrapAtZero(m2.(pending := false), TRAP_INTR);
    assert Rfe(m) == Set(t, PC, t.regs[RET]);
    assert t.regs[PC := t.regs[RET]] ==
      m.regs[STATUS := Push(Pop(m.regs[STATUS]))][FC := FaultsBelow(m) + 1][RET := m.regs[PC]];
  }

  /** `rfe` resumes at RET with the saved bits back and one fault fewer, unless an interrupt is
      pending and the restored bit lets it in: then the interrupt trap is entered on the way, and
      the jump to the new RET lands after the `rfe` itself, with interrupts masked. */
  lemma RfeExact(m: State)
    requires Ready(m)
    ensures var s := Pop(m.regs[STATUS]);
      Rfe(m) == if !Reopens(m) then
          m.(regs := m.regs[STATUS := s][FC := FaultsBelow(m)][PC := m.regs[RET]])
        else
          m.(regs := m.regs[STATUS := Push(s)][FC := FaultsBelow(m) + 1][RET := m.regs[PC]],
             pending := false)
  {
    hide Rfe, Push, Pop, Reopens;
    if Reopens(m) { RfeLate(m); } else { RfeQuiet(m); }
  }

  lemma RfeReady(m: State)
    requires Ready(m)
    ensures Ready(Rfe(m))
  {
    hide Rfe, Push, Pop, HasBit;
    var s := Pop(m.regs[STATUS]);
    RfeExact(m);
    PopRestores(m.regs[STATUS]);
    PushSaves(s);
  }

  // -------- invariants of every run --------

  lemma RfeStep(m: State, bus: Bus)
    requires Ready(m) && AtRfe(m, bus)
    ensures Step(m, bus) == Rfe(Fetching(m, 4, bus))
  {
    hide Fetching, InstrWord, WordFetchable, Rfe;
    StepDecoded(m, bus);
    FetchingReady(m, bus);
    RfeDispatch(Fetching(m, 4, bus), InstrWord(m, 1, bus), InstrWord(m, 2, bus), InstrWord(m, 3, bus), bus);
  }

  lemma RfeDispatch(f: State, a: int, b: int, c: int, bus: Bus)
    requires Ready(f)
    ensures Dispatch(f, RFE, a, b, c, bus) == Rfe(f)
  {
    hide Rfe, Decode, BadOperands, Trap, LoadWord, LoadByte, SaveWord, SaveByte, SaveWordI, InstallTrap, Arithmetic3,
         BranchTo,
         BranchImm, SwapRegs, SetBits, Intr, Jump, Set, Look, Put;
    RfeReady(f);
    RfeDecodes();
  }

  lemma RfeDecodes()
    ensures Decode(RFE).ReturnFromTrap? && forall a, b, c :: !BadOperands(Decode(RFE), a, b, c)
  {
  }

  lemma StepReady(m: State, bus: Bus)
    requires Ready(m)
    ensures Ended(Step(m, bus)) || Ready(Step(m, bus))
  {
    hide Step, Fetching, Rfe, AtRfe, StepDestination;
    if AtRfe(m, bus) {
      RfeStep(m, bus);
      FetchingReady(m, bus);
      RfeReady(Fetching(m, 4, bus));
    } else {
      StepEffect(m, bus);
    }
  }

  lemma AfterReady(m: State, e: Event)
    requires Ready(m)
    ensures Ended(After(m, e)) || Ready(After(m, e))
  {
    hide Step, Intr;
    match e
    case Tick(bus) => StepReady(m, bus);
    case Request =>
      IntrEffect(m, {});
      IntrControl(m);
  }

  lemma IntrControl(m: State)
    requires m.ctl == Running
    ensures Intr(m).ctl != Privileged
  {
  }

  lemma EndedStays(m: State, e: Event)
    requires Ended(m)
    ensures After(m, e) == m
  {
    hide FetchWord, Dispatch;
    if e.Tick? {
      FetchedUnfolds(m, e.bus);
      StoppedFetch(m, e.bus);
      StoppedDispatch(m, e.bus);
    }
  }

  /** A request from the interrupt controller's thread ends the machine exactly when it comes with
      interrupts on inside a trap. */
  lemma RequestEnds(m: State)
    requires Ready(m)
    ensures Ended(After(m, Request)) <==> Interruptible(m) && m.regs[FC] == 1
    ensures Ended(After(m, Request)) ==> After(m, Request).ctl == Halted && After(m, Request).regs[FC] == 3
  {
    hide Push, HasBit;
  }

  /** At every boundary of every run that has not ended: no interrupt is both pending and enabled,
      the fault counter is 0 or 1, no privilege fault is left in flight, and no register a program
      can name is negative. */
  lemma {:induction false} RunReady(m: State, events: seq<Event>)
    requires Ready(m)
    ensures Ended(Run(m, events)) || Ready(Run(m, events))
  {
    hide After, Ready, Ended;
    if |events| != 0 {
      var k := Run(m, events[..|events| - 1]);
      RunReady(m, events[..|events| - 1]);
      if Ended(k) { EndedStays(k, events[|events| - 1]); }
      else { AfterReady(k, events[|events| - 1]); }
    }
  }

  /** Power-on: an image in memory and everything else zero. */
  function Boot(ram: seq<Byte>): State {
    State(seq(LAST, _ => 0), false, ram, seq(4096, _ => 0), [], 0, Running)
  }

  lemma BootRuns(ram: seq<Byte>, events: seq<Event>)
    ensures var n := Run(Boot(ram), events);
      Ended(n) || (n.ctl == Running && Settled(n) && 0 <= n.regs[FC] <= 1 && NonNegative(n))
  {
    hide Run;
    RunReady(Boot(ram), events);
  }

  /** A trap is entered only from fault count 0; at 1 it halts the machine instead, and the double
      fault vector is never entered. */
  lemma TrapOnce(m: State, addr: int)
    requires Ready(m) && addr >= 0
    ensures if m.regs[FC] == 0
      then Ready(Trap(m, addr)) && Trap(m, addr).regs[PC] == addr && Trap(m, addr).regs[RET] == m.regs[PC]
           && Trap(m, addr).regs[FC] == 1 && !UserMode(Trap(m, addr)) && !Interruptible(Trap(m, addr))
      else Trap(m, addr).ctl == Halted && Trap(m, addr).regs[FC] == 3 && Trap(m, addr).regs[PC] == m.regs[PC]
           && Trap(m, addr).regs[RET] == m.regs[RET]
  {
    PushSaves(m.regs[STATUS]);
    hide Push, HasBit;
  }
}
