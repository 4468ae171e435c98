/** User-mode confinement, trap brackets and precise privilege faults. */
module Protection {
  import opened Words
  import opened Status
  import opened Machine
  import opened Instructions
  import opened Invariants
  import opened Fetch
  import opened Runs
  import Division

  // -------- confinement --------

  /** No `rfe` is executed during the run. */
  predicate NoRfe(m: State, events: seq<Event>) {
    |events| == 0 ||
    (var k, e := Run(m, events[..|events| - 1]), events[|events| - 1];
     NoRfe(m, events[..|events| - 1]) && (e.Tick? ==> !AtRfe(k, e.bus)))
  }

  /** One event without `rfe`, from any mode. */
  lemma EventEffect(m: State, e: Event) returns (dest: set<int>)
    requires Ready(m) && (e.Tick? ==> !AtRfe(m, e.bus))
    ensures Effect(m, After(m, e), dest) && After(m, e).ctl != Privileged
    ensures dest == if e.Tick? then StepDestination(m, e.bus) else {}
  {
    hide Step, Effect, AtRfe, StepDestination, Intr;
    if e.Tick? {
      dest := StepDestination(m, e.bus);
      StepEffect(m, e.bus);
    } else {
      dest := {};
      IntrEffect(m, {});
      IntrControl(m);
    }
  }

  /** Whatever the instructions and operands are: from user mode, as long as no trap is taken (the
      fault count stands still) and no `rfe` runs, the privileged registers do not change and the
      machine stays in user mode.  The fault count never goes down on such a run. */
  lemma {:induction false} Confined(m: State, events: seq<Event>)
    requires Ready(m) && UserMode(m) && NoRfe(m, events)
    ensures var n := Run(m, events);
      Ended(n) ||
      (&& Ready(n) && n.regs[FC] >= m.regs[FC]
       && (n.regs[FC] == m.regs[FC] ==>
             && UserMode(n) && n.regs[STATUS] == m.regs[STATUS]
             && n.regs[VADDR] == m.regs[VADDR] && n.regs[BPTR] == m.regs[BPTR]))
  {
    hide After, HasBit, AtRfe, StepDestination;
    if |events| != 0 {
      var e := events[|events| - 1];
      var k := Run(m, events[..|events| - 1]);
      Confined(m, events[..|events| - 1]);
      if Ended(k) { EndedStays(k, e); }
      else { var dest := EventEffect(k, e); }
    }
  }

  /** The only way a user-mode event without `rfe` leaves user mode is a trap entry: into kernel
      mode, interrupts masked, with VADDR and BPTR as they were. */
  lemma LeavesByTrap(m: State, e: Event)
    requires Ready(m) && UserMode(m) && (e.Tick? ==> !AtRfe(m, e.bus))
    ensures var n := After(m, e);
      Ended(n) || (UserMode(n) && n.regs[FC] == m.regs[FC])
      || (&& n.regs[FC] == m.regs[FC] + 1 && !UserMode(n) && !Interruptible(n)
          && n.regs[VADDR] == m.regs[VADDR] && n.regs[BPTR] == m.regs[BPTR])
  {
    hide After, HasBit, AtRfe, StepDestination;
    var dest := EventEffect(m, e);
  }

  // -------- leaving user mode without a trap --------

  /** The event ends the machine or enters a trap. */
  predicate Traps(m: State, e: Event) {
    Ended(After(m, e)) ||
    (if e.Tick? && AtRfe(m, e.bus) then Reopens(m) else After(m, e).regs[FC] != m.regs[FC])
  }

  predicate TrapFree(m: State, events: seq<Event>) {
    |events| == 0 ||
    (TrapFree(m, events[..|events| - 1]) && !Traps(Run(m, events[..|events| - 1]), events[|events| - 1]))
  }

  /** User mode at every boundary of the run. */
  predicate StaysUser(m: State, events: seq<Event>) {
    UserMode(Run(m, events)) && (|events| == 0 || StaysUser(m, events[..|events| - 1]))
  }

  /** Every `rfe` of the run finds the saved user bit set. */
  predicate SavedUser(m: State, events: seq<Event>) {
    |events| == 0 ||
    (var k, e := Run(m, events[..|events| - 1]), events[|events| - 1];
     SavedUser(m, events[..|events| - 1]) && (e.Tick? && AtRfe(k, e.bus) ==> HasBit(k.regs[STATUS], USER_PREV)))
  }

  /** `rfe` is not privileged: without a waiting interrupt it goes where RET says, in the mode the
      saved bit says. */
  lemma RfeMode(m: State, bus: Bus)
    requires Ready(m) && AtRfe(m, bus) && !Reopens(m)
    ensures var n := Step(m, bus);
      && Ready(n) && n.regs[PC] == m.regs[RET]
      && (UserMode(n) <==> HasBit(m.regs[STATUS], USER_PREV))
      && n.regs[VADDR] == m.regs[VADDR] && n.regs[BPTR] == m.regs[BPTR]
  {
    hide Step, HasBit, Pop, Push, Rfe, InstrWord, WordFetchable;
    RfeStep(m, bus);
    FetchingReady(m, bus);
    FetchingKeeps(m, bus);
    RfeExact(Fetching(m, 4, bus));
    RfeReady(Fetching(m, 4, bus));
    PopRestores(m.regs[STATUS]);
  }

  lemma UserEvent(m: State, e: Event)
    requires Ready(m) && UserMode(m) && !Traps(m, e)
    ensures Ready(After(m, e))
    ensures UserMode(After(m, e)) <==> !(e.Tick? && AtRfe(m, e.bus)) || HasBit(m.regs[STATUS], USER_PREV)
    ensures After(m, e).regs[VADDR] == m.regs[VADDR] && After(m, e).regs[BPTR] == m.regs[BPTR]
  {
    hide Step, HasBit, AtRfe, Intr, StepDestination, NonNegative;
    if e.Tick? && AtRfe(m, e.bus) {
      RfeMode(m, e.bus);
    } else {
      var dest := EventEffect(m, e);
      AfterReady(m, e);
    }
  }

  /** On a run without traps that starts in user mode, user mode is kept exactly when every `rfe`
      executed finds the saved user bit set; and then the translation registers are too. */
  lemma {:induction false} UserKept(m: State, events: seq<Event>)
    requires Ready(m) && UserMode(m) && TrapFree(m, events)
    ensures StaysUser(m, events) <==> SavedUser(m, events)
    ensures var n := Run(m, events);
      StaysUser(m, events) ==> Ready(n) && n.regs[VADDR] == m.regs[VADDR] && n.regs[BPTR] == m.regs[BPTR]
  {
    hide After, HasBit, AtRfe, Traps, Ready;
    if |events| != 0 {
      var before := events[..|events| - 1];
      UserKept(m, before);
      if StaysUser(m, before) {
        StaysLast(m, before);
        UserEvent(Run(m, before), events[|events| - 1]);
      }
    }
  }

  lemma StaysLast(m: State, events: seq<Event>)
    requires StaysUser(m, events)
    ensures UserMode(Run(m, events))
  {
  }

  // -------- the trap bracket --------

  /** A handler step: no `rfe`, and neither STATUS nor RET among the destinations. */
  predicate HandlerStep(m: State, bus: Bus) {
    !AtRfe(m, bus) && STATUS !in StepDestination(m, bus) && RET !in StepDestination(m, bus)
  }

  predicate Handler(m: State, events: seq<Event>) {
    |events| == 0 ||
    (var k, e := Run(m, events[..|events| - 1]), events[|events| - 1];
     Handler(m, events[..|events| - 1]) && (e.Tick? ==> HandlerStep(k, e.bus)))
  }

  /** A handler that lives keeps STATUS and RET, interrupt requests and all: any trap inside it
      would have been the second and halted the machine. */
  lemma {:induction false} HandlerKeeps(t: State, events: seq<Event>)
    requires Ready(t) && t.regs[FC] == 1 && !Interruptible(t) && Handler(t, events)
    ensures var h := Run(t, events);
      Ended(h) ||
      (&& Ready(h) && h.regs[FC] == 1
       && h.regs[STATUS] == t.regs[STATUS] && h.regs[RET] == t.regs[RET])
  {
    hide After, HasBit, AtRfe, StepDestination;
    if |events| != 0 {
      var e := events[|events| - 1];
      var k := Run(t, events[..|events| - 1]);
      HandlerKeeps(t, events[..|events| - 1]);
      if Ended(k) { EndedStays(k, e); }
      else { var dest := EventEffect(k, e); }
    }
  }

  /** What the return must give back of the interrupted machine. */
  predicate Resumed(m: State, r: State) {
    && r.regs[PC] == m.regs[PC]
    && Interruptible(r) == Interruptible(m)
    && UserMode(r) == UserMode(m)
    && HasBit(r.regs[STATUS], INTR_PREV) == HasBit(m.regs[STATUS], INTR_PREV)
    && HasBit(r.regs[STATUS], USER_PREV) == HasBit(m.regs[STATUS], USER_PREV)
    && r.regs[STATUS] / 64 == m.regs[STATUS] / 64
    && r.regs[FC] == 0
  }

  /** A trap from fault count 0, any handler that does not touch STATUS or RET, and `rfe`: the
      interrupted place, modes and fault count are restored exactly when no interrupt is waiting
      that the restored mode would admit. */
  lemma TrapBracket(m: State, addr: int, events: seq<Event>, bus: Bus)
    requires Ready(m) && m.regs[FC] == 0 && addr >= 0
    requires Handler(Trap(m, addr), events)
    requires var h := Run(Trap(m, addr), events); h.ctl == Running && AtRfe(h, bus)
    ensures var h := Run(Trap(m, addr), events);
      Resumed(m, Step(h, bus)) <==> !(h.pending && Interruptible(m))
    ensures var h := Run(Trap(m, addr), events); var r := Step(h, bus);
      h.pending && Interruptible(m) ==> r.regs[PC] == h.regs[PC] + 16 && r.regs[FC] == 1 && !r.pending
  {
    var t := Trap(m, addr);
    var h := Run(t, events);
    TrapOnce(m, addr);
    TrapAtZero(m, addr);
    HandlerKeeps(t, events);
    RfeStep(h, bus);
    FetchingReady(h, bus);
    FetchingKeeps(h, bus);
    BracketReturn(m, h, Fetching(h, 4, bus), Step(h, bus), addr) by {
      hide Run, Handler, Step, Fetching, AtRfe, Push, HasBit, Rfe, Trap;
    }
  }

  lemma BracketReturn(m: State, h: State, f: State, r: State, addr: int)
    requires Ready(m) && m.regs[FC] == 0 && Ready(f) && r == Rfe(f)
    requires f.regs[STATUS] == Push(m.regs[STATUS]) && f.regs[RET] == m.regs[PC] && f.regs[FC] == 1
    requires f.pending == h.pending && f.regs[PC] == h.regs[PC] + 16
    ensures Resumed(m, r) <==> !(h.pending && Interruptible(m))
    ensures h.pending && Interruptible(m) ==> r.regs[PC] == h.regs[PC] + 16 && r.regs[FC] == 1 && !r.pending
  {
    hide Push, Pop, HasBit, Rfe;
    PushSaves(m.regs[STATUS]);
    PopRestores(f.regs[STATUS]);
    RfeExact(f);
  }

  // -------- precise privilege faults --------

  /** A privilege fault raised with nothing done: only the reserved register and the access count
      may differ. */
  predicate Precise(m: State, n: State) {
    n.ctl == Privileged ==>
      n == m.(regs := m.regs[RSVD := n.regs[RSVD]], accesses := n.accesses, ctl := Privileged)
  }

  lemma SetPrecise(m: State, r: int, v: int)
    requires m.ctl == Running
    ensures Set(m, r, v).ctl == Privileged ==> Set(m, r, v) == m.(ctl := Privileged) && IsPriv(r)
    ensures IsPriv(r) && UserMode(m) ==> Set(m, r, v) == m.(ctl := Privileged)
  {
    hide Push, HasBit;
  }

  lemma LoadPrecise(m: State, r: int, addr: int, bus: Bus)
    requires Ready(m) && UserMode(m) && addr >= 0 && r != FC && r != RSVD
    ensures Precise(m, LoadWord(m, r, addr, bus)) && Precise(m, LoadByte(m, r, addr, bus))
  {
    hide Set, LoadLane, ByteAt, HasBit, Mapped, Trap;
    var a := Access(m, addr);
    assert m.regs[RSVD := m.regs[RSVD]] == m.regs;
    if a.ctl == Running {
      SetPrecise(a, r, ByteAt(m, addr, bus));
      SetPrecise(a, r, ByteAt(m, addr, bus) * 0x100_0000);
    }
    SetStopped(a, r);
    SetStopped(a, r);
    LoadWordEffect(m, r, addr, bus);
    TrapControl(m, TRAP_ILL);
    var m1 := Set(a, r, ByteAt(m, addr, bus) * 0x100_0000);
    LaneStopped(m1, r, addr + 1, 0x1_0000, bus);
    LaneStopped(m1, r, addr + 2, 0x100, bus);
    LaneStopped(m1, r, addr + 3, 1, bus);
  }

  lemma SavePrecise(m: State, r: int, addr: int)
    requires Ready(m) && UserMode(m)
    ensures Precise(m, SaveWord(m, r, addr)) && Precise(m, SaveByte(m, r, addr))
  {
    hide StoreByte, HasBit, Trap;
    assert m.regs[RSVD := m.regs[RSVD]] == m.regs;
    TrapControl(m, TRAP_ILL);
    if IsPriv(r) {
      StoppedLane(m.(ctl := Privileged), r);
      StoppedByte(m.(ctl := Privileged));
    } else {
      LaneControl(m, r, addr, 1);
      if addr + 3 <= MAXVAL { SavePrivileged(m, r, addr); }
    }
  }

  lemma StoppedByte(m: State)
    requires m.ctl != Running
    ensures forall a, v: Byte :: StoreByte(m, a, v) == m
  {
  }

  lemma StoppedLane(m: State, r: int)
    requires m.ctl != Running
    ensures forall a, scale: int :: scale > 0 ==> SaveLane(m, r, a, scale) == m
  {
    hide HasBit;
  }

  lemma InstallPrecise(m: State, r: int, addr: int)
    requires Ready(m) && UserMode(m) && Val(m, r) >= 0
    ensures Precise(m, InstallTrap(m, r, addr))
  {
    hide SaveWordI, HasBit;
    assert m.regs[RSVD := m.regs[RSVD]] == m.regs;
    var at := VECTORS + Val(m, r) * 16;
    var l := Look(m, r);
    var m1 := SaveWordI(l, 0x19, at);
    var m2 := SaveWordI(m1, addr, at + 4);
    var m3 := SaveWordI(m2, 0, at + 8);
    if l.ctl == Privileged {
      StoppedStore(l, 0x19, at);
      StoppedStore(l, addr, at + 4);
      StoppedStore(l, 0, at + 8);
      StoppedStore(l, 0, at + 12);
    } else {
      ImmControl(l, 0x19, at);
      ImmControl(m1, addr, at + 4);
      ImmControl(m2, 0, at + 8);
      ImmControl(m3, 0, at + 12);
    }
  }

  lemma ImmControl(m: State, v: int, addr: int)
    ensures m.ctl != Privileged ==> SaveWordI(m, v, addr).ctl != Privileged
  {
    hide SaveWord, HasBit;
    if m.ctl == Running {
      var p := Put(m, RSVD, v);
      if addr + 3 <= MAXVAL { SavePrivileged(p, RSVD, addr); } else { OverflowControl(p, RSVD, addr); }
    } else {
      StoppedStore(m, v, addr);
    }
  }

  lemma OverflowControl(m: State, r: int, addr: int)
    requires m.ctl == Running && addr + 3 > MAXVAL
    ensures SaveWord(m, r, addr).ctl != Privileged
  {
    hide Push;
  }

  lemma ResultPrecise(m: State, r: int, result: int)
    requires Ready(m)
    ensures SetResult(m, r, result).ctl == Privileged ==> SetResult(m, r, result) == m.(ctl := Privileged)
  {
    hide Set, HasBit;
    var k := Set(m, r, result % WORD);
    SetPrecise(m, r, result % WORD);
    if k.ctl == Running { SetPrecise(k, CARRY, if result > MAXVAL then 1 else 0); }
    SetStopped(k, CARRY);
  }

  /** Looks and writes to the reserved register before the fault are all that may have happened. */
  predicate Prologue(m: State, k: State) {
    k == m.(regs := m.regs[RSVD := k.regs[RSVD]], ctl := k.ctl) && (k.ctl == Running || Precise(m, k))
  }

  lemma AfterPrologue(m: State, k: State, n: State)
    requires Prologue(m, k) && (k.ctl == Running ==> Precise(k, n)) && (k.ctl != Running ==> n == k)
    ensures Precise(m, n)
  {
    if k.ctl == Running && n.ctl == Privileged {
      assert m.regs[RSVD := k.regs[RSVD]][RSVD := n.regs[RSVD]] == m.regs[RSVD := n.regs[RSVD]];
    }
  }

  lemma LookPrologue(m: State, r1: int, r2: int)
    requires m.ctl == Running
    ensures Prologue(m, m) && Prologue(m, Look(m, r1)) && Prologue(m, Look(Look(m, r1), r2))
    ensures forall v :: Prologue(m, Put(Look(m, r1), RSVD, v)) && Prologue(m, Put(m, RSVD, v))
  {
    hide HasBit;
    assert m.regs[RSVD := m.regs[RSVD]] == m.regs;
  }

  lemma AddPrecise(m: State, r1: int, r2: int, r3: int)
    requires Ready(m)
    ensures Precise(m, Add(m, r1, r2, r3)) && Precise(m, Mul(m, r1, r2, r3))
  {
    hide SetResult, HasBit;
    LookPrologue(m, r1, r2);
    var l := Look(Look(m, r1), r2);
    var x, y := Val(m, r1) + Val(m, r2), Val(m, r1) * Val(m, r2);
    if l.ctl == Running {
      ResultPrecise(m, r3, x);
      ResultPrecise(m, r3, y);
    }
    StoppedResult(l, r3, x);
    StoppedResult(l, r3, y);
  }

  lemma SubPrecise(m: State, r1: int, r2: int, r3: int)
    requires Ready(m)
    ensures Precise(m, Sub(m, r1, r2, r3))
  {
    hide Add, HasBit, Prologue, Precise;
    LookPrologue(m, r2, r2);
    var l := Look(m, r2);
    var k := Put(l, RSVD, -Val(m, r2));
    if k.ctl == Running {
      PutEffect(l, -Val(m, r2), {});
      AddPrecise(k, r1, RSVD, r3);
    }
    StoppedAdd(l, r1, RSVD, r3);
    AfterPrologue(m, k, Sub(m, r1, r2, r3));
  }

  lemma DivPrecise(m: State, r1: int, r2: int, r3: int, quotient: bool)
    requires Ready(m)
    ensures Precise(m, Div(m, r1, r2, r3, quotient))
  {
    hide Set, Trap, HasBit;
    assert m.regs[RSVD := m.regs[RSVD]] == m.regs;
    var l := Look(m, r2);
    if Val(m, r2) == 0 {
      if l.ctl == Running { TrapControl(m, TRAP_DIV); }
      StoppedTrap(l, TRAP_DIV);
    } else {
      var result := Division.DivMod(Val(m, r1), Val(m, r2));
      var v := (if quotient then result.0 else result.1) % WORD;
      var l2 := Look(l, r1);
      var k := Set(l2, r3, v);
      if l2.ctl == Running { SetPrecise(l2, r3, v); }
      SetStopped(l2, r3);
      if k.ctl == Running { SetPrecise(k, CARRY, 0); }
      SetStopped(k, CARRY);
    }
  }

  lemma ArithmeticPrecise(m: State, f: Arithmetic, r1: int, r2: int, r3: int)
    requires Ready(m)
    ensures Precise(m, Arithmetic3(m, f, r1, r2, r3))
  {
    hide Precise, Add, Sub, Mul, Div;
    match f
    case AddOp => AddPrecise(m, r1, r2, r3);
    case SubOp => SubPrecise(m, r1, r2, r3);
    case MulOp => AddPrecise(m, r1, r2, r3);
    case DivOp => DivPrecise(m, r1, r2, r3, true);
    case ModOp => DivPrecise(m, r1, r2, r3, false);
  }

  lemma JumpPrecise(m: State, addr: int)
    requires m.ctl == Running
    ensures Jump(m, addr).ctl != Privileged
  {
    hide Set, Trap;
    if addr < 0 { TrapControl(m, TRAP_ILL); } else { SetPrecise(m, PC, addr); }
  }

  lemma BranchPrecise(m: State, c: Condition, r1: int, r2: int, addr: int)
    requires m.ctl == Running
    ensures Precise(m, BranchTo(m, c, r1, r2, addr))
  {
    hide Jump, Holds, HasBit;
    LookPrologue(m, r1, r2);
    var l := Look(Look(m, r1), r2);
    if l.ctl == Running { JumpPrecise(m, addr); }
    StoppedJump(l, addr);
  }

  lemma BranchImmPrecise(m: State, k: State, c: Condition, r1: int, v: int, addr: int)
    requires m.ctl == Running && Prologue(m, k) && Prologue(m, Put(k, RSVD, v))
    ensures Precise(m, BranchImm(k, c, r1, v, addr))
  {
    hide BranchTo, Precise;
    var p := Put(k, RSVD, v);
    if k.ctl == Running { BranchPrecise(p, c, r1, RSVD, addr); }
    StoppedBranch(p, c, r1, RSVD, addr);
    AfterPrologue(m, p, BranchImm(k, c, r1, v, addr));
  }

  lemma MemoryPrecise(m: State, op: Op, a: int, b: int, c: int, bus: Bus)
    requires Ready(m) && UserMode(m) && Operands(op, a, b, c) && IsMemoryOp(op)
    ensures Precise(m, Execute(m, op, a, b, c, bus))
  {
    hide Precise, Prologue, LoadWord, LoadByte, SaveWord, SaveByte, InstallTrap, HasBit, Arithmetic3, BranchTo,
         BranchImm,
         SwapRegs, SetBits, Rfe, Intr, Jump, Set;
    var v := Val(m, b);
    var l := Look(m, b);
    var n := Execute(m, op, a, b, c, bus);
    LookPrologue(m, b, b);
    StoppedMemory(l, a, v, bus);
    StoppedMemory(l, RSVD, v, bus);
    UserPut(m, a);
    var p := Put(m, RSVD, a);
    match op
    case SaveW => SavePrecise(m, a, b);
    case SaveB => SavePrecise(m, a, b);
    case LoadW => LoadPrecise(m, a, b, bus);
    case LoadB => LoadPrecise(m, a, b, bus);
    case SaveWR => if l.ctl == Running { SavePrecise(m, a, v); } AfterPrologue(m, l, n);
    case SaveBR => if l.ctl == Running { SavePrecise(m, a, v); } AfterPrologue(m, l, n);
    case LoadWR => if l.ctl == Running { LoadPrecise(m, a, v, bus); } AfterPrologue(m, l, n);
    case LoadBR => if l.ctl == Running { LoadPrecise(m, a, v, bus); } AfterPrologue(m, l, n);
    case SaveWI => SavePrecise(p, RSVD, b); AfterPrologue(m, p, n);
    case SaveBI => SavePrecise(p, RSVD, b); AfterPrologue(m, p, n);
    case SaveWRI => if l.ctl == Running { SavePrecise(p, RSVD, v); } AfterPrologue(m, Put(l, RSVD, a), n);
    case SaveBRI => if l.ctl == Running { SavePrecise(p, RSVD, v); } AfterPrologue(m, Put(l, RSVD, a), n);
    case StrapR => InstallPrecise(m, a, b);
    case StrapI => InstallPrecise(p, RSVD, b); AfterPrologue(m, p, n);
  }

  lemma UserPut(m: State, v: int)
    requires Ready(m) && UserMode(m)
    ensures Ready(Put(m, RSVD, v)) && UserMode(Put(m, RSVD, v))
  {
    hide HasBit;
  }

  lemma BranchOpPrecise(m: State, op: Op, a: int, b: int, c: int, bus: Bus)
    requires Ready(m) && Operands(op, a, b, c) && IsBranchOp(op)
    ensures Precise(m, Execute(m, op, a, b, c, bus))
  {
    hide BranchTo, BranchImm, Jump, HasBit, LoadWord, LoadByte, SaveWord, SaveByte, SaveWordI, InstallTrap, Arithmetic3,
         SwapRegs, SetBits, Rfe, Intr, Set;
    LookPrologue(m, a, a);
    LookPrologue(m, c, c);
    match op
    case Jmp => JumpPrecise(m, a);
    case JmpR =>
      if Look(m, a).ctl == Running { JumpPrecise(m, Val(m, a)); }
      StoppedJump(Look(m, a), Val(m, a));
    case Branch(k) => BranchPrecise(m, k, a, b, c);
    case BranchI(k) => BranchImmPrecise(m, m, k, a, b, c);
    case BranchR(k) =>
      BranchPrecise(m, k, a, b, Val(m, c));
      StoppedBranch(Look(m, c), k, a, b, Val(m, c));
    case BranchRI(k) => BranchImmPrecise(m, Look(m, c), k, a, b, Val(m, c));
  }

  lemma ComputePrecise(m: State, op: Op, a: int, b: int, c: int, bus: Bus)
    requires Ready(m) && Operands(op, a, b, c) && IsComputeOp(op)
    ensures Precise(m, Execute(m, op, a, b, c, bus))
  {
    hide Set, Arithmetic3, HasBit, And, Or, Xor, Pow2;
    LookPrologue(m, a, b);
    match op
    case Arith(f) => ArithmeticPrecise(m, f, a, b, c);
    case ArithI(f) =>
      PutEffect(m, b, {});
      var p := Put(m, RSVD, b);
      ArithmeticPrecise(p, f, a, RSVD, c);
      AfterPrologue(m, p, Execute(m, op, a, b, c, bus));
    case Bits(f) =>
      var l := Look(Look(m, a), b);
      if l.ctl == Running && Val(m, b) >= 0 { SetPrecise(m, c, BitwiseResult(f, Val(m, a), Val(m, b))); }
    case BitsI(f) =>
      var l := Look(m, a);
      if l.ctl == Running { SetPrecise(m, c, BitwiseResult(f, Val(m, a), b)); }
  }

  lemma MovePrecise(m: State, op: Op, a: int, b: int, c: int, bus: Bus)
    requires Ready(m) && Operands(op, a, b, c) && !op.Swap?
    requires !IsMemoryOp(op) && !IsBranchOp(op) && !IsComputeOp(op) && !op.ReturnFromTrap?
    ensures Precise(m, Execute(m, op, a, b, c, bus))
  {
    hide Set, HasBit, Intr, Precise, Prologue, Look, Good;
    match op
    case Nop => StillPrecise(m, m);
    case Wait => StillPrecise(m, m);
    case Halt => StillPrecise(m, m.(ctl := Halted));
    case Interrupt => IntrControl(m); StillPrecise(m, Intr(m));
    case LoadWI => MoveSet(m, a, a, b);
    case LoadBI => MoveSet(m, a, a, b % 256);
    case CpuId => MoveSet(m, a, RES, 6);
    case Copy => MoveSet(m, b, a, Val(m, b));
    case Not => MoveSet(m, a, b, (-1 - Val(m, a)) % WORD);
  }

  lemma StillPrecise(m: State, n: State)
    requires n.ctl != Privileged
    ensures Precise(m, n)
  {
  }

  lemma MoveSet(m: State, r1: int, r: int, v: int)
    requires m.ctl == Running
    ensures Precise(m, Set(m, r, v)) && Precise(m, Set(Look(m, r1), r, v))
  {
    hide Set, HasBit;
    LookPrologue(m, r1, r1);
    SetPrecise(m, r, v);
    SetStopped(Look(m, r1), r);
  }

  /** Swapping out of a register the mode does not let the program read. */
  lemma SwapPrecise(m: State, a: int, b: int)
    requires Ready(m) && UserMode(m) && IsPriv(a)
    ensures Precise(m, SwapRegs(m, a, b))
  {
    hide Set, HasBit;
    LookPrologue(m, a, b);
    var l := Look(m, a);
    SetStopped(l, a);
    SetStopped(l, b);
  }

  lemma ExecutePrecise(m: State, op: Op, a: int, b: int, c: int, bus: Bus)
    requires Ready(m) && UserMode(m) && Operands(op, a, b, c) && !op.ReturnFromTrap?
    requires op.Swap? ==> IsPriv(a)
    ensures Precise(m, Execute(m, op, a, b, c, bus))
  {
    hide Execute, Precise;
    if IsMemoryOp(op) { MemoryPrecise(m, op, a, b, c, bus); }
    else if IsBranchOp(op) { BranchOpPrecise(m, op, a, b, c, bus); }
    else if IsComputeOp(op) { ComputePrecise(m, op, a, b, c, bus); }
    else if op.Swap? { SwapPrecise(m, a, b); SwapMeans(m, a, b, c, bus); }
    else { MovePrecise(m, op, a, b, c, bus); }
  }

  lemma SwapMeans(m: State, a: int, b: int, c: int, bus: Bus)
    ensures Execute(m, Swap, a, b, c, bus) == SwapRegs(m, a, b)
  {
    hide SwapRegs;
  }

  /** `swap` puts the second register's number, not its contents, into the first: the contents are
      exchanged only when the second register happens to hold its own number. */
  lemma SwapContents(m: State, r1: int, r2: int)
    requires Ready(m) && 0 <= r1 < LAST && 0 <= r2 < LAST && r1 != r2 && r1 != STATUS && r2 != STATUS
    requires UserMode(m) ==> !IsPriv(r1) && !IsPriv(r2)
    ensures var n := SwapRegs(m, r1, r2);
      && n == m.(regs := m.regs[r1 := r2][r2 := m.regs[r1]])
      && (n.regs[r1] == m.regs[r2] && n.regs[r2] == m.regs[r1] <==> m.regs[r2] == r2)
  {
    hide HasBit, Trap;
    SetPlain(m, r1, r2);
    SetPlain(m.(regs := m.regs[r1 := r2]), r2, m.regs[r1]);
  }

  /** The one imprecise instruction: `swap` of an ordinary register with a privileged one has
      already put the second register's number into the first when the fault comes. */
  lemma SwapImprecise(m: State, a: int, b: int)
    requires Ready(m) && UserMode(m) && 0 <= a < LAST && !IsPriv(a) && IsPriv(b)
    ensures var n := SwapRegs(m, a, b);
      n == m.(regs := m.regs[a := b], ctl := Privileged)
  {
    hide Trap, HasBit;
    SetPlain(m, a, b);
    SetPrecise(Set(m, a, b), b, Val(m, a));
  }

  // -------- as the machine sees them --------

  /** The instruction at PC raises a privilege fault. */
  predicate Raises(m: State, bus: Bus) {
    Executes(m, bus) &&
    Execute(Fetching(m, 4, bus), Decode(InstrWord(m, 0, bus)), InstrWord(m, 1, bus), InstrWord(m, 2, bus),
            InstrWord(m, 3, bus), bus).ctl == Privileged
  }

  /** The trap entry of a fault at PC from fault count 0, with nothing done. */
  predicate FaultEntered(m: State, n: State) {
    n == m.(regs := m.regs[RSVD := n.regs[RSVD]][STATUS := Push(m.regs[STATUS])][FC := 1]
                          [RET := m.regs[PC]][PC := TRAP_ILL],
            accesses := n.accesses)
  }

  predicate SwapsOut(m: State, bus: Bus) {
    Executes(m, bus) && Decode(InstrWord(m, 0, bus)).Swap? && !IsPriv(InstrWord(m, 1, bus))
  }

  /** A user-mode privilege fault from fault count 0, as one step: PC at the illegal-instruction
      vector, RET at the faulting instruction itself, the modes saved, fault count 1; the reserved
      register and the count of reads may differ, and nothing else does.  Except for `swap` out of
      an unprivileged register. */
  lemma FaultStep(m: State, bus: Bus)
    requires Ready(m) && UserMode(m) && m.regs[FC] == 0 && Raises(m, bus) && !SwapsOut(m, bus)
    ensures FaultEntered(m, Step(m, bus))
  {
    hide Execute, Decode, Precise, BadOperands, WordFetchable, Fetching, InstrWord, HasBit, Push, Trap, Ready, Step,
         Recover, Dispatch;
    var f := Fetching(m, 4, bus);
    var o, a, b, c := InstrWord(m, 0, bus), InstrWord(m, 1, bus), InstrWord(m, 2, bus), InstrWord(m, 3, bus);
    StepDecoded(m, bus);
    FetchingReady(m, bus);
    ReadyRuns(f);
    Dispatched(f, o, a, b, c, bus);
    UserFetch(m, bus);
    RaisingIsNotRfe(f, o, a, b, c, bus);
    ExecutePrecise(f, Decode(o), a, b, c, bus);
    RecoverPrecise(m, f, Execute(f, Decode(o), a, b, c, bus), bus);
  }

  lemma UserFetch(m: State, bus: Bus)
    ensures UserMode(Fetching(m, 4, bus)) == UserMode(m)
  {
    hide InstrWord, HasBit;
  }

  lemma RaisingIsNotRfe(f: State, o: int, a: int, b: int, c: int, bus: Bus)
    requires Ready(f) && 0 <= o < OPCODES && Execute(f, Decode(o), a, b, c, bus).ctl == Privileged
    ensures !Decode(o).ReturnFromTrap?
  {
    hide Decode, Rfe;
    RfeReady(f);
  }

  lemma RecoverPrecise(m: State, f: State, k: State, bus: Bus)
    requires Ready(m) && m.regs[FC] == 0 && f == Fetching(m, 4, bus) && Ready(f)
    requires Precise(f, k) && k.ctl == Privileged
    ensures FaultEntered(m, Recover(k))
  {
    hide InstrWord, HasBit, Push, Trap;
    var l := k.(ctl := Running);
    SetPlain(l, PC, l.regs[PC] - 16);
    var p := Set(l, PC, l.regs[PC] - 16);
    TrapAtZero(p, TRAP_ILL);
    var n := Recover(k);
    assert n.regs == m.regs[RSVD := n.regs[RSVD]][STATUS := Push(m.regs[STATUS])][FC := 1]
                           [RET := m.regs[PC]][PC := TRAP_ILL];
  }

  /** `swap` out of an unprivileged register leaves a trace: that register (or, for PC, the return
      address) no longer has its old value.  RET is overwritten by the trap in any case. */
  predicate SwapShows(m: State, bus: Bus) {
    SwapsOut(m, bus) && InstrWord(m, 1, bus) != RET
    && Val(Fetching(m, 4, bus), InstrWord(m, 1, bus)) != InstrWord(m, 2, bus)
  }

  lemma SwapRecovered(m: State, f: State, k: State, a: int, b: int, bus: Bus)
    requires Ready(m) && m.regs[FC] == 0 && f == Fetching(m, 4, bus) && Ready(f)
    requires 0 <= a < LAST && !IsPriv(a) && a != FC && a != RSVD && IsPriv(b)
    requires k == f.(regs := f.regs[a := b], ctl := Privileged)
    ensures FaultEntered(m, Recover(k)) <==> a == RET || f.regs[a] == b
  {
    hide InstrWord, HasBit, Push, Trap;
    var l := k.(ctl := Running);
    assert l.regs[FC] == 0;
    assert Settled(l);
    SetPlain(l, PC, l.regs[PC] - 16);
    var p := Set(l, PC, l.regs[PC] - 16);
    TrapAtZero(p, TRAP_ILL);
    var n := Recover(k);
    var expected := m.regs[RSVD := n.regs[RSVD]][STATUS := Push(m.regs[STATUS])][FC := 1]
                          [RET := m.regs[PC]][PC := TRAP_ILL];
    if a == RET || f.regs[a] == b {
      assert n.regs == expected;
    } else if a == PC {
      assert n.regs[RET] != expected[RET];
    } else {
      assert n.regs[a] != expected[a];
    }
  }

  /** Exactly when a user-mode privilege fault is precise. */
  lemma FaultStepExact(m: State, bus: Bus)
    requires Ready(m) && UserMode(m) && m.regs[FC] == 0 && Raises(m, bus)
    ensures FaultEntered(m, Step(m, bus)) <==> !SwapShows(m, bus)
  {
    hide Execute, Decode, BadOperands, WordFetchable, Fetching, InstrWord, HasBit, Push, Trap, Ready, Step, Recover,
         Dispatch, FaultEntered, SwapRegs, IsPriv;
    if !SwapsOut(m, bus) {
      FaultStep(m, bus);
    } else {
      var f := Fetching(m, 4, bus);
      var o, a, b, c := InstrWord(m, 0, bus), InstrWord(m, 1, bus), InstrWord(m, 2, bus), InstrWord(m, 3, bus);
      StepDecoded(m, bus);
      FetchingReady(m, bus);
      ReadyRuns(f);
      Dispatched(f, o, a, b, c, bus);
      UserFetch(m, bus);
      SwapMeans(f, a, b, c, bus);
      SwapOperands(a, b, c) by { assert !BadOperands(Swap, a, b, c); }
      SwapRaises(f, a, b);
      SwapImprecise(f, a, b);
      SwapRecovered(m, f, SwapRegs(f, a, b), a, b, bus);
    }
  }

  lemma SwapOperands(a: int, b: int, c: int)
    requires !BadOperands(Swap, a, b, c)
    ensures a != FC && a != RSVD && b != FC && b != RSVD
  {
  }

  lemma SwapRaises(m: State, a: int, b: int)
    requires Ready(m) && UserMode(m) && !IsPriv(a) && a >= 0 && SwapRegs(m, a, b).ctl == Privileged
    ensures a < LAST && IsPriv(b)
  {
    hide Trap, HasBit;
    if a < LAST {
      SetPlain(m, a, b);
      SetPrecise(Set(m, a, b), b, Val(m, a));
    }
  }
}
