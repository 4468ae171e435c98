/** What every instruction and every interrupt keeps. */
module Invariants {
  import opened Words
  import opened Status
  import opened Machine
  import opened Instructions
  import Division

  /** An interrupt is never both pending and enabled. */
  predicate Settled(m: State) { !(m.pending && Interruptible(m)) }

  /** No register a program can name is negative (the reserved one can be). */
  predicate NonNegative(m: State) { forall r :: 0 <= r < RSVD ==> m.regs[r] >= 0 }

  predicate Good(m: State) {
    Settled(m) && 0 <= m.regs[FC] <= 1 && NonNegative(m)
  }

  /** Nothing follows. */
  predicate Ended(m: State) { m.ctl == Halted || m.ctl == Crashed || m.ctl == Unmodelled }

  /** With no trap, what stays. */
  predicate Kept(m: State, n: State, dest: set<int>) {
    && (forall r :: 0 <= r < RSVD && r !in dest ==> n.regs[r] == m.regs[r])
    && (UserMode(m) ==> n.regs[STATUS] == m.regs[STATUS] && n.regs[VADDR] == m.regs[VADDR]
                        && n.regs[BPTR] == m.regs[BPTR])
  }

  /** Across a trap entry, what stays and what is certain. */
  predicate Trapped(m: State, n: State, dest: set<int>) {
    && (forall r :: 0 <= r < RSVD && r !in dest + {PC, RET, STATUS, FC} ==> n.regs[r] == m.regs[r])
    && (UserMode(m) ==> n.ctl == Running && !UserMode(n) && !Interruptible(n)
                        && n.regs[VADDR] == m.regs[VADDR] && n.regs[BPTR] == m.regs[BPTR])
  }

  /** How an instruction that is not `rfe` may change the machine when it writes `dest`. */
  predicate Effect(m: State, n: State, dest: set<int>) {
    Ended(n) ||
    (&& Good(n)
     && (n.regs[FC] == m.regs[FC] || n.regs[FC] == m.regs[FC] + 1)
     && (n.regs[FC] == m.regs[FC] ==> Kept(m, n, dest))
     && (n.regs[FC] != m.regs[FC] ==> Trapped(m, n, dest))
     && (n.ctl == Privileged ==> n.regs[PC] == m.regs[PC] || n.regs[PC] >= 16))
  }

  predicate Ready(m: State) { m.ctl == Running && Good(m) }

  // -------- primitives --------

  /** A register write fires nothing unless the register is STATUS. */
  lemma SetPlain(m: State, r: int, v: int)
    requires Settled(m) && r != STATUS
    ensures Set(m, r, v) == var l := Look(m, r);
      if l.ctl == Running then l.(regs := l.regs[r := v]) else l
  {
  }

  lemma TrapEffect(m: State, addr: int, dest: set<int>)
    requires Ready(m) && addr >= 0
    ensures Effect(m, Trap(m, addr), dest)
    ensures !Ended(Trap(m, addr)) <==> m.regs[FC] == 0
    ensures !Ended(Trap(m, addr)) ==> Trap(m, addr).regs[PC] == addr
  {
    PushSaves(m.regs[STATUS]);
    hide Push, HasBit;
  }

  lemma SetEffect(m: State, r: int, v: int, dest: set<int>)
    requires Ready(m) && (r == RSVD || v >= 0) && r in dest && r != FC
    ensures Effect(m, Set(m, r, v), dest)
    ensures UserMode(m) ==> Ended(Set(m, r, v)) || Set(m, r, v).regs[FC] == m.regs[FC]
    ensures !IsPriv(r) ==> Set(m, r, v).ctl != Privileged
    ensures r != PC ==> Ended(Set(m, r, v)) || Set(m, r, v).regs[PC] == m.regs[PC] || Set(m, r, v).regs[PC] >= 16
    ensures r == PC && Set(m, r, v).ctl == Running ==> Set(m, r, v).regs[PC] == v
  {
    hide Trap, HasBit;
    var l := Look(m, r);
    if l.ctl == Running {
      var w := l.(regs := l.regs[r := v]);
      if r != STATUS {
        SetPlain(m, r, v);
      } else if Interruptible(w) && w.pending {
        TrapEffect(w.(pending := false), TRAP_INTR, dest);
      }
    }
  }

  lemma Compose(m: State, k: State, n: State, dest: set<int>)
    requires Ready(m) && Effect(m, k, dest) && k.ctl == Running && Effect(k, n, dest)
    requires UserMode(m) ==> Ended(k) || k.regs[FC] == m.regs[FC]
    requires n.ctl == Privileged ==> k.regs[PC] == m.regs[PC] || k.regs[PC] >= 16
    ensures Effect(m, n, dest)
  {
    hide HasBit;
  }

  /** Stopping, memory accesses and device writes leave the registers alone. */
  lemma SameRegisters(m: State, n: State, dest: set<int>)
    requires Ready(m) && n.regs == m.regs && n.pending == m.pending
    ensures Effect(m, n, dest)
  {
  }

  lemma PutEffect(m: State, v: int, dest: set<int>)
    requires Ready(m)
    ensures Ready(Put(m, RSVD, v)) && Kept(m, Put(m, RSVD, v), dest)
  {
  }

  /** Starting from a copy of the machine with another reserved register makes no difference. */
  lemma AfterPut(m: State, v: int, n: State, dest: set<int>)
    requires Ready(m) && Effect(Put(m, RSVD, v), n, dest)
    ensures Effect(m, n, dest)
  {
  }

  // -------- loads and stores --------

  /** A stage on the way: an effect so far that another write to `r` may follow. */
  predicate Stage(m: State, k: State, r: int, dest: set<int>) {
    && Effect(m, k, dest)
    && (UserMode(m) ==> Ended(k) || k.regs[FC] == m.regs[FC])
    && (k.ctl == Running ==> k.regs[PC] == m.regs[PC] || k.regs[PC] >= 16 || r == PC)
    && (!IsPriv(r) ==> k.ctl != Privileged)
  }

  lemma NextStage(m: State, k: State, r: int, v: int, dest: set<int>)
    requires Ready(m) && Stage(m, k, r, dest) && r in dest && r != FC && r != RSVD
    requires k.ctl == Running ==> v >= 0
    ensures Stage(m, Set(k, r, v), r, dest)
  {
    if k.ctl == Running {
      hide Set, Kept, Trapped, Good, HasBit;
      SetEffect(k, r, v, dest);
      assert UserMode(m) ==> UserMode(k) by { if UserMode(m) { StillUser(m, k, dest); } }
      Compose(m, k, Set(k, r, v), dest);
    }
  }

  lemma StillUser(m: State, k: State, dest: set<int>)
    requires UserMode(m) && Effect(m, k, dest) && !Ended(k) && k.regs[FC] == m.regs[FC]
    ensures UserMode(k)
  {
  }

  lemma LaneStage(m: State, k: State, r: int, addr: int, scale: int, bus: Bus, dest: set<int>)
    requires Ready(m) && Stage(m, k, r, dest) && scale >= 0 && r in dest && r != FC && r != RSVD
    ensures Stage(m, LoadLane(k, r, addr, scale, bus), r, dest)
  {
    hide Set, HasBit, Or;
    var l := Access(Look(k, r), addr);
    var v := Or(Val(k, r), ByteAt(Look(k, r), addr, bus) * scale);
    if k.ctl == Running {
      assert Stage(m, l, r, dest);
      if l.ctl == Running { NextStage(m, l, r, v, dest); }
    }
    SetStopped(l, r);
  }

  lemma LoadWordEffect(m: State, r: int, addr: int, bus: Bus)
    requires Ready(m) && addr >= 0 && r != FC && r != RSVD
    ensures Effect(m, LoadWord(m, r, addr, bus), {r})
    ensures !IsPriv(r) ==> LoadWord(m, r, addr, bus).ctl != Privileged
  {
    hide Set, LoadLane, Effect, ByteAt, Access, Push;
    if addr + 3 > MAXVAL {
      TrapEffect(m, TRAP_ILL, {r});
    } else {
      var a := Access(m, addr);
      var m1 := Set(a, r, ByteAt(m, addr, bus) * 0x100_0000);
      AccessStage(m, addr, r, {r});
      var v := ByteAt(m, addr, bus) * 0x100_0000;
      if a.ctl == Running { NextStage(m, a, r, v, {r}); }
      SetStopped(a, r);
      var m2 := LoadLane(m1, r, addr + 1, 0x1_0000, bus);
      LaneStage(m, m1, r, addr + 1, 0x1_0000, bus, {r});
      var m3 := LoadLane(m2, r, addr + 2, 0x100, bus);
      LaneStage(m, m2, r, addr + 2, 0x100, bus, {r});
      LaneStage(m, m3, r, addr + 3, 1, bus, {r});
    }
  }

  lemma AccessStage(m: State, addr: int, r: int, dest: set<int>)
    requires Ready(m)
    ensures Stage(m, Access(m, addr), r, dest)
  {
  }

  lemma LoadByteEffect(m: State, r: int, addr: int, bus: Bus)
    requires Ready(m) && r != FC && r != RSVD
    ensures Effect(m, LoadByte(m, r, addr, bus), {r})
  {
    hide Set, Effect, Access;
    AccessStage(m, addr, r, {r});
    var a := Access(m, addr);
    if a.ctl == Running { NextStage(m, a, r, ByteAt(m, addr, bus), {r}); }
    SetStopped(a, r);
  }

  /** A store changes no register; it can only run into a fault. */
  lemma SaveLaneSame(m: State, r: int, addr: int, scale: int)
    requires scale > 0
    ensures var n := SaveLane(m, r, addr, scale);
      n.regs == m.regs && n.pending == m.pending
  {
  }

  lemma SaveWordEffect(m: State, r: int, addr: int, dest: set<int>)
    requires Ready(m) && addr >= 0
    ensures Effect(m, SaveWord(m, r, addr), dest)
    ensures addr + 3 <= MAXVAL ==>
      SaveWord(m, r, addr).regs == m.regs && SaveWord(m, r, addr).pending == m.pending
  {
    hide SaveLane, Effect, Trap;
    if addr + 3 > MAXVAL {
      TrapEffect(m, TRAP_ILL, dest);
    } else {
      var m1 := SaveLane(m, r, addr, 0x100_0000);
      var m2 := SaveLane(m1, r, addr + 1, 0x1_0000);
      var m3 := SaveLane(m2, r, addr + 2, 0x100);
      SaveLaneSame(m, r, addr, 0x100_0000);
      SaveLaneSame(m1, r, addr + 1, 0x1_0000);
      SaveLaneSame(m2, r, addr + 2, 0x100);
      SaveLaneSame(m3, r, addr + 3, 1);
      SameRegisters(m, SaveWord(m, r, addr), dest);
    }
  }

  /** Writing a vector either touches no register but the reserved one, or, past the last vector,
      faults twice and halts. */
  lemma InstallTrapEffect(m: State, r: int, addr: int, dest: set<int>)
    requires Ready(m) && Val(m, r) >= 0
    ensures Effect(m, InstallTrap(m, r, addr), dest)
    ensures Val(m, r) >= 256 ==> InstallTrap(m, r, addr).ctl != Running
  {
    hide SaveWord, Effect, Trap;
    var l := Look(m, r);
    if l.ctl != Running {
      SameRegisters(m, l, dest);
      StoppedStore(l, 0x19, VECTORS + Val(m, r) * 16);
      StoppedStore(l, addr, VECTORS + Val(m, r) * 16 + 4);
      StoppedStore(l, 0, VECTORS + Val(m, r) * 16 + 8);
      StoppedStore(l, 0, VECTORS + Val(m, r) * 16 + 12);
    } else if Val(m, r) < 256 {
      var at := VECTORS + Val(m, r) * 16;
      var m1 := SaveWordI(m, 0x19, at);
      var m2 := SaveWordI(m1, addr, at + 4);
      var m3 := SaveWordI(m2, 0, at + 8);
      SameRegisters(m, m, dest);
      StoreEffect(m, m, 0x19, at, dest);
      StoreEffect(m, m1, addr, at + 4, dest);
      StoreEffect(m, m2, 0, at + 8, dest);
      StoreEffect(m, m3, 0, at + 12, dest);
    } else {
      DoubleFault(m, 0x19, VECTORS + Val(m, r) * 16, addr, VECTORS + Val(m, r) * 16 + 4);
      var m2 := SaveWordI(SaveWordI(m, 0x19, VECTORS + Val(m, r) * 16), addr, VECTORS + Val(m, r) * 16 + 4);
      StoppedStore(m2, 0, VECTORS + Val(m, r) * 16 + 8);
      StoppedStore(m2, 0, VECTORS + Val(m, r) * 16 + 12);
      assert Effect(m, m2, dest) by { EndedEffect(m, m2, dest); }
    }
  }

  lemma EndedEffect(m: State, n: State, dest: set<int>)
    requires Ended(n)
    ensures Effect(m, n, dest)
  {
  }

  lemma StoppedStore(m: State, v: int, addr: int)
    requires m.ctl != Running
    ensures SaveWordI(m, v, addr) == m
  {
  }

  lemma StoreEffect(m: State, k: State, v: int, addr: int, dest: set<int>)
    requires Ready(m) && 0 <= addr <= MAXVAL - 3
    requires Effect(m, k, dest) && (k.ctl == Running ==> k.regs[FC] == m.regs[FC])
    ensures var n := SaveWordI(k, v, addr);
      Effect(m, n, dest) && (n.ctl == Running ==> n.regs[FC] == m.regs[FC])
  {
    if k.ctl != Running {
      StoppedStore(k, v, addr);
    } else {
      hide SaveWord, HasBit;
      PutEffect(k, v, dest);
      var p := Put(k, RSVD, v);
      SaveWordEffect(p, RSVD, addr, dest);
      AfterPut(k, v, SaveWordI(k, v, addr), dest);
      SavePrivileged(p, RSVD, addr);
      Compose(m, k, SaveWordI(k, v, addr), dest);
    }
  }

  /** Storing a register the mode lets the program read never raises a privilege fault. */
  lemma SavePrivileged(m: State, r: int, addr: int)
    requires m.ctl == Running && addr + 3 <= MAXVAL && !(IsPriv(r) && UserMode(m))
    ensures SaveWord(m, r, addr).ctl != Privileged
  {
    hide SaveLane, HasBit;
    LaneControl(m, r, addr, 0x100_0000);
    var m1 := SaveLane(m, r, addr, 0x100_0000);
    LaneControl(m1, r, addr + 1, 0x1_0000);
    var m2 := SaveLane(m1, r, addr + 1, 0x1_0000);
    LaneControl(m2, r, addr + 2, 0x100);
    var m3 := SaveLane(m2, r, addr + 2, 0x100);
    LaneControl(m3, r, addr + 3, 1);
  }

  lemma LaneControl(m: State, r: int, addr: int, scale: int)
    requires scale > 0 && m.ctl != Privileged && !(IsPriv(r) && UserMode(m))
    ensures SaveLane(m, r, addr, scale).ctl != Privileged && SaveLane(m, r, addr, scale).regs == m.regs
  {
    hide HasBit;
  }

  /** Two faults in one instruction halt the machine. */
  lemma DoubleFault(m: State, v: int, addr: int, w: int, addr': int)
    requires Ready(m) && addr + 3 > MAXVAL && addr' + 3 > MAXVAL
    ensures SaveWordI(SaveWordI(m, v, addr), w, addr').ctl == Halted
  {
    hide Push;
  }

  // -------- arithmetic, branches, moves --------

  lemma SetResultEffect(m: State, r: int, result: int)
    requires Ready(m) && r >= 0 && r != FC && r != RSVD
    ensures Effect(m, SetResult(m, r, result), {r, CARRY})
  {
    hide Set, Effect, HasBit;
    var dest := {r, CARRY};
    var v, carry := result % WORD, if result > MAXVAL then 1 else 0;
    SetEffect(m, r, v, dest);
    var k := Set(m, r, v);
    SecondSet(m, k, CARRY, carry, dest);
  }

  /** A further write to an unprivileged register. */
  lemma SecondSet(m: State, k: State, r: int, v: int, dest: set<int>)
    requires Ready(m) && Effect(m, k, dest) && (UserMode(m) ==> Ended(k) || k.regs[FC] == m.regs[FC])
    requires v >= 0 && r in dest && r != FC && r != RSVD && !IsPriv(r)
    ensures Effect(m, Set(k, r, v), dest)
  {
    if k.ctl != Running {
      SetStopped(k, r);
    } else {
      hide Set, Kept, Trapped, HasBit;
      SetEffect(k, r, v, dest);
      Compose(m, k, Set(k, r, v), dest);
    }
  }

  lemma AddEffect(m: State, r1: int, r2: int, r3: int)
    requires Ready(m) && r3 >= 0 && r3 != FC && r3 != RSVD
    ensures Effect(m, Add(m, r1, r2, r3), {r3, CARRY})
  {
    hide SetResult, Effect;
    Looked(m, r1, r2, {r3, CARRY});
    var l := Look(Look(m, r1), r2);
    var result := Val(m, r1) + Val(m, r2);
    if l.ctl == Running { SetResultEffect(m, r3, result); }
    StoppedResult(l, r3, result);
  }

  lemma MulEffect(m: State, r1: int, r2: int, r3: int)
    requires Ready(m) && r3 >= 0 && r3 != FC && r3 != RSVD
    ensures Effect(m, Mul(m, r1, r2, r3), {r3, CARRY})
  {
    hide SetResult, Effect;
    Looked(m, r1, r2, {r3, CARRY});
    var l := Look(Look(m, r1), r2);
    var result := Val(m, r1) * Val(m, r2);
    if l.ctl == Running { SetResultEffect(m, r3, result); }
    StoppedResult(l, r3, result);
  }

  lemma SubEffect(m: State, r1: int, r2: int, r3: int)
    requires Ready(m) && r3 >= 0 && r3 != FC && r3 != RSVD
    ensures Effect(m, Sub(m, r1, r2, r3), {r3, CARRY})
  {
    hide Add, Effect;
    var dest := {r3, CARRY};
    var l := Look(m, r2);
    Looked(m, r2, RSVD, dest);
    if l.ctl == Running {
      PutEffect(m, -Val(m, r2), dest);
      AddEffect(Put(m, RSVD, -Val(m, r2)), r1, RSVD, r3);
      AfterPut(m, -Val(m, r2), Sub(m, r1, r2, r3), dest);
    } else {
      StoppedAdd(l, r1, RSVD, r3);
    }
  }

  lemma DivEffect(m: State, r1: int, r2: int, r3: int, quotient: bool)
    requires Ready(m) && r3 >= 0 && r3 != FC && r3 != RSVD
    ensures Effect(m, Div(m, r1, r2, r3, quotient), {r3, CARRY})
  {
    hide Set, Trap, Effect, HasBit;
    var dest := {r3, CARRY};
    var l := Look(m, r2);
    Looked(m, r2, r1, dest);
    if Val(m, r2) == 0 {
      if l.ctl == Running { TrapEffect(m, TRAP_DIV, dest); } else { StoppedTrap(l, TRAP_DIV); }
    } else {
      var result := Division.DivMod(Val(m, r1), Val(m, r2));
      var v := (if quotient then result.0 else result.1) % WORD;
      var l2 := Look(l, r1);
      var k := Set(l2, r3, v);
      if l2.ctl == Running { SetEffect(m, r3, v, dest); } else { SetStopped(l2, r3); }
      if l2.ctl == Running { SecondSet(m, k, CARRY, 0, dest); } else { SetStopped(k, CARRY); }
    }
  }

  lemma Looked(m: State, r1: int, r2: int, dest: set<int>)
    requires Ready(m)
    ensures var l1 := Look(m, r1); var l := Look(l1, r2);
      && l1 == m.(ctl := l1.ctl) && l == m.(ctl := l.ctl)
      && (l.ctl == Running ==> l1.ctl == Running && 0 <= r1 < LAST && 0 <= r2 < LAST)
      && Effect(m, l, dest) && Effect(m, l1, dest)
  {
    var l1 := Look(m, r1);
    var l := Look(l1, r2);
    SameRegisters(m, l1, dest);
    SameRegisters(m, l, dest);
  }

  lemma StoppedResult(m: State, r: int, result: int)
    ensures m.ctl != Running ==> SetResult(m, r, result) == m
  {
  }

  lemma StoppedAdd(m: State, r1: int, r2: int, r3: int)
    ensures m.ctl != Running ==> forall v :: Add(Put(m, RSVD, v), r1, r2, r3) == m
  {
  }

  lemma StoppedTrap(m: State, addr: int)
    ensures m.ctl != Running ==> Trap(m, addr) == m
  {
  }

  lemma Arithmetic3Effect(m: State, f: Arithmetic, r1: int, r2: int, r3: int)
    requires Ready(m) && r3 >= 0 && r3 != FC && r3 != RSVD
    ensures Effect(m, Arithmetic3(m, f, r1, r2, r3), {r3, CARRY})
  {
    hide Effect, Add, Sub, Mul, Div;
    match f
    case AddOp => AddEffect(m, r1, r2, r3);
    case SubOp => SubEffect(m, r1, r2, r3);
    case MulOp => MulEffect(m, r1, r2, r3);
    case DivOp => DivEffect(m, r1, r2, r3, true);
    case ModOp => DivEffect(m, r1, r2, r3, false);
  }

  lemma JumpEffect(m: State, addr: int)
    requires Ready(m)
    ensures Effect(m, Jump(m, addr), {PC})
  {
    hide Set, Trap, Effect;
    if addr < 0 { TrapEffect(m, TRAP_ILL, {PC}); } else { SetEffect(m, PC, addr, {PC}); }
  }

  lemma StoppedJump(m: State, addr: int)
    ensures m.ctl != Running ==> Jump(m, addr) == m
  {
  }

  lemma BranchToEffect(m: State, c: Condition, r1: int, r2: int, addr: int)
    requires Ready(m)
    ensures Effect(m, BranchTo(m, c, r1, r2, addr), {PC})
    ensures m.ctl == Running
  {
    hide Jump, Effect, Holds;
    Looked(m, r1, r2, {PC});
    var l := Look(Look(m, r1), r2);
    if l.ctl == Running { JumpEffect(m, addr); }
    StoppedJump(l, addr);
  }

  lemma StoppedBranch(m: State, c: Condition, r1: int, r2: int, addr: int)
    ensures m.ctl != Running ==> BranchTo(m, c, r1, r2, addr) == m
  {
  }

  lemma BranchImmEffect(m: State, k: State, c: Condition, r1: int, v: int, addr: int)
    requires Ready(m) && k == m.(ctl := k.ctl) && Effect(m, k, {PC})
    ensures Effect(m, BranchImm(k, c, r1, v, addr), {PC})
  {
    hide BranchTo, Effect;
    if k.ctl == Running {
      PutEffect(m, v, {PC});
      BranchToEffect(Put(m, RSVD, v), c, r1, RSVD, addr);
      AfterPut(m, v, BranchImm(m, c, r1, v, addr), {PC});
    }
    StoppedBranch(k, c, r1, RSVD, addr);
  }

  lemma SetBitsEffect(m: State, f: Bitwise, r1: int, y: int, r: int)
    requires Ready(m) && r >= 0 && r != FC && r != RSVD && Val(m, r1) >= 0 && y >= 0
    ensures Effect(m, SetBits(m, f, Val(m, r1), y, r), {r})
  {
    hide Set, Effect, And, Or, Xor, Pow2;
    var v := BitwiseResult(f, Val(m, r1), y);
    assert v >= 0 by {
      if f.ShrOp? { assert Pow2(y) >= 1; }
    }
    SetEffect(m, r, v, {r});
  }

  lemma SwapEffect(m: State, r1: int, r2: int)
    requires Ready(m) && r1 >= 0 && r2 >= 0 && r1 != FC && r1 != RSVD && r2 != FC && r2 != RSVD
    ensures Effect(m, SwapRegs(m, r1, r2), {r1, r2})
  {
    hide Set, Effect, HasBit;
    var dest := {r1, r2};
    var l := Look(m, r1);
    Looked(m, r1, r2, dest);
    var k := Set(l, r1, r2);
    SetStopped(l, r1);
    SetStopped(k, r2);
    if l.ctl == Running {
      SetEffect(m, r1, r2, dest);
      if k.ctl == Running {
        SwapSecond(m, k, r1, r2, Val(m, r1), dest);
      }
    }
  }

  lemma SwapSecond(m: State, k: State, r1: int, r2: int, v: int, dest: set<int>)
    requires Ready(m) && Effect(m, k, dest) && k.ctl == Running && v >= 0
    requires UserMode(m) ==> k.regs[FC] == m.regs[FC]
    requires r1 != PC ==> k.regs[PC] == m.regs[PC] || k.regs[PC] >= 16
    requires r1 == PC ==> k.regs[PC] == r2
    requires r2 in dest && r2 != FC && r2 != RSVD
    ensures Effect(m, Set(k, r2, v), dest)
  {
    hide Set, Kept, Trapped, HasBit;
    SetEffect(k, r2, v, dest);
    Compose(m, k, Set(k, r2, v), dest);
  }

  lemma IntrEffect(m: State, dest: set<int>)
    requires Ready(m)
    ensures Effect(m, Intr(m), dest)
  {
    hide Trap, HasBit;
    if Interruptible(m) { TrapEffect(m.(pending := false), TRAP_INTR, dest); }
  }

  // -------- whole instructions --------

  /** The registers an instruction other than `rfe` names as its destination. */
  function Destination(op: Op, a: int, b: int, c: int): set<int> {
    match op
    case LoadW => {a}
    case LoadB => {a}
    case LoadWR => {a}
    case LoadBR => {a}
    case LoadWI => {a}
    case LoadBI => {a}
    case Arith(_) => {c, CARRY}
    case ArithI(_) => {c, CARRY}
    case Jmp => {PC}
    case JmpR => {PC}
    case Branch(_) => {PC}
    case BranchI(_) => {PC}
    case BranchR(_) => {PC}
    case BranchRI(_) => {PC}
    case Swap => {a, b}
    case Copy => {a}
    case Bits(_) => {c}
    case BitsI(_) => {c}
    case Not => {b}
    case CpuId => {RES}
    case _ => {}
  }

  predicate Operands(op: Op, a: int, b: int, c: int) {
    a >= 0 && b >= 0 && c >= 0 && !BadOperands(op, a, b, c)
  }

  lemma MemoryEffect(m: State, op: Op, a: int, b: int, c: int, bus: Bus)
    requires Ready(m) && Operands(op, a, b, c) && IsMemoryOp(op)
    ensures Effect(m, Execute(m, op, a, b, c, bus), Destination(op, a, b, c))
  {
    hide Effect, LoadWord, LoadByte, SaveWord, SaveByte, InstallTrap, Arithmetic3, BranchTo, BranchImm, SwapRegs,
         SetBits,
         Rfe, Intr, Jump, Set;
    var dest := Destination(op, a, b, c);
    var v := Val(m, b);
    var l := Look(m, b);
    Looked(m, b, RSVD, dest);
    match op
    case SaveW => SaveWordEffect(m, a, b, dest);
    case LoadW => LoadWordEffect(m, a, b, bus);
    case SaveB => SaveByteEffect(m, a, b, dest);
    case LoadB => LoadByteEffect(m, a, b, bus);
    case SaveWR => if l.ctl == Running { SaveWordEffect(m, a, v, dest); } StoppedMemory(l, a, v, bus);
    case LoadWR => if l.ctl == Running { LoadWordEffect(m, a, v, bus); } StoppedMemory(l, a, v, bus);
    case SaveBR => if l.ctl == Running { SaveByteEffect(m, a, v, dest); } StoppedMemory(l, a, v, bus);
    case LoadBR => if l.ctl == Running { LoadByteEffect(m, a, v, bus); } StoppedMemory(l, a, v, bus);
    case SaveWI => SaveWordIEffect(m, a, b, dest);
    case SaveBI => SaveByteIEffect(m, a, b, dest);
    case SaveWRI => if l.ctl == Running { SaveWordIEffect(m, a, v, dest); } StoppedMemory(l, RSVD, v, bus);
    case SaveBRI => if l.ctl == Running { SaveByteIEffect(m, a, v, dest); } StoppedMemory(l, RSVD, v, bus);
    case StrapR => InstallTrapEffect(m, a, b, dest);
    case StrapI =>
      PutEffect(m, a, dest);
      InstallTrapEffect(Put(m, RSVD, a), RSVD, b, dest);
      AfterPut(m, a, Execute(m, op, a, b, c, bus), dest);
  }

  lemma StoppedMemory(m: State, r: int, addr: int, bus: Bus)
    ensures m.ctl != Running ==>
      && LoadWord(m, r, addr, bus) == m && LoadByte(m, r, addr, bus) == m
      && SaveWord(m, r, addr) == m && SaveByte(m, r, addr) == m
  {
  }

  lemma SaveByteEffect(m: State, r: int, addr: int, dest: set<int>)
    requires Ready(m)
    ensures Effect(m, SaveByte(m, r, addr), dest)
  {
    hide SaveLane, Effect;
    SaveLaneSame(m, r, addr, 1);
    SameRegisters(m, SaveByte(m, r, addr), dest);
  }

  lemma SaveWordIEffect(m: State, v: int, addr: int, dest: set<int>)
    requires Ready(m) && addr >= 0
    ensures Effect(m, SaveWordI(m, v, addr), dest)
  {
    hide SaveWord, Effect;
    PutEffect(m, v, dest);
    SaveWordEffect(Put(m, RSVD, v), RSVD, addr, dest);
    AfterPut(m, v, SaveWordI(m, v, addr), dest);
  }

  lemma SaveByteIEffect(m: State, v: int, addr: int, dest: set<int>)
    requires Ready(m)
    ensures Effect(m, SaveByte(Put(m, RSVD, v), RSVD, addr), dest)
  {
    hide SaveByte, Effect;
    PutEffect(m, v, dest);
    SaveByteEffect(Put(m, RSVD, v), RSVD, addr, dest);
    AfterPut(m, v, SaveByte(Put(m, RSVD, v), RSVD, addr), dest);
  }

  lemma BranchEffect(m: State, op: Op, a: int, b: int, c: int, bus: Bus)
    requires Ready(m) && Operands(op, a, b, c) && IsBranchOp(op)
    ensures Effect(m, Execute(m, op, a, b, c, bus), Destination(op, a, b, c))
  {
    hide Effect, BranchTo, BranchImm, Jump;
    match op
    case Jmp => JumpEffect(m, a);
    case JmpR =>
      Looked(m, a, RSVD, {PC});
      JumpEffect(m, Val(m, a));
      StoppedJump(Look(m, a), Val(m, a));
    case Branch(k) => BranchToEffect(m, k, a, b, c);
    case BranchI(k) => SameRegisters(m, m, {PC}); BranchImmEffect(m, m, k, a, b, c);
    case BranchR(k) =>
      Looked(m, c, RSVD, {PC});
      BranchToEffect(m, k, a, b, Val(m, c));
      StoppedBranch(Look(m, c), k, a, b, Val(m, c));
    case BranchRI(k) =>
      Looked(m, c, RSVD, {PC});
      BranchImmEffect(m, Look(m, c), k, a, b, Val(m, c));
  }

  lemma ComputeEffect(m: State, op: Op, a: int, b: int, c: int, bus: Bus)
    requires Ready(m) && Operands(op, a, b, c) && IsComputeOp(op)
    ensures Effect(m, Execute(m, op, a, b, c, bus), Destination(op, a, b, c))
  {
    hide Effect, SetBits, Arithmetic3, HasBit;
    var dest := Destination(op, a, b, c);
    match op
    case Arith(f) => Arithmetic3Effect(m, f, a, b, c);
    case ArithI(f) =>
      PutEffect(m, b, dest);
      Arithmetic3Effect(Put(m, RSVD, b), f, a, RSVD, c);
      AfterPut(m, b, Execute(m, op, a, b, c, bus), dest);
    case Bits(f) =>
      Looked(m, a, b, dest);
      var l := Look(Look(m, a), b);
      if l.ctl == Running { SetBitsEffect(m, f, a, Val(m, b), c); }
      StoppedBits(l, f, Val(m, a), Val(m, b), c);
    case BitsI(f) =>
      Looked(m, a, RSVD, dest);
      var l := Look(m, a);
      if l.ctl == Running { SetBitsEffect(m, f, a, b, c); }
      StoppedBits(l, f, Val(m, a), b, c);
  }

  lemma MoveEffect(m: State, op: Op, a: int, b: int, c: int, bus: Bus)
    requires Ready(m) && Operands(op, a, b, c)
    requires !IsMemoryOp(op) && !IsBranchOp(op) && !IsComputeOp(op) && !op.ReturnFromTrap?
    ensures Effect(m, Execute(m, op, a, b, c, bus), Destination(op, a, b, c))
  {
    hide Effect, Set, SwapRegs, Intr, HasBit;
    var dest := Destination(op, a, b, c);
    match op
    case Nop => SameRegisters(m, m, dest);
    case Wait => SameRegisters(m, m, dest);
    case Halt => EndedEffect(m, m.(ctl := Halted), dest);
    case Interrupt => IntrEffect(m, dest);
    case LoadWI => SetEffect(m, a, b, dest);
    case LoadBI => SetEffect(m, a, b % 256, dest);
    case CpuId => SetEffect(m, RES, 6, dest);
    case Swap => SwapEffect(m, a, b);
    case Copy => OneSource(m, b, a, Val(m, b));
    case Not => OneSource(m, a, b, (-1 - Val(m, a)) % WORD);
  }

  lemma StoppedBits(m: State, f: Bitwise, x: int, y: int, r: int)
    ensures m.ctl != Running ==> SetBits(m, f, x, y, r) == m
  {
  }

  lemma OneSource(m: State, r1: int, r2: int, v: int)
    requires Ready(m) && r2 >= 0 && r2 != FC && r2 != RSVD && v >= 0
    ensures Effect(m, Set(Look(m, r1), r2, v), {r2})
  {
    hide Set, Effect;
    Looked(m, r1, RSVD, {r2});
    if Look(m, r1).ctl == Running { SetEffect(m, r2, v, {r2}); }
    SetStopped(Look(m, r1), r2);
  }

  /** Every instruction but `rfe`, with any operands a program can give it. */
  lemma ExecuteEffect(m: State, op: Op, a: int, b: int, c: int, bus: Bus)
    requires Ready(m) && Operands(op, a, b, c) && !op.ReturnFromTrap?
    ensures Effect(m, Execute(m, op, a, b, c, bus), Destination(op, a, b, c))
  {
    hide Effect, Execute, Destination;
    if IsMemoryOp(op) { MemoryEffect(m, op, a, b, c, bus); }
    else if IsBranchOp(op) { BranchEffect(m, op, a, b, c, bus); }
    else if IsComputeOp(op) { ComputeEffect(m, op, a, b, c, bus); }
    else { MoveEffect(m, op, a, b, c, bus); }
  }
}
