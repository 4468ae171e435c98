/** The processor as the emulator runs it: mutable registers, and every read through the cache.
    Each method is proved against the function of the same step on the uncached machine. */
module Processor {
  import opened Words
  import opened Status
  import opened Machine
  import opened Instructions
  import opened Storage
  import opened Quiet
  import Division

  /** As the source has it: seven digits.  No trap ever gets there. */
  const TRAP_DFAULT: int := 0xffff050

  const MASK_READ: int := 4
  const MASK_FETCH: int := 5
  const MASK_DEFAULT: int := 0

  /** The devices answer the same at every time. */
  ghost predicate Steady(device: Bus) {
    forall n: nat, k: nat, a: int :: device(n, a) == device(k, a)
  }

  class Cpu {
    const mmu: Mmu
    var registers: Registers
    var intrPending: bool
    var ctl: Control
    var accesses: nat            // reads so far: numbers the answers of the devices
    /** What the devices' answers amount to for this instruction: an answer served from the cache is
        the cached byte, however old. */
    ghost var served: Bus

    ghost function Repr(): set<object> { {this} + mmu.Repr() }

    ghost predicate Shape()
      reads this, mmu, mmu.memory
    {
      this !in mmu.Repr() && mmu !in mmu.memory.Repr() && mmu.Valid()
    }

    ghost predicate Valid()
      reads this, mmu, mmu.memory, mmu.memory.ram, mmu.memory.vectors
    {
      Shape() && (ctl == Running || ctl == Privileged ==> mmu.Coherent())
    }

    /** The machine this object stands for: the cache is not part of it. */
    ghost function Abs(): State
      requires Shape()
      reads this, mmu, mmu.memory, mmu.memory.ram, mmu.memory.vectors
    {
      State(registers, intrPending, mmu.memory.ram[..], mmu.memory.vectors[..], mmu.memory.sent, accesses, ctl)
    }

    constructor (image: seq<Byte>)
      ensures Valid() && fresh(Repr()) && mmu.entries == []
      ensures Abs() == State(seq(LAST, _ => 0), false,
        image + seq(if |image| < 4096 then 4096 - |image| else 0, _ => 0), seq(4096, _ => 0), [], 0, Running)
    {
      registers := seq(LAST, _ => 0);
      intrPending := false;
      ctl := Running;
      accesses := 0;
      served := (n, a) => 0;
      var memory := new Memory(image);
      mmu := new Mmu(memory);
    }

    /** Nothing was read, and an instruction already stopped stays so. */
    twostate predicate Undisturbed()
      reads this
    {
      && served == old(served) && accesses == old(accesses)
      && (old(ctl) != Running ==> ctl == old(ctl))
    }

    // -------- registers --------

    /** `registers[r]` with its exceptions. */
    method GetItem(r: int) returns (v: int)
      requires Shape()
      modifies this`ctl
      ensures Shape() && (old(Valid()) ==> Valid())
      ensures Abs() == Look(old(Abs()), r) && v == Val(old(Abs()), r)
      ensures old(ctl) != Running ==> ctl == old(ctl)
    {
      v := if 0 <= r < LAST then registers[r] else 0;
      if ctl == Running {
        if IsPriv(r) && HasBit(registers[STATUS], USER) {
          ctl := Privileged;
        } else if !(0 <= r < LAST) {
          ctl := Crashed;
        }
      }
    }

    method SetReserved(v: int)
      requires Valid()
      modifies this`registers
      ensures Valid() && Undisturbed()
      ensures Abs() == Put(old(Abs()), RSVD, v)
    {
      if ctl == Running {
        registers := registers[RSVD := v];
      }
    }

    /** `registers[r] = v`.  `frames` counts the trap entries under way: none of the writes a trap
        entry makes can fire another interrupt. */
    method SetItem(r: int, v: int, ghost frames: nat)
      requires Valid() && frames <= 2
      requires frames > 0 ==> r != STATUS && !HasBit(registers[STATUS], INTR)
      modifies this
      ensures Valid() && Undisturbed()
      ensures Abs() == Set(old(Abs()), r, v)
      decreases if intrPending then 4 else 0, 0
    {
      if ctl != Running {
        return;
      }
      if IsPriv(r) && HasBit(registers[STATUS], USER) {
        ctl := Privileged;
        return;
      }
      if !(0 <= r < LAST) {
        ctl := Crashed;
        return;
      }
      registers := registers[r := v];
      if HasBit(registers[STATUS], INTR) && intrPending {
        HandleIntr(frames);
      }
    }

    // -------- traps --------

    /** The `intr` entry point. */
    method HandleIntr(ghost frames: nat)
      requires Valid() && frames == 0
      modifies this
      ensures Valid() && Undisturbed()
      ensures Abs() == Intr(old(Abs()))
      decreases 3, 0
    {
      if ctl != Running {
        return;
      }
      if !HasBit(registers[STATUS], INTR) {
        intrPending := true;
      } else {
        intrPending := false;
        EnterTrap(TRAP_INTR, frames);
      }
    }

    /** The modes move one level down: six bit assignments. */
    method PushModes()
      requires Valid() && ctl == Running
      modifies this`registers
      ensures Valid()
      ensures Abs() == var m := old(Abs()); m.(regs := m.regs[STATUS := Push(m.regs[STATUS])])
      ensures !HasBit(registers[STATUS], INTR) && !HasBit(registers[STATUS], USER)
    {
      ghost var old_ := registers;
      registers := registers[STATUS := SetBit(registers[STATUS], INTR_OLD, HasBit(registers[STATUS], INTR_PREV))];
      registers := registers[STATUS := SetBit(registers[STATUS], INTR_PREV, HasBit(registers[STATUS], INTR))];
      registers := registers[STATUS := SetBit(registers[STATUS], INTR, false)];
      registers := registers[STATUS := SetBit(registers[STATUS], USER_OLD, HasBit(registers[STATUS], USER_PREV))];
      registers := registers[STATUS := SetBit(registers[STATUS], USER_PREV, HasBit(registers[STATUS], USER))];
      registers := registers[STATUS := SetBit(registers[STATUS], USER, false)];
      PushIsShift(old_[STATUS]);
      PushSaves(old_[STATUS]);
      assert registers == old_[STATUS := Push(old_[STATUS])] by { hide Push, HasBit, SetBit; }
    }

    /** The modes move one level up: four bit assignments. */
    method PopModes()
      requires Valid() && ctl == Running
      modifies this`registers
      ensures Valid()
      ensures Abs() == var m := old(Abs()); m.(regs := m.regs[STATUS := Pop(m.regs[STATUS])])
    {
      ghost var old_ := registers;
      registers := registers[STATUS := SetBit(registers[STATUS], INTR, HasBit(registers[STATUS], INTR_PREV))];
      registers := registers[STATUS := SetBit(registers[STATUS], INTR_PREV, HasBit(registers[STATUS], INTR_OLD))];
      registers := registers[STATUS := SetBit(registers[STATUS], USER, HasBit(registers[STATUS], USER_PREV))];
      registers := registers[STATUS := SetBit(registers[STATUS], USER_PREV, HasBit(registers[STATUS], USER_OLD))];
      PopIsShift(old_[STATUS]);
      assert registers == old_[STATUS := Pop(old_[STATUS])] by { hide Pop, HasBit, SetBit; }
    }

    /** Trap entry.  At most one trap entry is ever nested in another, and it halts. */
    method EnterTrap(addr: int, ghost frames: nat)
      requires Valid() && addr >= 0
      requires frames == 0 || (frames == 1 && registers[FC] == 2)
      modifies this
      ensures Valid() && Undisturbed()
      ensures Abs() == if frames == 0 then Trap(old(Abs()), addr) else
        var m := old(Abs()); if m.ctl != Running then m
        else m.(regs := m.regs[STATUS := Push(m.regs[STATUS])][FC := 3], ctl := Halted)
      decreases if intrPending then 6 else 2, if registers[FC] < 3 then 3 - registers[FC] else 0
    {
      if ctl != Running {
        return;
      }
      hide Push, HasBit;
      PushModes();
      SetItem(FC, registers[FC] + 1, frames + 1);
      if registers[FC] == 2 {
        EnterTrap(TRAP_DFAULT, frames + 1);
        return;
      } else if registers[FC] == 3 {
        ctl := Halted;
        return;
      }
      SetItem(RET, registers[PC], frames + 1);
      JumpTo(addr, frames + 1);
    }

    method JumpTo(addr: int, ghost frames: nat)
      requires Valid() && frames <= 2
      requires frames > 0 ==> addr >= 0 && !HasBit(registers[STATUS], INTR)
      modifies this
      ensures Valid() && Undisturbed()
      ensures Abs() == Jump(old(Abs()), addr)
      decreases if addr < 0 then 7 else if intrPending then 5 else 1, 0
    {
      if addr < 0 {
        EnterTrap(TRAP_ILL, frames);
        return;
      }
      SetItem(PC, addr, frames);
    }

    method ReturnFromException()
      requires Valid()
      modifies this
      ensures Valid() && Undisturbed()
      ensures Abs() == Rfe(old(Abs()))
    {
      if ctl != Running {
        return;
      }
      hide Pop, Push, HasBit, Trap;
      PopModes();
      if registers[FC] > 0 {
        SetItem(FC, registers[FC] - 1, 0);
      }
      if intrPending && HasBit(registers[STATUS], INTR) {
        HandleIntr(0);
      }
      SetItem(PC, registers[RET], 0);
    }

    // -------- memory --------

    /** The answers to the reads numbered below `n` are as before; all of them, if nothing ran. */
    ghost predicate Earlier(before: Bus, n: nat, was: Control)
      reads this
    {
      && n <= accesses
      && (forall k: nat, a: int :: k < n ==> served(k, a) == before(k, a))
      && (was != Running ==> served == before && ctl == was)
    }

    /** The cached device bytes are what the devices answer at any time. */
    ghost predicate Current(device: Bus)
      reads this, mmu
    {
      forall i :: 0 <= i < |mmu.entries| && IsDevice(mmu.entries[i].0.addr) ==>
        forall n: nat :: device(n, mmu.entries[i].0.addr) == mmu.entries[i].1
    }

    /** A byte through the cache.  With the MMU on the model stops here, cached or not. */
    method ReadByte(addr: int, mask: int, device: Bus) returns (b: Byte)
      requires Valid()
      modifies this, mmu
      ensures Valid() && Earlier(old(served), old(accesses), old(ctl))
      ensures Steady(device) && old(Current(device)) && old(served) == device ==> served == device && Current(device)
      ensures Abs() == Access(old(Abs()), addr)
      ensures ctl == Running ==> b == ByteAt(old(Abs()), addr, served)
    {
      b := 0;
      if ctl != Running {
        return;
      }
      if HasBit(registers[STATUS], MMU_ENABLE) {
        ctl := Unmodelled;
        return;
      }
      var found;
      ghost var entries := mmu.entries;
      found, b := mmu.GetAddress(addr, mask, HasBit(registers[STATUS], MMU_ENABLE), device(accesses, addr));
      if found {
        ghost var before, here, byte := served, accesses, b;
        if IsDevice(addr) && before(here, addr) != byte {
          served := (n: nat, a: int) => if n == here && a == addr then byte else before(n, a);
        }
        accesses := accesses + 1;
      } else {
        ctl := Crashed;
      }
    }

    /** `registers[r] |= byte << shift`. */
    method LoadLane(r: int, addr: int, scale: int, mask: int, device: Bus)
      requires Valid()
      modifies this, mmu
      ensures Valid() && Earlier(old(served), old(accesses), old(ctl))
      ensures Steady(device) && old(Current(device)) && old(served) == device ==> served == device && Current(device)
      ensures Abs() == Instructions.LoadLane(old(Abs()), r, addr, scale, served)
    {
      hide Machine.Set, Or, Access, ByteAt, HasBit;
      var v := GetItem(r);
      var b := ReadByte(addr, mask, device);
      ghost var read := Abs();
      SetItem(r, Or(v, b * scale), 0);
      SetStopped(read, r);
    }

    method LoadWord(r: int, addr: int, mask: int, device: Bus)
      requires Valid()
      modifies this, mmu
      ensures Valid() && Earlier(old(served), old(accesses), old(ctl))
      ensures Steady(device) && old(Current(device)) && old(served) == device ==> served == device && Current(device)
      ensures Abs() == Instructions.LoadWord(old(Abs()), r, addr, served)
    {
      hide Machine.Set, Instructions.LoadLane, Access, ByteAt, Trap;
      if addr + 3 > MAXVAL {
        EnterTrap(TRAP_ILL, 0);
        return;
      }
      ghost var m := Abs();
      var b: int := ReadByte(addr, mask, device);
      ghost var s1 := served;
      ghost var read := Abs();
      SetItem(r, b * 0x100_0000, 0);
      SetStopped(read, r);
      ghost var m1 := Abs();
      LoadLane(r, addr + 1, 0x1_0000, mask, device);
      ghost var s2, m2 := served, Abs();
      LoadLane(r, addr + 2, 0x100, mask, device);
      ghost var s3, m3 := served, Abs();
      LoadLane(r, addr + 3, 1, mask, device);
      SetCounts(Access(m, addr), r, b * 0x100_0000);
      AccessAgree(m, addr, s1, served);
      LaneAgree(m1, r, addr + 1, 0x1_0000, s2, served);
      LaneAgree(m2, r, addr + 2, 0x100, s3, served);
    }

    method LoadByte(r: int, addr: int, device: Bus)
      requires Valid()
      modifies this, mmu
      ensures Valid() && Earlier(old(served), old(accesses), old(ctl))
      ensures Steady(device) && old(Current(device)) && old(served) == device ==> served == device && Current(device)
      ensures Abs() == Instructions.LoadByte(old(Abs()), r, addr, served)
    {
      hide Machine.Set, Access, ByteAt;
      var b := ReadByte(addr, MASK_DEFAULT, device);
      ghost var read := Abs();
      SetItem(r, b, 0);
      SetStopped(read, r);
    }

    /** A byte written past the cache, which is stale for that address until it is cleared. */
    method WriteByte(addr: int, v: Byte)
      requires Shape()
      modifies this, mmu.memory, mmu.memory.ram, mmu.memory.vectors
      ensures Shape() && served == old(served) && accesses == old(accesses) && mmu.entries == old(mmu.entries)
      ensures Abs() == StoreByte(old(Abs()), addr, v)
      ensures old(ctl) != Running && old(mmu.Coherent()) ==> mmu.Coherent()
    {
      if ctl != Running {
        return;
      }
      if HasBit(registers[STATUS], MMU_ENABLE) {
        ctl := Unmodelled;
        return;
      }
      var found := mmu.WriteAddress(addr, v);
      if !found {
        ctl := Crashed;
      }
    }

    method SaveLane(r: int, addr: int, scale: int)
      requires Shape() && scale > 0
      modifies this, mmu.memory, mmu.memory.ram, mmu.memory.vectors
      ensures Shape() && served == old(served) && accesses == old(accesses) && mmu.entries == old(mmu.entries)
      ensures Abs() == Instructions.SaveLane(old(Abs()), r, addr, scale)
      ensures registers == old(registers) && (old(ctl) != Running ==> ctl == old(ctl))
      ensures ctl == Privileged && old(mmu.Coherent()) ==> mmu.Coherent()
      ensures ctl == Privileged ==> old(ctl) == Privileged || (IsPriv(r) && HasBit(registers[STATUS], USER))
      ensures old(ctl) == Running && IsPriv(r) && HasBit(registers[STATUS], USER) ==> ctl == Privileged
    {
      hide StoreByte, HasBit;
      label start:
      var v := GetItem(r);
      label looked:
      WriteByte(addr, (v / scale) % 256);
      StoreControl(old@looked(Abs()), addr, (v / scale) % 256);
      assert old@looked(ctl) == Running ==> ctl != Privileged;
    }

    lemma StoreControl(m: State, addr: int, v: Byte)
      ensures m.ctl == Running ==> StoreByte(m, addr, v).ctl != Privileged
      ensures m.ctl != Running ==> StoreByte(m, addr, v) == m
      ensures StoreByte(m, addr, v).regs == m.regs
    {
    }

    method SaveWord(r: int, addr: int)
      requires Valid()
      modifies Repr()
      ensures Valid() && Undisturbed()
      ensures mmu.entries == old(mmu.entries) || mmu.entries == []
      ensures Abs() == Instructions.SaveWord(old(Abs()), r, addr)
    {
      hide Instructions.SaveLane, Trap, HasBit;
      if addr + 3 > MAXVAL {
        EnterTrap(TRAP_ILL, 0);
        return;
      }
      SaveLane(r, addr, 0x100_0000);
      SaveLane(r, addr + 1, 0x1_0000);
      SaveLane(r, addr + 2, 0x100);
      SaveLane(r, addr + 3, 1);
      ClearCache();
    }

    method SaveByte(r: int, addr: int)
      requires Valid()
      modifies Repr()
      ensures Valid() && Undisturbed()
      ensures mmu.entries == old(mmu.entries) || mmu.entries == []
      ensures Abs() == Instructions.SaveByte(old(Abs()), r, addr)
    {
      hide Instructions.SaveLane, HasBit;
      SaveLane(r, addr, 1);
      ClearCache();
    }

    /** Reached at the end of a store, unless an exception went past it. */
    method ClearCache()
      requires Shape()
      requires ctl == Privileged ==> mmu.Coherent()
      modifies mmu`entries
      ensures Valid() && Abs() == old(Abs())
      ensures mmu.entries == old(mmu.entries) || mmu.entries == []
    {
      if ctl == Running {
        mmu.ClearCache();
      }
    }

    method SaveWordI(v: int, addr: int)
      requires Valid()
      modifies Repr()
      ensures Valid() && Undisturbed()
      ensures mmu.entries == old(mmu.entries) || mmu.entries == []
      ensures Abs() == Instructions.SaveWordI(old(Abs()), v, addr)
    {
      hide Instructions.SaveWord;
      SetReserved(v);
      SaveWord(RSVD, addr);
    }

    method InstallTrap(r: int, addr: int)
      requires Valid()
      modifies Repr()
      ensures Valid() && Undisturbed()
      ensures mmu.entries == old(mmu.entries) || mmu.entries == []
      ensures Abs() == Instructions.InstallTrap(old(Abs()), r, addr)
    {
      hide Instructions.SaveWordI, Look;
      var k := GetItem(r);
      var at := VECTORS + k * 16;
      SaveWordI(0x19, at);
      SaveWordI(addr, at + 4);
      SaveWordI(0, at + 8);
      SaveWordI(0, at + 12);
    }

    // -------- arithmetic and bits --------

    method SetResult(r: int, result: int)
      requires Valid()
      modifies this
      ensures Valid() && Undisturbed()
      ensures Abs() == Instructions.SetResult(old(Abs()), r, result)
    {
      hide Machine.Set;
      SetItem(r, result % WORD, 0);
      SetItem(CARRY, if result > MAXVAL then 1 else 0, 0);
    }

    method Add(r1: int, r2: int, r3: int)
      requires Valid()
      modifies this
      ensures Valid() && Undisturbed()
      ensures Abs() == Instructions.Add(old(Abs()), r1, r2, r3)
    {
      hide Instructions.SetResult;
      var x := GetItem(r1);
      var y := GetItem(r2);
      SetResult(r3, x + y);
    }

    method Sub(r1: int, r2: int, r3: int)
      requires Valid()
      modifies this
      ensures Valid() && Undisturbed()
      ensures Abs() == Instructions.Sub(old(Abs()), r1, r2, r3)
    {
      hide Instructions.Add;
      var y := GetItem(r2);
      SetReserved(-y);
      Add(r1, RSVD, r3);
    }

    method Mul(r1: int, r2: int, r3: int)
      requires Valid()
      modifies this
      ensures Valid() && Undisturbed()
      ensures Abs() == Instructions.Mul(old(Abs()), r1, r2, r3)
    {
      hide Instructions.SetResult;
      var x := GetItem(r1);
      var y := GetItem(r2);
      SetResult(r3, x * y);
    }

    method Div(r1: int, r2: int, r3: int, quotient: bool)
      requires Valid()
      modifies this
      ensures Valid() && Undisturbed()
      ensures Abs() == Instructions.Div(old(Abs()), r1, r2, r3, quotient)
    {
      hide Machine.Set, Trap, Division.DivMod;
      var y := GetItem(r2);
      if y == 0 {
        EnterTrap(TRAP_DIV, 0);
        return;
      }
      var x := GetItem(r1);
      var q, rem := Division.Divide(x, y);
      SetItem(r3, (if quotient then q else rem) % WORD, 0);
      SetItem(CARRY, 0, 0);
    }

    method Arithmetic3(f: Arithmetic, r1: int, r2: int, r3: int)
      requires Valid()
      modifies this
      ensures Valid() && Undisturbed()
      ensures Abs() == Instructions.Arithmetic3(old(Abs()), f, r1, r2, r3)
    {
      hide Instructions.Add, Instructions.Sub, Instructions.Mul, Instructions.Div;
      match f
      case AddOp => Add(r1, r2, r3);
      case SubOp => Sub(r1, r2, r3);
      case MulOp => Mul(r1, r2, r3);
      case DivOp => Div(r1, r2, r3, true);
      case ModOp => Div(r1, r2, r3, false);
    }

    method SetBits(f: Bitwise, x: int, y: int, r: int)
      requires Valid()
      modifies this
      ensures Valid() && Undisturbed()
      ensures Abs() == Instructions.SetBits(old(Abs()), f, x, y, r)
    {
      hide Machine.Set, BitwiseResult;
      if ctl != Running {
        return;
      }
      if (f.ShlOp? || f.ShrOp?) && y < 0 {
        ctl := Crashed;
        return;
      }
      SetItem(r, BitwiseResult(f, x, y), 0);
    }

    // -------- branches and moves --------

    method BranchTo(c: Condition, r1: int, r2: int, addr: int)
      requires Valid()
      modifies this
      ensures Valid() && Undisturbed()
      ensures Abs() == Instructions.BranchTo(old(Abs()), c, r1, r2, addr)
    {
      hide Jump, Holds;
      var x := GetItem(r1);
      var y := GetItem(r2);
      if Holds(c, x, y) {
        JumpTo(addr, 0);
      }
    }

    method BranchImm(c: Condition, r1: int, v: int, addr: int)
      requires Valid()
      modifies this
      ensures Valid() && Undisturbed()
      ensures Abs() == Instructions.BranchImm(old(Abs()), c, r1, v, addr)
    {
      hide Instructions.BranchTo;
      SetReserved(v);
      BranchTo(c, r1, RSVD, addr);
    }

    method SwapRegs(r1: int, r2: int)
      requires Valid()
      modifies this
      ensures Valid() && Undisturbed()
      ensures Abs() == Instructions.SwapRegs(old(Abs()), r1, r2)
    {
      hide Machine.Set;
      var temp := GetItem(r1);
      SetItem(r1, r2, 0);
      SetItem(r2, temp, 0);
    }

    // -------- dispatch --------

    method ExecuteMemory(op: Op, a: int, b: int, c: int, device: Bus)
      requires Valid() && IsMemoryOp(op)
      modifies Repr()
      ensures Valid() && Earlier(old(served), old(accesses), old(ctl))
      ensures Steady(device) && old(Current(device)) && old(served) == device ==> served == device && Current(device)
      ensures Abs() == Execute(old(Abs()), op, a, b, c, served)
    {
      hide Instructions.LoadWord, Instructions.LoadByte, Instructions.SaveWord, Instructions.SaveByte,
           Instructions.SaveWordI, Instructions.InstallTrap, Instructions.Arithmetic3, Instructions.BranchTo,
           Instructions.BranchImm, Instructions.SwapRegs, Instructions.SetBits, Rfe, Intr, Jump, Machine.Set, Look;
      if op.SaveWR? || op.LoadWR? || op.SaveBR? || op.LoadBR? || op.SaveWRI? || op.SaveBRI? {
        ExecuteIndirect(op, a, b, c, device);
        return;
      }
      match op
      case SaveW => SaveWord(a, b);
      case LoadW => LoadWord(a, b, MASK_READ, device);
      case SaveB => SaveByte(a, b);
      case LoadB => LoadByte(a, b, device);
      case SaveWI => SaveWordI(a, b);
      case SaveBI => SetReserved(a); SaveByte(RSVD, b);
      case StrapR => InstallTrap(a, b);
      case StrapI => SetReserved(a); InstallTrap(RSVD, b);
    }

    /** The memory instructions that take their address from a register. */
    method ExecuteIndirect(op: Op, a: int, b: int, c: int, device: Bus)
      requires Valid()
      requires op.SaveWR? || op.LoadWR? || op.SaveBR? || op.LoadBR? || op.SaveWRI? || op.SaveBRI?
      modifies Repr()
      ensures Valid() && Earlier(old(served), old(accesses), old(ctl))
      ensures Steady(device) && old(Current(device)) && old(served) == device ==> served == device && Current(device)
      ensures Abs() == Execute(old(Abs()), op, a, b, c, served)
    {
      hide Instructions.LoadWord, Instructions.LoadByte, Instructions.SaveWord, Instructions.SaveByte,
           Instructions.SaveWordI, Instructions.InstallTrap, Instructions.Arithmetic3, Instructions.BranchTo,
           Instructions.BranchImm, Instructions.SwapRegs, Instructions.SetBits, Rfe, Intr, Jump, Machine.Set, Look;
      if op.LoadWR? || op.LoadBR? {
        LoadIndirect(op, a, b, c, device);
        return;
      }
      var addr := GetItem(b);
      match op
      case SaveWR => SaveWord(a, addr);
      case SaveBR => SaveByte(a, addr);
      case SaveWRI => SaveWordI(a, addr);
      case SaveBRI => SetReserved(a); SaveByte(RSVD, addr);
    }

    method LoadIndirect(op: Op, a: int, b: int, c: int, device: Bus)
      requires Valid() && (op.LoadWR? || op.LoadBR?)
      modifies Repr()
      ensures Valid() && Earlier(old(served), old(accesses), old(ctl))
      ensures Steady(device) && old(Current(device)) && old(served) == device ==> served == device && Current(device)
      ensures Abs() == Execute(old(Abs()), op, a, b, c, served)
    {
      hide Instructions.LoadWord, Instructions.LoadByte, Instructions.SaveWord, Instructions.SaveByte,
           Instructions.SaveWordI, Instructions.InstallTrap, Instructions.Arithmetic3, Instructions.BranchTo,
           Instructions.BranchImm, Instructions.SwapRegs, Instructions.SetBits, Rfe, Intr, Jump, Machine.Set, Look;
      var addr := GetItem(b);
      match op
      case LoadWR => LoadWord(a, addr, MASK_READ, device);
      case LoadBR => LoadByte(a, addr, device);
    }

    method ExecuteBranch(op: Op, a: int, b: int, c: int, ghost device: Bus)
      requires Valid() && IsBranchOp(op)
      modifies this
      ensures Valid() && Undisturbed()
      ensures Abs() == Execute(old(Abs()), op, a, b, c, device)
    {
      hide Instructions.LoadWord, Instructions.LoadByte, Instructions.SaveWord, Instructions.SaveByte,
           Instructions.SaveWordI, Instructions.InstallTrap, Instructions.Arithmetic3, Instructions.BranchTo,
           Instructions.BranchImm, Instructions.SwapRegs, Instructions.SetBits, Rfe, Intr, Jump, Machine.Set, Look;
      match op
      case Jmp => JumpTo(a, 0);
      case JmpR => var addr := GetItem(a); JumpTo(addr, 0);
      case Branch(k) => BranchTo(k, a, b, c);
      case BranchI(k) => BranchImm(k, a, b, c);
      case BranchR(k) => var addr := GetItem(c); BranchTo(k, a, b, addr);
      case BranchRI(k) => var addr := GetItem(c); BranchImm(k, a, b, addr);
    }

    method ExecuteCompute(op: Op, a: int, b: int, c: int, ghost device: Bus)
      requires Valid() && IsComputeOp(op)
      modifies this
      ensures Valid() && Undisturbed()
      ensures Abs() == Execute(old(Abs()), op, a, b, c, device)
    {
      hide Instructions.LoadWord, Instructions.LoadByte, Instructions.SaveWord, Instructions.SaveByte,
           Instructions.SaveWordI, Instructions.InstallTrap, Instructions.Arithmetic3, Instructions.BranchTo,
           Instructions.BranchImm, Instructions.SwapRegs, Instructions.SetBits, Rfe, Intr, Jump, Machine.Set, Look;
      match op
      case Arith(f) => Arithmetic3(f, a, b, c);
      case ArithI(f) => SetReserved(b); Arithmetic3(f, a, RSVD, c);
      case Bits(f) =>
        var x := GetItem(a);
        var y := GetItem(b);
        SameValue(b);
        SetBits(f, x, y, c);
      case BitsI(f) => var x := GetItem(a); SetBits(f, x, b, c);
    }

    lemma SameValue(r: int)
      ensures forall m: State, r' :: Val(Look(m, r'), r) == Val(m, r)
    {
    }

    method ExecuteMove(op: Op, a: int, b: int, c: int, ghost device: Bus)
      requires Valid() && !IsMemoryOp(op) && !IsBranchOp(op) && !IsComputeOp(op)
      modifies this
      ensures Valid() && Undisturbed()
      ensures Abs() == Execute(old(Abs()), op, a, b, c, device)
    {
      hide Instructions.LoadWord, Instructions.LoadByte, Instructions.SaveWord, Instructions.SaveByte,
           Instructions.SaveWordI, Instructions.InstallTrap, Instructions.Arithmetic3, Instructions.BranchTo,
           Instructions.BranchImm, Instructions.SwapRegs, Instructions.SetBits, Rfe, Intr, Jump, Machine.Set, Look;
      match op
      case Nop =>
      case Wait =>
      case Halt => if ctl == Running { ctl := Halted; }
      case Interrupt => HandleIntr(0);
      case ReturnFromTrap => ReturnFromException();
      case LoadWI => SetItem(a, b, 0);
      case LoadBI => SetItem(a, b % 256, 0);
      case Swap => SwapRegs(a, b);
      case Copy => var v := GetItem(b); SetItem(a, v, 0);
      case Not => var v := GetItem(a); SetItem(b, (-1 - v) % WORD, 0);
      case CpuId => SetItem(RES, 6, 0);
    }

    method ExecuteOp(op: Op, a: int, b: int, c: int, device: Bus)
      requires Valid()
      modifies Repr()
      ensures Valid() && Earlier(old(served), old(accesses), old(ctl))
      ensures Steady(device) && old(Current(device)) && old(served) == device ==> served == device && Current(device)
      ensures Abs() == Execute(old(Abs()), op, a, b, c, served)
    {
      hide Execute;
      if IsMemoryOp(op) {
        ExecuteMemory(op, a, b, c, device);
      } else if IsBranchOp(op) {
        ExecuteBranch(op, a, b, c, served);
      } else if IsComputeOp(op) {
        ExecuteCompute(op, a, b, c, served);
      } else {
        ExecuteMove(op, a, b, c, served);
      }
    }

    // -------- the instruction cycle --------

    method FetchWord(device: Bus) returns (w: int)
      requires Valid()
      modifies this, mmu
      ensures Valid() && Earlier(old(served), old(accesses), old(ctl))
      ensures Steady(device) && old(Current(device)) && old(served) == device ==> served == device && Current(device)
      ensures Abs() == Instructions.FetchWord(old(Abs()), served) && w == registers[RSVD]
    {
      hide Instructions.LoadWord, Machine.Set;
      if ctl != Running {
        return registers[RSVD];
      }
      if registers[PC] + 3 > MAXVAL {
        ctl := Unmodelled;
        return registers[RSVD];
      }
      LoadWord(RSVD, registers[PC], MASK_FETCH, device);
      SetItem(PC, registers[PC] + 4, 0);
      w := registers[RSVD];
    }

    /** An illegal or a privileged instruction traps; the latter with PC back at the instruction. */
    method DispatchOp(opcode: int, a: int, b: int, c: int, device: Bus)
      requires Valid()
      modifies Repr()
      ensures Valid() && Earlier(old(served), old(accesses), old(ctl))
      ensures Steady(device) && old(Current(device)) && old(served) == device ==> served == device && Current(device)
      ensures Abs() == Dispatch(old(Abs()), opcode, a, b, c, served)
    {
      hide Execute, Decode, BadOperands, Trap, Machine.Set;
      if ctl != Running {
        return;
      }
      if !(0 <= opcode < OPCODES) || BadOperands(Decode(opcode), a, b, c) {
        EnterTrap(TRAP_ILL, 0);
        return;
      }
      ExecuteOp(Decode(opcode), a, b, c, device);
      if ctl == Privileged {
        ctl := Running;
        SetItem(PC, registers[PC] - 16, 0);
        EnterTrap(TRAP_ILL, 0);
      }
    }

    /** Fetch, decode and execute one instruction. */
    method DecodeNextInstr(device: Bus)
      requires Valid()
      modifies Repr()
      ensures Valid()
      ensures Abs() == Step(old(Abs()), served)
      ensures Steady(device) && old(Current(device)) ==> served == device && Current(device)
    {
      hide Instructions.FetchWord, Dispatch;
      served := device;
      ghost var m := Abs();
      var opcode := FetchWord(device);
      ghost var s1, m1 := served, Abs();
      var op1 := FetchWord(device);
      ghost var s2, m2 := served, Abs();
      var op2 := FetchWord(device);
      ghost var s3, m3 := served, Abs();
      var op3 := FetchWord(device);
      ghost var s4, m4 := served, Abs();
      DispatchOp(opcode, op1, op2, op3, device);
      FetchAgree(m, s1, served);
      FetchAgree(m1, s2, served);
      FetchAgree(m2, s3, served);
      FetchAgree(m3, s4, served);
      FetchedUnfolds(m, served);
    }

    /** One event; `s` is the event with the answers as this machine heard them. */
    method Happen(e: Event, ghost steady: Bus) returns (ghost s: Event)
      requires Valid()
      modifies Repr()
      ensures Valid() && s.Tick? == e.Tick? && Abs() == After(old(Abs()), s)
      ensures Steady(steady) && (e.Tick? ==> e.bus == steady) && old(Current(steady)) ==> s == e && Current(steady)
    {
      hide Step, Intr;
      ghost var m := Abs();
      match e {
        case Tick(device) => DecodeNextInstr(device); s := Tick(served);
        case Request => HandleIntr(0); s := Request;
      }
    }

    /** A run through the cache, self-modifying code and all, is a run of the machine that reads
        memory directly, for some answers of the devices; for the very answers they gave, when the
        devices keep answering the same; and whatever they answer, when they are not read. */
    method RunAll(events: seq<Event>, ghost steady: Bus) returns (ghost seen: seq<Event>)
      requires Valid()
      modifies Repr()
      ensures Valid()
      ensures SameEvents(events, seen) && Abs() == Run(old(Abs()), seen)
      ensures old(mmu.entries) == [] && Steady(steady) && AnsweredBy(events, steady) ==> seen == events
      ensures QuietRun(old(Abs()), events) ==> Abs() == Run(old(Abs()), events)
    {
      hide After, QuietRun;
      seen := [];
      for i := 0 to |events|
        invariant Valid() && |seen| == i && SameEvents(events[..i], seen)
        invariant Abs() == Run(old(Abs()), seen)
        invariant old(mmu.entries) == [] && Steady(steady) && AnsweredBy(events, steady) ==>
                    Current(steady) && seen == events[..i]
      {
        ghost var before := seen;
        ghost var s := Happen(events[i], steady);
        seen := seen + [s];
        assert seen[..i] == before;
      }
      assert events[..|events|] == events;
      if QuietRun(old(Abs()), events) { QuietRunSame(old(Abs()), events, seen); }
    }
  }

  ghost predicate AnsweredBy(events: seq<Event>, device: Bus) {
    forall i :: 0 <= i < |events| && events[i].Tick? ==> events[i].bus == device
  }

  // -------- answers that are read are all that matters --------

  ghost predicate AgreeBelow(s: Bus, t: Bus, n: nat) {
    forall k: nat, a: int :: k < n ==> s(k, a) == t(k, a)
  }

  lemma SetCounts(m: State, r: int, v: int)
    ensures Machine.Set(m, r, v).accesses == m.accesses
  {
  }

  lemma AccessAgree(m: State, addr: int, s: Bus, t: Bus)
    requires AgreeBelow(s, t, Access(m, addr).accesses)
    ensures m.accesses <= Access(m, addr).accesses
    ensures Access(m, addr).ctl == Running ==> ByteAt(m, addr, s) == ByteAt(m, addr, t)
  {
  }

  lemma LaneAgree(m: State, r: int, addr: int, scale: int, s: Bus, t: Bus)
    ensures m.accesses <= LoadLane(m, r, addr, scale, s).accesses
    ensures AgreeBelow(s, t, LoadLane(m, r, addr, scale, s).accesses) ==>
      LoadLane(m, r, addr, scale, s) == LoadLane(m, r, addr, scale, t)
  {
    hide Machine.Set, Or, ByteAt, Access, Look, AgreeBelow;
    var l := Look(m, r);
    SetCounts(Access(l, addr), r, Or(Val(m, r), ByteAt(l, addr, s) * scale));
    LookCounts(m, r);
    AccessCounts(l, addr);
    if AgreeBelow(s, t, LoadLane(m, r, addr, scale, s).accesses) { AccessAgree(l, addr, s, t); }
    SetStopped(Access(l, addr), r);
  }

  lemma LookCounts(m: State, r: int)
    ensures Look(m, r).accesses == m.accesses
  {
  }

  lemma AccessCounts(m: State, a: int)
    ensures m.accesses <= Access(m, a).accesses
  {
  }

  lemma LoadAgree(m: State, r: int, addr: int, s: Bus, t: Bus)
    requires AgreeBelow(s, t, LoadWord(m, r, addr, s).accesses)
    ensures LoadWord(m, r, addr, s) == LoadWord(m, r, addr, t)
    ensures m.accesses <= LoadWord(m, r, addr, s).accesses
  {
    hide Machine.Set, ByteAt, Access, LoadLane, Trap;
    if addr + 3 > MAXVAL {
      TrapCounts(m, TRAP_ILL);
    } else {
      var v := ByteAt(m, addr, s) * 0x100_0000;
      var m1 := Machine.Set(Access(m, addr), r, v);
      var m2 := LoadLane(m1, r, addr + 1, 0x1_0000, s);
      var m3 := LoadLane(m2, r, addr + 2, 0x100, s);
      SetCounts(Access(m, addr), r, v);
      AccessCounts(m, addr);
      LaneAgree(m1, r, addr + 1, 0x1_0000, s, t);
      LaneAgree(m2, r, addr + 2, 0x100, s, t);
      LaneAgree(m3, r, addr + 3, 1, s, t);
      AccessAgree(m, addr, s, t);
      SetStopped(Access(m, addr), r);
    }
  }

  lemma TrapCounts(m: State, addr: int)
    ensures Trap(m, addr).accesses == m.accesses
  {
  }

  lemma FetchAgree(m: State, s: Bus, t: Bus)
    requires AgreeBelow(s, t, FetchWord(m, s).accesses)
    ensures FetchWord(m, s) == FetchWord(m, t)
  {
    hide Machine.Set, LoadWord;
    if m.ctl == Running && m.regs[PC] + 3 <= MAXVAL {
      var l := LoadWord(m, RSVD, m.regs[PC], s);
      SetCounts(l, PC, l.regs[PC] + 4);
      LoadAgree(m, RSVD, m.regs[PC], s, t);
    }
  }
}
