/** What the instructions that load, store and install vectors do, opcode by opcode, from their words in
    memory. */
module Transfers {
  import opened Words
  import opened Status
  import opened Machine
  import opened Instructions
  import opened Invariants
  import opened Fetch
  import opened Runs
  import opened Vectors
  import opened Meanings

  // -------- loads --------

  /** The byte at an address, as the k-th read of the step returns it. */
  function Heard(m: State, k: nat, a: int, bus: Bus): Byte {
    if 0xffff_f000 <= a <= 0xffff_ffff then m.vectors[a - 0xffff_f000]
    else if IsDevice(a) then bus(m.accesses + k, a)
    else if 0 <= a < |m.ram| then m.ram[a]
    else 0
  }

  /** The big-endian word there; the fetch made the first sixteen reads. */
  function HeardWord(m: State, a: int, bus: Bus): int {
    Heard(m, 16, a, bus) * 0x100_0000 + Heard(m, 17, a + 1, bus) * 0x1_0000
    + Heard(m, 18, a + 2, bus) * 0x100 + Heard(m, 19, a + 3, bus)
  }

  /** The address an operand means: itself, or what a register holds. */
  function Address(m: State, b: int, indirect: bool): int
    requires indirect ==> 0 <= b < RSVD
  {
    if indirect then Reads(m, b) else b
  }

  lemma HeardNth(m: State, f: State, i: nat, a: int, bus: Bus)
    requires f.accesses == m.accesses + 16 && f.vectors == m.vectors && f.ram == m.ram
    requires Mapped(m, a + i)
    ensures NthByte(f, i, a, bus) == Heard(m, 16 + i, a + i, bus)
  {
  }

  lemma HeardAt(m: State, f: State, a: int, bus: Bus)
    requires f.accesses == m.accesses + 16 && f.vectors == m.vectors && f.ram == m.ram && WordMapped(m, a)
    ensures WordAt(f, a, bus) == HeardWord(m, a, bus) && WordMapped(f, a)
  {
    hide NthByte, Heard;
    HeardNth(m, f, 0, a, bus);
    HeardNth(m, f, 1, a, bus);
    HeardNth(m, f, 2, a, bus);
    HeardNth(m, f, 3, a, bus);
    MappedSame(m, f, a);
  }

  lemma LoadsDecode()
    ensures Decode(0x02).LoadW? && Decode(0x06).LoadWR? && Decode(0x04).LoadB? && Decode(0x08).LoadBR?
  {
  }

  lemma LoadMeans(f: State, a: int, b: int, c: int, bus: Bus)
    ensures Execute(f, LoadW, a, b, c, bus) == LoadWord(f, a, b, bus)
    ensures Execute(f, LoadB, a, b, c, bus) == LoadByte(f, a, b, bus)
    ensures Execute(f, LoadWR, a, b, c, bus) == LoadWord(Look(f, b), a, Val(f, b), bus)
    ensures Execute(f, LoadBR, a, b, c, bus) == LoadByte(Look(f, b), a, Val(f, b), bus)
  {
    hide LoadWord, LoadByte, Look;
  }

  /** 0x02 `loadw` and 0x06 `loadwr`: the register gets the big-endian word of the four bytes at the
      address; past the top of the address space they trap to 0xfffff010. */
  lemma LoadWordStep(m: State, a: int, b: int, c: int, indirect: bool, bus: Bus)
    requires Ready(m) && b >= 0 && At(m, if indirect then 0x06 else 0x02, a, b, c, bus)
    requires Target(m, a) && (indirect ==> Source(m, b))
    ensures var addr := Address(m, b, indirect);
      addr + 3 <= 0xffff_ffff && WordMapped(m, addr) ==> Does(m, Step(m, bus), map[a := HeardWord(m, addr, bus)])
    ensures Address(m, b, indirect) + 3 > 0xffff_ffff ==> Enters(m, Step(m, bus), 0xffff_f010)
  {
    hide Step, HasBit, At, Decode, Execute, LoadWord, WordMapped, Push, WordAt, Heard;
    LoadsDecode();
    var addr := Address(m, b, indirect);
    var op := if indirect then LoadWR else LoadW;
    LoadAllowed(m, op, a, b, c);
    var f := Executed(m, if indirect then 0x06 else 0x02, a, b, c, bus, op);
    LoadMeans(f, a, b, c, bus);
    if addr + 3 > 0xffff_ffff {
      LoadOverflows(f, a, addr, bus);
      TrapEntered(m, f, f, TRAP_ILL);
    } else if WordMapped(m, addr) {
      LoadWordPlain(f, a, addr, bus);
      HeardAt(m, f, addr, bus);
    }
  }

  lemma LoadAllowed(m: State, op: Op, a: int, b: int, c: int)
    requires Source(m, a)
    ensures op.LoadW? || op.LoadB? ==> !BadOperands(op, a, b, c)
    ensures (op.LoadWR? || op.LoadBR?) && Source(m, b) ==> !BadOperands(op, a, b, c)
  {
  }

  lemma LoadOverflows(f: State, a: int, addr: int, bus: Bus)
    requires Ready(f) && addr + 3 > 0xffff_ffff
    ensures LoadWord(f, a, addr, bus) == Trap(f, TRAP_ILL) && Trap(f, TRAP_ILL).ctl != Privileged
  {
    hide Push;
  }

  /** 0x04 `loadb` and 0x08 `loadbr`: the register gets the byte at the address. */
  lemma LoadByteStep(m: State, a: int, b: int, c: int, indirect: bool, bus: Bus)
    requires Ready(m) && b >= 0 && At(m, if indirect then 0x08 else 0x04, a, b, c, bus)
    requires Target(m, a) && (indirect ==> Source(m, b)) && Mapped(m, Address(m, b, indirect))
    ensures Does(m, Step(m, bus), map[a := Heard(m, 16, Address(m, b, indirect), bus) as int])
  {
    hide Step, HasBit, At, Decode, Execute, LoadByte, Mapped, Heard;
    LoadsDecode();
    var addr := Address(m, b, indirect);
    var op := if indirect then LoadBR else LoadB;
    LoadAllowed(m, op, a, b, c);
    var f := Executed(m, if indirect then 0x08 else 0x04, a, b, c, bus, op);
    LoadMeans(f, a, b, c, bus);
    ByteLoaded(m, f, a, addr, bus);
  }

  lemma ByteLoaded(m: State, f: State, a: int, addr: int, bus: Bus)
    requires Ready(f) && !MmuOn(f) && Target(f, a) && Mapped(m, addr)
    requires f.accesses == m.accesses + 16 && f.vectors == m.vectors && f.ram == m.ram
    ensures LoadByte(f, a, addr, bus) ==
      f.(regs := f.regs[a := Heard(m, 16, addr, bus) as int], accesses := f.accesses + 1)
  {
    hide HasBit, Set;
    SetTarget(f.(accesses := f.accesses + 1), a, Heard(m, 16, addr, bus) as int);
  }

  // -------- stores --------

  /** The bytes of a stretch that go to devices, in order. */
  function ToDevices(addr: int, bs: seq<Byte>): seq<(int, Byte)> {
    if |bs| == 0 then []
    else
      var k := |bs| - 1;
      ToDevices(addr, bs[..k]) + if IsDevice(addr + k) then [(addr + k, bs[k])] else []
  }

  /** The bytes stand at the address, in RAM and in the vectors, what is for devices was sent, and all
      else is as it was. */
  predicate StoredBytes(m: State, n: State, addr: int, bs: seq<Byte>) {
    && |n.ram| == |m.ram|
    && (forall a :: 0 <= a < |m.ram| ==>
          n.ram[a] == if addr <= a < addr + |bs| && IsRam(m, a) then bs[a - addr] else m.ram[a])
    && (forall i :: 0 <= i < 4096 ==>
          n.vectors[i] == if addr <= 0xffff_f000 + i < addr + |bs| then bs[0xffff_f000 + i - addr] else m.vectors[i])
    && n.sent == m.sent + ToDevices(addr, bs)
  }

  /** Something behind every byte. */
  predicate AllMapped(m: State, addr: int, k: nat) { forall a :: addr <= a < addr + k ==> Mapped(m, a) }

  function StoreAll(m: State, addr: int, bs: seq<Byte>): State {
    if |bs| == 0 then m else StoreByte(StoreAll(m, addr, bs[..|bs| - 1]), addr + |bs| - 1, bs[|bs| - 1])
  }

  lemma StoreOne(m: State, k: State, addr: int, bs: seq<Byte>, v: Byte)
    requires StoredBytes(m, k, addr, bs) && k.ctl == Running && !MmuOn(k) && Mapped(m, addr + |bs|)
    ensures var n := StoreByte(k, addr + |bs|, v);
      StoredBytes(m, n, addr, bs + [v]) && n == k.(ram := n.ram, vectors := n.vectors, sent := n.sent)
  {
    hide HasBit;
    assert (bs + [v])[..|bs|] == bs;
  }

  lemma {:induction false} StoredAll(m: State, addr: int, bs: seq<Byte>)
    requires m.ctl == Running && !MmuOn(m) && AllMapped(m, addr, |bs|)
    ensures var n := StoreAll(m, addr, bs);
      StoredBytes(m, n, addr, bs) && n == m.(ram := n.ram, vectors := n.vectors, sent := n.sent)
  {
    hide HasBit, StoredBytes, StoreByte, Mapped;
    if |bs| == 0 {
      NothingStored(m, addr);
      assert bs == [];
    } else {
      var k := |bs| - 1;
      StoredAll(m, addr, bs[..k]);
      assert Mapped(m, addr + k);
      StoreOne(m, StoreAll(m, addr, bs[..k]), addr, bs[..k], bs[k]);
      assert bs[..k] + [bs[k]] == bs;
    }
  }

  lemma NothingStored(m: State, addr: int)
    ensures StoredBytes(m, m, addr, [])
  {
  }

  lemma LaneStored(m: State, r: int, addr: int, scale: int)
    requires m.ctl == Running && Look(m, r) == m && scale > 0
    ensures SaveLane(m, r, addr, scale) == StoreByte(m, addr, (Val(m, r) / scale) % 256)
  {
    hide StoreByte, Look;
  }

  lemma SameLook(m: State, n: State, r: int)
    requires Look(m, r) == m && m.ctl == Running && n == m.(ram := n.ram, vectors := n.vectors, sent := n.sent)
    ensures Look(n, r) == n && Val(n, r) == Val(m, r) && n.ctl == Running && MmuOn(n) == MmuOn(m)
  {
    hide HasBit;
  }

  /** A word store is the stores of its four bytes, most significant first. */
  lemma WordStored(m: State, r: int, addr: int)
    requires m.ctl == Running && !MmuOn(m) && Look(m, r) == m && addr + 3 <= MAXVAL && AllMapped(m, addr, 4)
    ensures SaveWord(m, r, addr) == StoreAll(m, addr, Packed(Val(m, r)))
  {
    hide SaveLane, StoreByte, Look, HasBit, Mapped;
    var p := Packed(Val(m, r));
    var m1, m2, m3 := StoreAll(m, addr, p[..1]), StoreAll(m, addr, p[..2]), StoreAll(m, addr, p[..3]);
    assert p[..1][..0] == [] && p[..2][..1] == p[..1] && p[..3][..2] == p[..2];
    assert StoreAll(m, addr, []) == m;
    FourMapped(m, addr);
    StoredAll(m, addr, p[..1]);
    StoredAll(m, addr, p[..2]);
    StoredAll(m, addr, p[..3]);
    SameLook(m, m1, r);
    SameLook(m, m2, r);
    SameLook(m, m3, r);
    LaneStored(m, r, addr, 0x100_0000);
    LaneStored(m1, r, addr + 1, 0x1_0000);
    LaneStored(m2, r, addr + 2, 0x100);
    LaneStored(m3, r, addr + 3, 1);
  }

  lemma FourMapped(m: State, addr: int)
    requires AllMapped(m, addr, 4)
    ensures AllMapped(m, addr, 1) && AllMapped(m, addr, 2) && AllMapped(m, addr, 3)
  {
    hide Mapped;
  }

  lemma StoresDecode()
    ensures Decode(0x01).SaveW? && Decode(0x05).SaveWR? && Decode(0x09).SaveWI? && Decode(0x0d).SaveWRI?
    ensures Decode(0x03).SaveB? && Decode(0x07).SaveBR? && Decode(0x0b).SaveBI? && Decode(0x0e).SaveBRI?
  {
  }

  /** The stored value: a register or the word itself. */
  function Value(m: State, a: int, imm: bool): int
    requires !imm ==> 0 <= a < RSVD
  {
    if imm then a else Reads(m, a)
  }

  function StoreOp(word: bool, imm: bool, indirect: bool): Op {
    if word then
      if imm then (if indirect then SaveWRI else SaveWI) else if indirect then SaveWR else SaveW
    else
      if imm then (if indirect then SaveBRI else SaveBI) else if indirect then SaveBR else SaveB
  }

  function StoreOpcode(word: bool, imm: bool, indirect: bool): int {
    if word then
      if imm then (if indirect then 0x0d else 0x09) else if indirect then 0x05 else 0x01
    else
      if imm then (if indirect then 0x0e else 0x0b) else if indirect then 0x07 else 0x03
  }

  lemma StoreMeans(f: State, word: bool, imm: bool, indirect: bool, a: int, b: int, c: int, bus: Bus)
    requires indirect ==> Look(f, b) == f
    ensures var addr := if indirect then Val(f, b) else b;
      var g, r := if imm then Put(f, RSVD, a) else f, if imm then RSVD else a;
      Execute(f, StoreOp(word, imm, indirect), a, b, c, bus)
      == if word then SaveWord(g, r, addr) else SaveByte(g, r, addr)
  {
    hide SaveWord, SaveByte, Put, Look;
  }

  lemma StoreAllowed(m: State, word: bool, imm: bool, indirect: bool, a: int, b: int, c: int)
    requires (!imm ==> Source(m, a)) && (indirect ==> Source(m, b))
    ensures !BadOperands(StoreOp(word, imm, indirect), a, b, c)
  {
  }

  /** The machine about to store, and the register the value is in. */
  lemma StorePrepared(m: State, f: State, a: int, imm: bool)
    requires f.ctl == Running && !MmuOn(f) && (!imm ==> 0 <= a < RSVD && Look(f, a) == f && Val(f, a) == Reads(m, a))
    ensures var g, r := if imm then Put(f, RSVD, a) else f, if imm then RSVD else a;
      && g == f.(regs := g.regs) && (forall x :: 0 <= x < RSVD ==> g.regs[x] == f.regs[x])
      && Look(g, r) == g && Val(g, r) == Value(m, a, imm) && !MmuOn(g)
  {
    hide HasBit;
  }

  /** The bytes a store writes. */
  function Bytes(word: bool, v: int): seq<Byte> { if word then Packed(v) else [v % 256] }

  /** 0x01 `savew`, 0x05 `savewr`, 0x09 `savewi`, 0x0d `savewri` and the byte stores 0x03 `saveb`, 0x07
      `savebr`, 0x0b `savebi`, 0x0e `savebri`: the bytes of the value stand at the address, all others
      are as they were, and so is every register. */
  lemma StoreStep(m: State, word: bool, imm: bool, indirect: bool, a: int, b: int, c: int, bus: Bus)
    requires Ready(m) && a >= 0 && b >= 0 && At(m, StoreOpcode(word, imm, indirect), a, b, c, bus)
    requires (!imm ==> Source(m, a)) && (indirect ==> Source(m, b))
    ensures var addr, bs := Address(m, b, indirect), Bytes(word, Value(m, a, imm));
      (word ==> addr + 3 <= 0xffff_ffff) && AllMapped(m, addr, |bs|) ==>
        Sets(m, Step(m, bus), map[]) && StoredBytes(m, Step(m, bus), addr, bs)
    ensures word && Address(m, b, indirect) + 3 > 0xffff_ffff ==> Enters(m, Step(m, bus), 0xffff_f010)
  {
    hide Step, HasBit, At, Decode, Execute, SaveWord, SaveByte, Look, Push, StoredBytes, Put, Packed, StoreOp, StoreAll,
         BadOperands, Mapped;
    StoresDecode();
    StoreOpcodes(word, imm, indirect);
    StoreAllowed(m, word, imm, indirect, a, b, c);
    var f := Executed(m, StoreOpcode(word, imm, indirect), a, b, c, bus, StoreOp(word, imm, indirect));
    StoreMeans(f, word, imm, indirect, a, b, c, bus);
    StorePrepared(m, f, a, imm);
    var g, r := if imm then Put(f, RSVD, a) else f, if imm then RSVD else a;
    var addr, bs := Address(m, b, indirect), Bytes(word, Value(m, a, imm));
    if word && addr + 3 > 0xffff_ffff {
      StoreOverflows(g, r, addr);
      PreparedTraps(m, f, g);
    } else if AllMapped(m, addr, |bs|) {
      SameMapped(m, g, addr, |bs|);
      StoredAll(g, addr, bs);
      if word { WordStored(g, r, addr); } else { ByteStored(g, r, addr); }
      StoredFrom(m, f, g, StoreAll(g, addr, bs), addr, bs);
    }
  }

  lemma StoreOpcodes(word: bool, imm: bool, indirect: bool)
    ensures 0 <= StoreOpcode(word, imm, indirect) < OPCODES
    ensures Decode(StoreOpcode(word, imm, indirect)) == StoreOp(word, imm, indirect)
  {
    hide Decode;
    StoresDecode();
  }

  lemma StoreOverflows(g: State, r: int, addr: int)
    requires g.ctl == Running && addr + 3 > 0xffff_ffff
    ensures SaveWord(g, r, addr) == Trap(g, TRAP_ILL) && Trap(g, TRAP_ILL).ctl != Privileged
  {
    hide Push;
  }

  lemma PreparedTraps(m: State, f: State, g: State)
    requires Ready(m) && Ready(f) && f == m.(regs := f.regs, accesses := f.accesses)
    requires forall x :: 0 <= x < RSVD ==> f.regs[x] == if x == PC then m.regs[PC] + 16 else m.regs[x]
    requires g == f.(regs := g.regs) && forall x :: 0 <= x < RSVD ==> g.regs[x] == f.regs[x]
    ensures Enters(m, Trap(g, TRAP_ILL), 0xffff_f010)
  {
    hide HasBit, Push;
    TrapEntered(m, f, g, TRAP_ILL);
  }

  lemma SameMapped(m: State, g: State, addr: int, k: nat)
    requires m.ram == g.ram && AllMapped(m, addr, k)
    ensures AllMapped(g, addr, k)
  {
    forall a | addr <= a < addr + k ensures Mapped(g, a) { assert Mapped(m, a); }
  }

  lemma ByteStored(g: State, r: int, addr: int)
    requires g.ctl == Running && Look(g, r) == g
    ensures SaveByte(g, r, addr) == StoreAll(g, addr, [Val(g, r) % 256])
  {
    hide StoreByte, Look;
    assert [Val(g, r) % 256][..0] == [];
    assert StoreAll(g, addr, []) == g;
  }

  lemma StoredFrom(m: State, f: State, g: State, n: State, addr: int, bs: seq<Byte>)
    requires m.ctl == Running && f == m.(regs := f.regs, accesses := f.accesses)
    requires forall x :: 0 <= x < RSVD ==> f.regs[x] == if x == PC then m.regs[PC] + 16 else m.regs[x]
    requires g == f.(regs := g.regs) && forall x :: 0 <= x < RSVD ==> g.regs[x] == f.regs[x]
    requires n == g.(ram := n.ram, vectors := n.vectors, sent := n.sent) && StoredBytes(g, n, addr, bs)
    ensures StoredBytes(m, n, addr, bs) && Sets(m, n, map[]) && n.ctl != Privileged
  {
  }

  /** A word stored and then loaded from the same place, which is not a device's, comes back. */
  lemma StoreThenLoad(m: State, a: int, d: int, addr: int, first: Bus, second: Bus)
    requires Ready(m) && addr >= 0 && At(m, 0x01, a, addr, 0, first) && Source(m, a) && Word(Reads(m, a))
    requires addr + 3 <= 0xffff_ffff && AllMapped(m, addr, 4) && forall x :: addr <= x < addr + 4 ==> !IsDevice(x)
    requires Ready(Step(m, first)) && At(Step(m, first), 0x02, d, addr, 0, second) && Target(Step(m, first), d)
    ensures Step(Step(m, first), second).regs[d] == Reads(m, a)
  {
    hide Step, At, HasBit, Packed, StoredBytes, IsDevice, Mapped;
    var v := Reads(m, a);
    var n := Step(m, first);
    StoreStep(m, true, false, false, a, addr, 0, first);
    assert StoredBytes(m, n, addr, Packed(v));
    HeardBack(m, n, addr, Packed(v), second);
    UnpackPacked(v);
    LoadWordStep(n, d, addr, 0, false, second);
  }

  lemma HeardBack(m: State, n: State, addr: int, bs: seq<Byte>, bus: Bus)
    requires addr >= 0 && |bs| == 4 && StoredBytes(m, n, addr, bs) && AllMapped(m, addr, 4)
    requires forall x :: addr <= x < addr + 4 ==> !IsDevice(x)
    ensures HeardWord(n, addr, bus) == Unpacked(bs[0], bs[1], bs[2], bs[3]) && WordMapped(n, addr)
  {
    HeardByteBack(m, n, addr, bs, 0, bus);
    HeardByteBack(m, n, addr, bs, 1, bus);
    HeardByteBack(m, n, addr, bs, 2, bus);
    HeardByteBack(m, n, addr, bs, 3, bus);
  }

  lemma HeardByteBack(m: State, n: State, addr: int, bs: seq<Byte>, i: nat, bus: Bus)
    requires addr >= 0 && i < |bs| && StoredBytes(m, n, addr, bs) && Mapped(m, addr + i) && !IsDevice(addr + i)
    ensures Heard(n, 16 + i, addr + i, bus) == bs[i] && Mapped(n, addr + i)
  {
    hide IsDevice;
  }

  // -------- vectors --------

  lemma StrapsDecode()
    ensures Decode(0x45).StrapR? && Decode(0x46).StrapI?
  {
  }

  lemma StrapMeans(f: State, a: int, b: int, c: int, bus: Bus)
    ensures Execute(f, StrapR, a, b, c, bus) == InstallTrap(f, a, b)
    ensures Execute(f, StrapI, a, b, c, bus) == InstallTrap(Put(f, RSVD, a), RSVD, b)
  {
    hide InstallTrap, Put;
  }

  /** 0x45 `strapr` and 0x46 `strapi`: the slot numbered holds a jump to the address, the other vector
      bytes, RAM and every register are as they were; and whenever a trap to that slot is entered with
      the vectors so, one step reaches the address.  A number of 256 or more ends the machine. */
  lemma StrapStep(m: State, a: int, b: int, c: int, imm: bool, bus: Bus)
    requires Ready(m) && a >= 0 && At(m, if imm then 0x46 else 0x45, a, b, c, bus) && (!imm ==> Source(m, a))
    ensures Value(m, a, imm) < 256 ==> var k, n := Value(m, a, imm), Step(m, bus);
      && Sets(m, n, map[]) && n.ram == m.ram && n.sent == m.sent
      && n.vectors[16 * k..16 * k + 16] == Packed(0x19) + Packed(b) + Packed(0) + Packed(0)
      && (forall i :: 0 <= i < 4096 && !(16 * k <= i < 16 * k + 16) ==> n.vectors[i] == m.vectors[i])
    ensures Value(m, a, imm) >= 256 ==> Step(m, bus).ctl == Halted
  {
    hide Step, HasBit, At, Decode, Execute, InstallTrap, Look, Packed, Put, WithJump;
    StrapsDecode();
    var op := if imm then StrapI else StrapR;
    var f := Executed(m, if imm then 0x46 else 0x45, a, b, c, bus, op);
    StrapMeans(f, a, b, c, bus);
    StorePrepared(m, f, a, imm);
    var g, r := if imm then Put(f, RSVD, a) else f, if imm then RSVD else a;
    PreparedReady(f, g, r, a, imm);
    Installed(g, r, b);
    if Value(m, a, imm) < 256 { StrapDone(m, f, g, Value(m, a, imm), b); }
  }

  lemma StrapDone(m: State, f: State, g: State, k: nat, addr: int)
    requires k < 256 && m.ctl == Running && f == m.(regs := f.regs, accesses := f.accesses)
    requires forall x :: 0 <= x < RSVD ==> f.regs[x] == if x == PC then m.regs[PC] + 16 else m.regs[x]
    requires g == f.(regs := g.regs) && forall x :: 0 <= x < RSVD ==> g.regs[x] == f.regs[x]
    ensures var n := g.(regs := g.regs[RSVD := 0], vectors := WithJump(g.vectors, k, addr));
      && Sets(m, n, map[]) && n.ram == m.ram && n.sent == m.sent
      && n.vectors[16 * k..16 * k + 16] == Packed(0x19) + Packed(addr) + Packed(0) + Packed(0)
      && (forall i :: 0 <= i < 4096 && !(16 * k <= i < 16 * k + 16) ==> n.vectors[i] == m.vectors[i])
  {
    hide Packed, WithJump;
    JumpWritten(m.vectors, k, addr);
  }

  lemma PreparedReady(f: State, g: State, r: int, a: int, imm: bool)
    requires Ready(f) && a >= 0 && g == (if imm then Put(f, RSVD, a) else f) && r == (if imm then RSVD else a)
    requires !imm ==> Source(f, a)
    ensures Ready(g) && 0 <= r < LAST && g.regs[r] == Val(g, r) >= 0 && !(IsPriv(r) && UserMode(g))
  {
    hide HasBit;
  }

  lemma JumpWritten(s: Machine.Vectors, k: nat, addr: int)
    requires k < 256
    ensures var t := WithJump(s, k, addr);
      && t[16 * k..16 * k + 16] == Packed(0x19) + Packed(addr) + Packed(0) + Packed(0)
      && (forall i :: 0 <= i < 4096 && !(16 * k <= i < 16 * k + 16) ==> t[i] == s[i])
  {
    hide Packed;
    var jump := Packed(0x19) + Packed(addr) + Packed(0) + Packed(0);
    assert WithJump(s, k, addr) == s[..16 * k] + jump + s[16 * k + 16..];
  }

  /** After an executed `strapr` or `strapi` a trap to that slot, from any later state with the vectors
      as they were left, reaches the address in one step. */
  lemma StrapTaken(m: State, a: int, b: int, c: int, imm: bool, bus: Bus, t: State, later: Bus)
    requires Ready(m) && a >= 0 && At(m, if imm then 0x46 else 0x45, a, b, c, bus) && (!imm ==> Source(m, a))
    requires Value(m, a, imm) < 256 && Ready(t) && !MmuOn(t) && t.regs[FC] == 0 && t.vectors == Step(m, bus).vectors
    ensures var r := Step(Trap(t, 0xffff_f000 + 16 * Value(m, a, imm)), later);
      r.ctl == Running && r.regs[PC] == b && r.regs[RET] == t.regs[PC]
  {
    hide Step, HasBit, At, Packed, Trap, Push, Fetching, Dispatch;
    var k := Value(m, a, imm);
    StrapStep(m, a, b, c, imm, bus);
    SlotJumps(t.vectors, k, b);
    WordOperand(m, if imm then 0x46 else 0x45, a, b, c, bus);
    SlotEntered(t, k, b, later);
  }

  lemma WordOperand(m: State, o: int, a: int, b: int, c: int, bus: Bus)
    requires At(m, o, a, b, c, bus)
    ensures Word(a) && Word(b) && Word(c)
  {
    hide InstrWord, WordFetchable;
  }

  lemma SlotJumps(s: Machine.Vectors, k: nat, addr: int)
    requires k < 256 && s[16 * k..16 * k + 16] == Packed(0x19) + Packed(addr) + Packed(0) + Packed(0)
    ensures JumpAt(s, k, addr)
  {
    hide Packed;
    var x := s[16 * k..16 * k + 16];
    Quarter(s, 16 * k, 0);
    Quarter(s, 16 * k, 4);
    Quarter(s, 16 * k, 8);
    Quarter(s, 16 * k, 12);
    assert x[0..4] == Packed(0x19) && x[4..8] == Packed(addr) && x[8..12] == Packed(0) && x[12..16] == Packed(0);
  }

  lemma Quarter(s: seq<Byte>, at: nat, i: nat)
    requires at + 16 <= |s| && i + 4 <= 16
    ensures s[at..at + 16][i..i + 4] == s[at + i..at + i + 4]
  {
    var part := s[at..at + 16][i..i + 4];
    assert forall x :: 0 <= x < 4 ==> part[x] == s[at + i + x];
  }

  lemma SlotEntered(t: State, k: nat, addr: int, bus: Bus)
    requires Ready(t) && !MmuOn(t) && t.regs[FC] == 0 && k < 256 && Word(addr) && JumpAt(t.vectors, k, addr)
    ensures var r := Step(Trap(t, VECTORS + 16 * k), bus);
      r.ctl == Running && r.regs[PC] == addr && r.regs[RET] == t.regs[PC]
  {
    hide Step, HasBit, Push, JumpAt, Fetchable, InstrWord, Dispatch, Fetching, Trap;
    var u := Trap(t, VECTORS + 16 * k);
    TrapOnce(t, VECTORS + 16 * k);
    TrapAtZero(t, VECTORS + 16 * k);
    TrapMmu(t);
    JumpFetched(u, k, addr, bus);
    StepDecoded(u, bus);
    FetchingReady(u, bus);
    FetchingKeeps(u, bus);
    JumpExecuted(Fetching(u, 4, bus), addr, 0, 0, bus);
  }
}
