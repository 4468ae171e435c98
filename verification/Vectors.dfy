/** Word stores as whole words, and the installation of trap vectors. */
module Vectors {
  import opened Words
  import opened Status
  import opened Machine
  import opened Instructions
  import opened Invariants
  import opened Fetch
  import opened Runs

  /** A byte sequence with a word written into it. */
  function WithWord(s: seq<Byte>, i: int, w: int): (t: seq<Byte>)
    requires 0 <= i && i + 4 <= |s|
    ensures |t| == |s|
  {
    s[..i] + Packed(w) + s[i + 4..]
  }

  /** Which byte a lane of a word store writes. */
  lemma WithWordUpdates(s: seq<Byte>, i: int, w: int)
    requires 0 <= i && i + 4 <= |s|
    ensures WithWord(s, i, w) ==
      s[i := (w / 0x100_0000) % 256][i + 1 := (w / 0x1_0000) % 256][i + 2 := (w / 0x100) % 256][i + 3 := (w / 1) % 256]
  {
  }

  lemma VectorLane(m: State, r: int, i: int, scale: int)
    requires m.ctl == Running && !MmuOn(m) && !(IsPriv(r) && UserMode(m)) && 0 <= r < LAST
    requires 0 <= i < 4096 && scale > 0
    ensures SaveLane(m, r, VECTORS + i, scale) == m.(vectors := m.vectors[i := (m.regs[r] / scale) % 256])
  {
    hide HasBit;
  }

  /** A word stored into the vector page changes those four bytes and nothing else. */
  lemma VectorWord(m: State, r: int, i: int)
    requires m.ctl == Running && !MmuOn(m) && !(IsPriv(r) && UserMode(m)) && 0 <= r < LAST
    requires 0 <= i <= 4092
    ensures SaveWord(m, r, VECTORS + i) == m.(vectors := WithWord(m.vectors, i, m.regs[r]))
  {
    hide SaveLane, HasBit, IsPriv;
    var v := m.regs[r];
    VectorLane(m, r, i, 0x100_0000);
    var m1 := SaveLane(m, r, VECTORS + i, 0x100_0000);
    VectorLane(m1, r, i + 1, 0x1_0000);
    var m2 := SaveLane(m1, r, VECTORS + i + 1, 0x1_0000);
    VectorLane(m2, r, i + 2, 0x100);
    var m3 := SaveLane(m2, r, VECTORS + i + 2, 0x100);
    VectorLane(m3, r, i + 3, 1);
    WithWordUpdates(m.vectors, i, v);
  }

  lemma VectorWordI(m: State, v: int, i: int)
    requires m.ctl == Running && !MmuOn(m) && 0 <= i <= 4092
    ensures SaveWordI(m, v, VECTORS + i) ==
      m.(regs := m.regs[RSVD := v], vectors := WithWord(m.vectors, i, v))
  {
    hide SaveWord, HasBit;
    VectorWord(Put(m, RSVD, v), RSVD, i);
  }

  /** The vector page with the k-th entry replaced by a jump. */
  function WithJump(s: Vectors, k: nat, addr: int): Vectors
    requires k < 256
  {
    s[..16 * k] + Packed(0x19) + Packed(addr) + Packed(0) + Packed(0) + s[16 * k + 16..]
  }

  lemma WithJumpWords(s: Vectors, k: nat, addr: int)
    requires k < 256
    ensures var i := 16 * k;
      WithJump(s, k, addr) == WithWord(WithWord(WithWord(WithWord(s, i, 0x19), i + 4, addr), i + 8, 0), i + 12, 0)
  {
    hide Packed;
    var i, head := 16 * k, s[..16 * k];
    assert WithWord(s, i, 0x19) == head + Packed(0x19) + s[i + 4..];
    assert WithWord(head + Packed(0x19) + s[i + 4..], i + 4, addr) == head + Packed(0x19) + Packed(addr) + s[i + 8..];
    var both := head + Packed(0x19) + Packed(addr);
    assert WithWord(both + s[i + 8..], i + 8, 0) == both + Packed(0) + s[i + 12..];
    assert WithWord(both + Packed(0) + s[i + 12..], i + 12, 0) == both + Packed(0) + Packed(0) + s[i + 16..];
  }

  /** `strapr` with a number below 256 writes the jump into that vector and nothing else (bar the
      reserved register); with a larger one it halts the machine. */
  lemma Installed(m: State, r: int, addr: int)
    requires Ready(m) && !MmuOn(m) && 0 <= r < LAST && !(IsPriv(r) && UserMode(m)) && m.regs[r] >= 0
    ensures var n := InstallTrap(m, r, addr);
      if m.regs[r] < 256 then
        n == m.(regs := m.regs[RSVD := 0], vectors := WithJump(m.vectors, m.regs[r], addr))
      else n.ctl == Halted
  {
    hide SaveWordI, HasBit, IsPriv;
    var k := m.regs[r];
    var at := VECTORS + k * 16;
    var m1 := SaveWordI(m, 0x19, at);
    var m2 := SaveWordI(m1, addr, at + 4);
    var m3 := SaveWordI(m2, 0, at + 8);
    if k < 256 {
      VectorWordI(m, 0x19, 16 * k);
      VectorWordI(m1, addr, 16 * k + 4);
      VectorWordI(m2, 0, 16 * k + 8);
      VectorWordI(m3, 0, 16 * k + 12);
      WithJumpWords(m.vectors, k, addr);
      assert m.regs[RSVD := 0x19][RSVD := addr][RSVD := 0][RSVD := 0] == m.regs[RSVD := 0];
    } else {
      DoubleFault(m, 0x19, at, addr, at + 4);
      StoppedStore(m2, 0, at + 8);
      StoppedStore(m3, 0, at + 12);
    }
  }

  // -------- taking the vector --------

  /** A word of the vector page, as a fetch sees it. */
  lemma VectorWordAt(m: State, i: int, w: int, bus: Bus)
    requires 0 <= i <= 4092 && 0 <= w <= MAXVAL && m.vectors[i..i + 4] == Packed(w)
    ensures WordAt(m, VECTORS + i, bus) == w && WordMapped(m, VECTORS + i)
  {
    UnpackPacked(w);
    var p := m.vectors[i..i + 4];
    assert p[0] == m.vectors[i] && p[1] == m.vectors[i + 1] && p[2] == m.vectors[i + 2] && p[3] == m.vectors[i + 3];
  }

  predicate JumpAt(s: Vectors, k: nat, addr: int)
    requires k < 256
  {
    && s[16 * k..16 * k + 4] == Packed(0x19) && s[16 * k + 4..16 * k + 8] == Packed(addr)
    && s[16 * k + 8..16 * k + 12] == Packed(0) && s[16 * k + 12..16 * k + 16] == Packed(0)
  }

  lemma WithJumpAt(s: Vectors, k: nat, addr: int)
    requires k < 256
    ensures JumpAt(WithJump(s, k, addr), k, addr)
    ensures forall j :: 0 <= j < 256 && j != k ==>
      WithJump(s, k, addr)[16 * j..16 * j + 16] == s[16 * j..16 * j + 16]
  {
  }

  lemma JumpFetched(t: State, k: nat, addr: int, bus: Bus)
    requires k < 256 && 0 <= addr <= MAXVAL && JumpAt(t.vectors, k, addr)
    requires !MmuOn(t) && t.regs[PC] == VECTORS + 16 * k
    ensures Fetchable(t)
    ensures InstrWord(t, 0, bus) == 0x19 && InstrWord(t, 1, bus) == addr
    ensures InstrWord(t, 2, bus) == 0 && InstrWord(t, 3, bus) == 0
  {
    hide HasBit, WordAt, WordMapped;
    FetchedVector(t, k, 0, 0x19, bus);
    FetchedVector(t, k, 1, addr, bus);
    FetchedVector(t, k, 2, 0, bus);
    FetchedVector(t, k, 3, 0, bus);
  }

  lemma FetchedVector(t: State, k: nat, j: nat, w: int, bus: Bus)
    requires k < 256 && j < 4 && 0 <= w <= MAXVAL && t.regs[PC] == VECTORS + 16 * k && !MmuOn(t)
    requires t.vectors[16 * k + 4 * j..16 * k + 4 * j + 4] == Packed(w)
    ensures InstrWord(t, j, bus) == w && WordFetchable(t, j)
  {
    hide HasBit, WordAt, WordMapped;
    var s := t.(accesses := t.accesses + 4 * j);
    VectorWordAt(s, 16 * k + 4 * j, w, bus);
    MappedSame(s, t, VECTORS + 16 * k + 4 * j);
  }

  lemma JumpExecuted(f: State, addr: int, b: int, c: int, bus: Bus)
    requires Ready(f) && addr >= 0
    ensures Dispatch(f, 0x19, addr, b, c, bus) == f.(regs := f.regs[PC := addr])
  {
    hide HasBit, Trap, Decode, Dispatch, Jump, Ready;
    ReadyRuns(f);
    JumpOpcode();
    JumpPlain(f, addr);
    assert Execute(f, Jmp, addr, b, c, bus) == Jump(f, addr);
    DispatchQuiet(f, 0x19, addr, b, c, bus);
  }

  lemma JumpOpcode()
    ensures Decode(0x19) == Jmp
  {
  }

  lemma JumpPlain(f: State, addr: int)
    requires Ready(f) && addr >= 0
    ensures Jump(f, addr) == f.(regs := f.regs[PC := addr])
  {
    hide HasBit, Trap;
    SetPlain(f, PC, addr);
  }

  lemma TrapMmu(m: State)
    ensures HasBit(Push(m.regs[STATUS]), MMU_ENABLE) == MmuOn(m)
  {
    var s := m.regs[STATUS];
    PushSaves(s);
    var h := s / 64;
    assert s / 0x8000_0000 == h / 0x200_0000;
    assert Push(s) / 0x8000_0000 == Push(s) / 64 / 0x200_0000;
  }

  /** After `strapr k a`, a trap to vector k from fault count 0 and one step reach `a`; the other
      255 vectors are untouched. */
  lemma VectorTaken(m: State, r: int, addr: int, bus: Bus)
    requires Ready(m) && m.regs[FC] == 0 && !MmuOn(m) && 0 <= r < LAST
    requires !(IsPriv(r) && UserMode(m)) && 0 <= m.regs[r] < 256 && 0 <= addr <= MAXVAL
    ensures var k := m.regs[r]; var n := InstallTrap(m, r, addr);
      && Ready(n) && n.ram == m.ram && n.sent == m.sent
      && (forall j :: 0 <= j < 256 && j != k ==> n.vectors[16 * j..16 * j + 16] == m.vectors[16 * j..16 * j + 16])
      && var t := Step(Trap(n, VECTORS + 16 * k), bus);
         t.ctl == Running && t.regs[PC] == addr && t.regs[RET] == m.regs[PC] && t.vectors == n.vectors
  {
    hide InstallTrap, HasBit, Step, Trap, WithJump, JumpAt, Push, Fetchable, InstrWord, Dispatch, Fetching;
    var k := m.regs[r];
    Installed(m, r, addr);
    WithJumpAt(m.vectors, k, addr);
    var n := InstallTrap(m, r, addr);
    var t := Trap(n, VECTORS + 16 * k);
    TrapOnce(n, VECTORS + 16 * k);
    TrapAtZero(n, VECTORS + 16 * k);
    TrapMmu(n);
    JumpFetched(t, k, addr, bus);
    StepDecoded(t, bus);
    FetchingReady(t, bus);
    FetchingKeeps(t, bus);
    JumpExecuted(Fetching(t, 4, bus), addr, 0, 0, bus);
  }
}
