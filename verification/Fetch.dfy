/** What a fetch does at an instruction boundary, and the machine invariant over whole runs. */
module Fetch {
  import opened Words
  import opened Status
  import opened Machine
  import opened Instructions
  import opened Invariants

  /** The byte the i-th of a group of accesses returns. */
  function NthByte(m: State, i: nat, addr: int, bus: Bus): Byte {
    ByteAt(m.(accesses := m.accesses + i), addr + i, bus)
  }

  /** The word four byte reads return, most significant byte first. */
  function WordAt(m: State, addr: int, bus: Bus): (w: int)
    ensures 0 <= w <= MAXVAL
  {
    Unpacked(NthByte(m, 0, addr, bus), NthByte(m, 1, addr, bus), NthByte(m, 2, addr, bus), NthByte(m, 3, addr, bus))
  }

  predicate WordMapped(m: State, addr: int) {
    Mapped(m, addr) && Mapped(m, addr + 1) && Mapped(m, addr + 2) && Mapped(m, addr + 3)
  }

  /** The registers a word load writes without any further effect: not STATUS, whose every lane may
      fire an interrupt, and none the mode forbids. */
  predicate Plain(m: State, r: int) {
    0 <= r < LAST && r != STATUS && !(IsPriv(r) && UserMode(m))
  }

  predicate Readable(m: State, addr: int) { !MmuOn(m) && Mapped(m, addr) }

  /** A lane of a word load, in a quiet machine. */
  lemma LanePlain(m: State, r: int, addr: int, scale: int, bus: Bus)
    requires Ready(m) && Plain(m, r)
    ensures var n := LoadLane(m, r, addr, scale, bus);
      if Readable(m, addr) then
        n == m.(regs := m.regs[r := Or(m.regs[r], ByteAt(m, addr, bus) * scale)], accesses := m.accesses + 1)
      else Ended(n)
  {
    hide HasBit, Or, Trap, ByteAt, Mapped;
    var l := Access(Look(m, r), addr);
    SetPlain(l, r, Or(Val(m, r), ByteAt(m, addr, bus) * scale));
  }

  lemma LaneStopped(m: State, r: int, addr: int, scale: int, bus: Bus)
    ensures m.ctl != Running ==> LoadLane(m, r, addr, scale, bus) == m
  {
  }

  lemma FirstPlain(m: State, r: int, addr: int, bus: Bus)
    requires Ready(m) && Plain(m, r)
    ensures var n := Set(Access(m, addr), r, ByteAt(m, addr, bus) * 0x100_0000);
      if Readable(m, addr) then
        n == m.(regs := m.regs[r := ByteAt(m, addr, bus) * 0x100_0000], accesses := m.accesses + 1)
      else Ended(n)
  {
    hide HasBit, Trap, ByteAt, Mapped;
    var l := Access(m, addr);
    SetPlain(l, r, ByteAt(m, addr, bus) * 0x100_0000);
  }

  /** A state of a word load under way: the same machine but for the target and the count. */
  function Loading(m: State, r: int, v: int, i: nat): State
    requires 0 <= r < LAST
  {
    m.(regs := m.regs[r := v], accesses := m.accesses + i)
  }

  lemma LoadingPlain(m: State, r: int, v: int, i: nat, addr: int, bus: Bus)
    requires Ready(m) && Plain(m, r) && v >= 0 && r != FC
    ensures Ready(Loading(m, r, v, i)) && Plain(Loading(m, r, v, i), r)
    ensures Readable(Loading(m, r, v, i), addr) == Readable(m, addr)
    ensures ByteAt(Loading(m, r, v, i), addr + i, bus) == NthByte(m, i, addr, bus)
  {
    hide HasBit;
  }

  /** A word load in a quiet machine puts the big-endian word into the register and does nothing
      else; if any of the four bytes cannot be read, the run ends there. */
  lemma LoadWordPlain(m: State, r: int, addr: int, bus: Bus)
    requires Ready(m) && Plain(m, r) && addr + 3 <= MAXVAL && r != FC
    ensures var n := LoadWord(m, r, addr, bus);
      if !MmuOn(m) && WordMapped(m, addr) then
        n == m.(regs := m.regs[r := WordAt(m, addr, bus)], accesses := m.accesses + 4)
      else Ended(n)
  {
    hide LoadLane, Set, Access, Or, Ready, Plain, Mapped, MmuOn, ByteAt, NthByte;
    var b0: int, b1: int := NthByte(m, 0, addr, bus), NthByte(m, 1, addr, bus);
    var b2: int, b3: int := NthByte(m, 2, addr, bus), NthByte(m, 3, addr, bus);
    var m1 := Set(Access(m, addr), r, ByteAt(m, addr, bus) * 0x100_0000);
    FirstPlain(m, r, addr, bus);
    FirstByte(m, addr, bus);
    var m2 := LoadLane(m1, r, addr + 1, 0x1_0000, bus);
    var v1: int := b0 * 0x100_0000;
    var v2: int := Or(v1, b1 * 0x1_0000);
    var m3 := LoadLane(m2, r, addr + 2, 0x100, bus);
    var v3: int := Or(v2, b2 * 0x100);
    LaneStopped(m1, r, addr + 1, 0x1_0000, bus);
    LaneStopped(m2, r, addr + 2, 0x100, bus);
    LaneStopped(m3, r, addr + 3, 1, bus);
    if Readable(m, addr) {
      NextLane(m, r, v1, 1, addr, 0x1_0000, bus);
      if Readable(m, addr + 1) {
        NextLane(m, r, v2, 2, addr, 0x100, bus);
        if Readable(m, addr + 2) {
          NextLane(m, r, v3, 3, addr, 1, bus);
          OrWord(NthByte(m, 0, addr, bus), NthByte(m, 1, addr, bus), NthByte(m, 2, addr, bus), NthByte(m, 3, addr, bus));
        }
      }
    }
  }

  lemma FirstByte(m: State, addr: int, bus: Bus)
    ensures ByteAt(m, addr, bus) == NthByte(m, 0, addr, bus)
  {
    assert m.(accesses := m.accesses + 0) == m;
  }

  lemma NextLane(m: State, r: int, v: int, i: nat, addr: int, scale: int, bus: Bus)
    requires Ready(m) && Plain(m, r) && v >= 0 && r != FC
    ensures var n := LoadLane(Loading(m, r, v, i), r, addr + i, scale, bus);
      if Readable(m, addr + i) then n == Loading(m, r, Or(v, NthByte(m, i, addr, bus) * scale), i + 1)
      else Ended(n)
  {
    hide LoadLane, Or, HasBit;
    LoadingPlain(m, r, v, i, addr + i, bus);
    LoadingPlain(m, r, v, i, addr, bus);
    LanePlain(Loading(m, r, v, i), r, addr + i, scale, bus);
    var w := Or(v, NthByte(m, i, addr, bus) * scale);
    assert m.regs[r := v][r := w] == m.regs[r := w];
  }

  // -------- the four words of an instruction --------

  /** The k-th word of the instruction at PC. */
  function InstrWord(m: State, k: nat, bus: Bus): (w: int)
    ensures 0 <= w <= MAXVAL
  {
    WordAt(m.(accesses := m.accesses + 4 * k), m.regs[PC] + 4 * k, bus)
  }

  predicate WordFetchable(m: State, k: nat) {
    m.regs[PC] + 4 * k + 3 <= MAXVAL && !MmuOn(m) && WordMapped(m, m.regs[PC] + 4 * k)
  }

  predicate Fetchable(m: State) {
    WordFetchable(m, 0) && WordFetchable(m, 1) && WordFetchable(m, 2) && WordFetchable(m, 3)
  }

  /** The machine when k words have been fetched: PC has moved and the reserved register holds the
      last word. */
  function Fetching(m: State, k: nat, bus: Bus): State {
    if k == 0 then m
    else m.(regs := m.regs[RSVD := InstrWord(m, k - 1, bus)][PC := m.regs[PC] + 4 * k],
            accesses := m.accesses + 4 * k)
  }

  lemma FetchWordPlain(m: State, bus: Bus)
    requires Ready(m)
    ensures var n := FetchWord(m, bus);
      if WordFetchable(m, 0) then
        n == m.(regs := m.regs[RSVD := WordAt(m, m.regs[PC], bus)][PC := m.regs[PC] + 4],
                accesses := m.accesses + 4)
      else Ended(n)
  {
    hide LoadWord, WordAt, HasBit, Trap, WordMapped;
    var pc := m.regs[PC];
    if pc + 3 <= MAXVAL {
      LoadWordPlain(m, RSVD, pc, bus);
      var l := LoadWord(m, RSVD, pc, bus);
      if l.ctl == Running { SetPlain(l, PC, l.regs[PC] + 4); }
      SetStopped(l, PC);
    }
  }

  lemma WordAtSame(m: State, n: State, addr: int, bus: Bus)
    requires m.ram == n.ram && m.vectors == n.vectors && m.accesses == n.accesses
    ensures WordAt(m, addr, bus) == WordAt(n, addr, bus)
    ensures WordMapped(m, addr) == WordMapped(n, addr)
  {
  }

  lemma FetchedPlain(m: State, k: nat, bus: Bus)
    requires Ready(m) && k <= 3
    ensures Ready(Fetching(m, k, bus))
    ensures var n := FetchWord(Fetching(m, k, bus), bus);
      if WordFetchable(m, k) then n == Fetching(m, k + 1, bus) else Ended(n)
  {
    hide FetchWord, WordAt, HasBit, WordMapped;
    var f := Fetching(m, k, bus);
    FetchWordPlain(f, bus);
    var base := m.(accesses := m.accesses + 4 * k);
    WordAtSame(f, base, m.regs[PC] + 4 * k, bus);
    WordAtSame(m, f.(accesses := m.accesses), m.regs[PC] + 4 * k, bus);
    WordAtSame(f, m.(accesses := f.accesses), m.regs[PC] + 4 * k, bus);
    MappedSame(m, f, m.regs[PC] + 4 * k);
    var w := InstrWord(m, k, bus);
    assert f.regs[RSVD := w][PC := f.regs[PC] + 4] == m.regs[RSVD := w][PC := m.regs[PC] + 4 * (k + 1)];
  }

  lemma MappedSame(m: State, n: State, addr: int)
    requires m.ram == n.ram
    ensures WordMapped(m, addr) == WordMapped(n, addr)
  {
  }

  lemma StoppedFetch(m: State, bus: Bus)
    ensures m.ctl != Running ==> FetchWord(m, bus) == m
  {
  }

  /** A step from an instruction boundary: the four words at PC are fetched and dispatched with PC
      already past them, or the run ends for want of them. */
  lemma StepDecoded(m: State, bus: Bus)
    requires Ready(m)
    ensures if Fetchable(m) then
        Step(m, bus) == Dispatch(Fetching(m, 4, bus), InstrWord(m, 0, bus), InstrWord(m, 1, bus),
                                 InstrWord(m, 2, bus), InstrWord(m, 3, bus), bus)
      else Ended(Step(m, bus))
  {
    hide FetchWord, Dispatch, InstrWord, WordFetchable, HasBit;
    FetchedPlain(m, 0, bus);
    FetchedPlain(m, 1, bus);
    FetchedPlain(m, 2, bus);
    FetchedPlain(m, 3, bus);
    FetchedUnfolds(m, bus);
    StoppedFetch(Fetched(m, 1, bus), bus);
    StoppedFetch(Fetched(m, 2, bus), bus);
    StoppedFetch(Fetched(m, 3, bus), bus);
    StoppedDispatch(Fetched(m, 4, bus), bus);
  }

  lemma StoppedDispatch(m: State, bus: Bus)
    ensures m.ctl != Running ==> forall o, a, b, c :: Dispatch(m, o, a, b, c, bus) == m
  {
    hide Execute, Recover;
  }

  /** A fetch moves PC, the reserved register and the access count, and nothing else. */
  lemma FetchingKeeps(m: State, bus: Bus)
    ensures var f := Fetching(m, 4, bus);
      && f.regs[STATUS] == m.regs[STATUS] && f.regs[RET] == m.regs[RET]
      && f == m.(regs := m.regs[RSVD := f.regs[RSVD]][PC := f.regs[PC]], accesses := f.accesses)
  {
    hide InstrWord;
  }

  // -------- words in RAM --------

  const LOWEST_DEVICE: int := 0xffff_e937

  /** A word of RAM, as a fetch sees it. */
  lemma RamWord(m: State, a: nat, w: int, bus: Bus)
    requires a + 4 <= |m.ram| && a + 4 <= LOWEST_DEVICE
    requires 0 <= w <= MAXVAL && m.ram[a..a + 4] == Packed(w)
    ensures WordAt(m, a, bus) == w && WordMapped(m, a)
  {
    UnpackPacked(w);
    var p := m.ram[a..a + 4];
    assert p[0] == m.ram[a] && p[1] == m.ram[a + 1] && p[2] == m.ram[a + 2] && p[3] == m.ram[a + 3];
  }

  lemma RamInstrWord(m: State, j: nat, w: int, bus: Bus)
    requires j < 4 && m.regs[PC] >= 0 && !MmuOn(m)
    requires m.regs[PC] + 4 * j + 4 <= |m.ram| && m.regs[PC] + 4 * j + 4 <= LOWEST_DEVICE
    requires 0 <= w <= MAXVAL && m.ram[m.regs[PC] + 4 * j..m.regs[PC] + 4 * j + 4] == Packed(w)
    ensures InstrWord(m, j, bus) == w && WordFetchable(m, j)
  {
    hide WordAt, WordMapped, HasBit, Packed;
    var s := m.(accesses := m.accesses + 4 * j);
    RamWord(s, m.regs[PC] + 4 * j, w, bus);
    MappedSame(s, m, m.regs[PC] + 4 * j);
  }
}
