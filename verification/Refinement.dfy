/** Each line of the routine, executed by the machine from its bytes in RAM, does what the routine's
    own view of it says. */
module Refinement {
  import opened Words
  import opened Status
  import opened Machine
  import opened Instructions
  import opened Invariants
  import opened Fetch
  import opened Runs
  import opened Vectors
  import opened Guest
  import Division

  /** One register written (and perhaps the carry and the reserved one), RAM as given, nothing else. */
  predicate Wrote(f: State, n: State, t: int, v: int, ram: seq<Byte>) {
    && n.ctl == Running && n.pending == f.pending && n.vectors == f.vectors && n.sent == f.sent
    && n.ram == ram
    && (0 <= t < RSVD ==> n.regs[t] == v)
    && (forall r :: 0 <= r < RSVD && r != t && r != CARRY ==> n.regs[r] == f.regs[r])
    && n.regs[CARRY] >= 0
  }

  predicate Calm(m: State) { Ready(m) && !MmuOn(m) }

  /** No destination. */
  const NOTHING: int := -1

  // -------- one kind of instruction at a time --------

  lemma SetWrote(f: State, t: int, v: int)
    requires Calm(f) && Slot(t) && v >= 0
    ensures Set(f, t, v) == f.(regs := f.regs[t := v])
    ensures Wrote(f, Set(f, t, v), t, v, f.ram)
  {
    hide Trap, HasBit;
    SetPlain(f, t, v);
  }

  lemma ResultWrote(f: State, t: int, result: int)
    requires Calm(f) && Slot(t)
    ensures Wrote(f, SetResult(f, t, result), t, result % WORD, f.ram)
  {
    hide Trap, HasBit;
    SetPlain(f, t, result % WORD);
    var k := f.(regs := f.regs[t := result % WORD]);
    SetPlain(k, CARRY, if result > MAXVAL then 1 else 0);
  }

  lemma PutCalm(f: State, v: int)
    requires Calm(f)
    ensures Calm(Put(f, RSVD, v)) && Put(f, RSVD, v) == f.(regs := f.regs[RSVD := v])
  {
    hide HasBit;
  }

  lemma LookSlot(f: State, r: int)
    requires f.ctl == Running && (Slot(r) || r == RSVD)
    ensures Look(f, r) == f && Val(f, r) == f.regs[r]
  {
  }

  /** After a write to the reserved register. */
  lemma WrotePut(f: State, v: int, n: State, t: int, w: int, ram: seq<Byte>)
    requires f.ctl == Running && Wrote(Put(f, RSVD, v), n, t, w, ram)
    ensures Wrote(f, n, t, w, ram)
  {
  }

  lemma AddWrote(f: State, r1: int, r2: int, t: int)
    requires Calm(f) && Slot(r1) && (Slot(r2) || r2 == RSVD) && Slot(t)
    ensures Wrote(f, Add(f, r1, r2, t), t, (f.regs[r1] + f.regs[r2]) % WORD, f.ram)
  {
    hide SetResult;
    LookSlot(f, r1);
    LookSlot(f, r2);
    ResultWrote(f, t, f.regs[r1] + f.regs[r2]);
  }

  lemma SubWrote(f: State, r1: int, r2: int, t: int)
    requires Calm(f) && Slot(r1) && (Slot(r2) || r2 == RSVD) && Slot(t)
    ensures Wrote(f, Sub(f, r1, r2, t), t, (f.regs[r1] - f.regs[r2]) % WORD, f.ram)
  {
    hide Add, Wrote;
    LookSlot(f, r2);
    PutCalm(f, -f.regs[r2]);
    var p := Put(f, RSVD, -f.regs[r2]);
    AddWrote(p, r1, RSVD, t);
    assert p.regs[r1] + p.regs[RSVD] == f.regs[r1] - f.regs[r2];
    WrotePut(f, -f.regs[r2], Add(p, r1, RSVD, t), t, (f.regs[r1] - f.regs[r2]) % WORD, f.ram);
  }

  lemma MulWrote(f: State, r1: int, r2: int, t: int)
    requires Calm(f) && Slot(r1) && (Slot(r2) || r2 == RSVD) && Slot(t)
    ensures Wrote(f, Mul(f, r1, r2, t), t, f.regs[r1] * f.regs[r2] % WORD, f.ram)
  {
    hide SetResult;
    LookSlot(f, r1);
    LookSlot(f, r2);
    ResultWrote(f, t, f.regs[r1] * f.regs[r2]);
  }

  lemma DivWrote(f: State, r1: int, r2: int, t: int, quotient: bool)
    requires Calm(f) && Slot(r1) && (Slot(r2) || r2 == RSVD) && Slot(t)
    requires 0 <= f.regs[r1] < WORD && 0 < f.regs[r2] <= 0x8000_0000
    ensures Wrote(f, Div(f, r1, r2, t, quotient), t,
                  if quotient then f.regs[r1] / f.regs[r2] else f.regs[r1] % f.regs[r2], f.ram)
  {
    hide Trap, HasBit, Division.DivMod;
    LookSlot(f, r1);
    LookSlot(f, r2);
    var x, y := f.regs[r1], f.regs[r2];
    Division.Correct(x, y);
    var v := if quotient then x / y else x % y;
    QuotientSmall(x, y);
    SetPlain(f, t, v);
    SetPlain(f.(regs := f.regs[t := v]), CARRY, 0);
  }

  lemma QuotientSmall(x: int, y: int)
    requires 0 <= x < WORD && 0 < y < WORD
    ensures 0 <= x / y < WORD && 0 <= x % y < WORD && (x / y) % WORD == x / y && (x % y) % WORD == x % y
  {
    QuotientWord(x, y, x / y);
  }

  lemma ArithmeticWrote(f: State, op: Arithmetic, r1: int, r2: int, t: int)
    requires Calm(f) && Slot(r1) && (Slot(r2) || r2 == RSVD) && Slot(t)
    requires op.DivOp? || op.ModOp? ==> 0 <= f.regs[r1] < WORD && 0 < f.regs[r2] <= 0x8000_0000
    ensures Wrote(f, Arithmetic3(f, op, r1, r2, t), t, Calculated(op, f.regs[r1], f.regs[r2]), f.ram)
  {
    hide Wrote, Add, Sub, Mul, Div;
    match op
    case AddOp => AddWrote(f, r1, r2, t);
    case SubOp => SubWrote(f, r1, r2, t);
    case MulOp => MulWrote(f, r1, r2, t);
    case DivOp => DivWrote(f, r1, r2, t, true);
    case ModOp => DivWrote(f, r1, r2, t, false);
  }

  lemma BranchWrote(f: State, k: Condition, r1: int, r2: int, addr: int)
    requires Calm(f) && Slot(r1) && (Slot(r2) || r2 == RSVD) && addr >= 0
    ensures var n := BranchTo(f, k, r1, r2, addr);
      Wrote(f, n, PC, if Holds(k, f.regs[r1], f.regs[r2]) then addr else f.regs[PC], f.ram)
  {
    hide Holds, HasBit;
    LookSlot(f, r1);
    LookSlot(f, r2);
    if Holds(k, f.regs[r1], f.regs[r2]) { JumpPlain(f, addr); }
  }

  // -------- memory --------

  predicate InRam(m: State, a: int, n: nat) { 0 <= a && a + n <= |m.ram| && a + n <= LOWEST_DEVICE }

  lemma RamLane(m: State, r: int, a: int, scale: int)
    requires m.ctl == Running && !MmuOn(m) && (Slot(r) || r == RSVD) && InRam(m, a, 1) && scale > 0
    ensures SaveLane(m, r, a, scale) == m.(ram := m.ram[a := (m.regs[r] / scale) % 256])
  {
    hide HasBit;
  }

  lemma RamWordSaved(m: State, r: int, a: int)
    requires m.ctl == Running && !MmuOn(m) && (Slot(r) || r == RSVD) && InRam(m, a, 4)
    ensures SaveWord(m, r, a) == m.(ram := WithWord(m.ram, a, m.regs[r]))
  {
    hide SaveLane, HasBit;
    RamLane(m, r, a, 0x100_0000);
    var m1 := SaveLane(m, r, a, 0x100_0000);
    RamLane(m1, r, a + 1, 0x1_0000);
    var m2 := SaveLane(m1, r, a + 1, 0x1_0000);
    RamLane(m2, r, a + 2, 0x100);
    var m3 := SaveLane(m2, r, a + 2, 0x100);
    RamLane(m3, r, a + 3, 1);
    WithWordUpdates(m.ram, a, m.regs[r]);
  }

  lemma RamByteSaved(m: State, r: int, a: int)
    requires m.ctl == Running && !MmuOn(m) && (Slot(r) || r == RSVD) && InRam(m, a, 1)
    ensures SaveByte(m, r, a) == m.(ram := m.ram[a := m.regs[r] % 256])
  {
    hide SaveLane, HasBit;
    RamLane(m, r, a, 1);
  }

  lemma RamWordLoaded(m: State, r: int, a: int, bus: Bus)
    requires Calm(m) && Slot(r) && InRam(m, a, 4)
    ensures LoadWord(m, r, a, bus) == m.(regs := m.regs[r := PeekWord(m.ram, a)], accesses := m.accesses + 4)
  {
    hide HasBit, LoadWord;
    LoadWordPlain(m, r, a, bus);
  }

  lemma RamByteLoaded(m: State, r: int, a: int, bus: Bus)
    requires Calm(m) && Slot(r) && InRam(m, a, 1)
    ensures LoadByte(m, r, a, bus) == m.(regs := m.regs[r := PeekByte(m.ram, a)], accesses := m.accesses + 1)
  {
    hide HasBit, Trap;
    SetPlain(Access(m, a), r, PeekByte(m.ram, a));
  }

  // -------- the code in RAM --------

  /** The opcode of each operation the routine uses. */
  function Opcode(op: Op): int {
    match op
    case SaveWR => 0x05
    case LoadWR => 0x06
    case SaveBR => 0x07
    case LoadBR => 0x08
    case LoadWI => 0x0a
    case SaveWRI => 0x0d
    case SaveBRI => 0x0e
    case Arith(f) => if f.AddOp? then 0x0f else 0x10
    case ArithI(f) =>
      if f.AddOp? then 0x14 else if f.SubOp? then 0x15 else if f.MulOp? then 0x16 else if f.DivOp? then 0x17 else 0x18
    case Jmp => 0x19
    case JmpR => 0x1a
    case Branch(_) => 0x1e
    case BranchI(k) => if k.Gt? then 0x22 else if k.Eq? then 0x25 else 0x26
    case Swap => 0x37
    case _ => 0x38
  }

  lemma CodeDecodes(i: nat)
    requires i < LINES
    ensures Decode(Opcode(Code(i).op)) == Code(i).op && 0 <= Opcode(Code(i).op) < OPCODES
  {
  }

  /** The j-th word of a line, with its jump target as an address. */
  function LineWord(e: Layout, i: nat, j: nat): int
    requires i < LINES
  {
    var l := Code(i);
    if j == 0 then Opcode(l.op)
    else if j == 1 then (if l.op.Jmp? then e.code + 16 * l.a else l.a)
    else if j == 2 then l.b
    else if l.op.Branch? || l.op.BranchI? then e.code + 16 * l.c else l.c
  }

  predicate CodeAt(e: Layout, ram: seq<Byte>, i: nat)
    requires i < LINES
  {
    && e.code + 16 * LINES <= |ram|
    && forall j :: 0 <= j < 4 ==>
         ram[e.code + 16 * i + 4 * j..e.code + 16 * i + 4 * j + 4] == Packed(LineWord(e, i, j))
  }

  predicate CodeLoaded(e: Layout, ram: seq<Byte>) {
    forall i :: 0 <= i < LINES ==> CodeAt(e, ram, i)
  }

  /** Code, frame and destination in RAM below the devices, and apart from each other. */
  predicate Sound(e: Layout, ram: seq<Byte>) {
    && e.code + 16 * LINES <= |ram| && e.code + 16 * LINES <= LOWEST_DEVICE
    && e.frame + 28 <= |ram| && e.frame + 28 <= LOWEST_DEVICE
    && e.dest + 12 <= |ram| && e.dest + 12 <= LOWEST_DEVICE
    && Apart(e.code, 16 * LINES, e.frame, 28) && Apart(e.code, 16 * LINES, e.dest, 12)
    && Apart(e.frame, 28, e.dest, 12)
  }

  predicate Apart(a: nat, n: nat, b: nat, k: nat) { a + n <= b || b + k <= a }

  // -------- machine and view --------

  /** The machine at a line of the routine, with the routine's registers and RAM. */
  ghost predicate Represents(e: Layout, m: State, g: Guest) {
    && Calm(m) && m.regs[PC] == e.code + 16 * g.line && m.ram == g.ram
    && (forall r :: Slot(r) ==> m.regs[r] == g.r[r])
  }

  /** What the routine never touches; interrupt requests in the meantime are noted as pending. */
  predicate Untouched(m: State, n: State, requested: bool) {
    && n.pending == (m.pending || requested) && n.vectors == m.vectors && n.sent == m.sent
    && (forall r :: RES <= r < RSVD && r != CARRY ==> n.regs[r] == m.regs[r])
  }

  lemma LineWordFits(e: Layout, i: nat, j: nat)
    requires i < LINES && e.code + 16 * LINES <= LOWEST_DEVICE
    ensures 0 <= LineWord(e, i, j) <= MAXVAL
  {
  }

  lemma WordFetched(e: Layout, m: State, i: nat, j: nat, bus: Bus)
    requires !MmuOn(m) && i < LINES && j < 4 && CodeAt(e, m.ram, i) && m.regs[PC] == e.code + 16 * i
    requires e.code + 16 * LINES <= |m.ram| && e.code + 16 * LINES <= LOWEST_DEVICE
    ensures InstrWord(m, j, bus) == LineWord(e, i, j) && WordFetchable(m, j)
  {
    hide HasBit, Packed, LineWord;
    LineWordFits(e, i, j);
    RamInstrWord(m, j, LineWord(e, i, j), bus);
  }

  lemma LineFetched(e: Layout, m: State, g: Guest, bus: Bus)
    requires Represents(e, m, g) && g.line < LINES && CodeAt(e, m.ram, g.line) && Sound(e, m.ram)
    ensures var f := Fetching(m, 4, bus);
      && Represents(e, f, g.(line := g.line + 1)) && Untouched(m, f, false)
      && Step(m, bus) == Dispatch(f, LineWord(e, g.line, 0), LineWord(e, g.line, 1), LineWord(e, g.line, 2),
                                  LineWord(e, g.line, 3), bus)
  {
    hide HasBit, Step, Dispatch, LineWord, InstrWord, WordFetchable, CodeAt;
    WordFetched(e, m, g.line, 0, bus);
    WordFetched(e, m, g.line, 1, bus);
    WordFetched(e, m, g.line, 2, bus);
    WordFetched(e, m, g.line, 3, bus);
    StepDecoded(m, bus);
    FetchingReady(m, bus);
  }

  // -------- one line --------

  /** The operands of a line are registers of the routine and 32-bit words. */
  predicate LineOk(l: Line) {
    match l.op
    case ArithI(_) => Slot(l.a) && 0 <= l.b <= MAXVAL && Slot(l.c)
    case Arith(f) => Slot(l.a) && Slot(l.b) && Slot(l.c) && !f.DivOp? && !f.ModOp?
    case LoadWI => Slot(l.a) && 0 <= l.b
    case Copy => Slot(l.a) && Slot(l.b)
    case Swap => Slot(l.a) && Slot(l.b) && l.a != l.b
    case LoadWR => Slot(l.a) && Slot(l.b)
    case LoadBR => Slot(l.a) && Slot(l.b)
    case SaveWR => Slot(l.a) && Slot(l.b)
    case SaveBR => Slot(l.a) && Slot(l.b)
    case SaveWRI => 0 <= l.a && Slot(l.b)
    case SaveBRI => 0 <= l.a && Slot(l.b)
    case Jmp => 0 <= l.a
    case BranchI(_) => Slot(l.a) && 0 <= l.b && 0 <= l.c
    case Branch(_) => Slot(l.a) && Slot(l.b) && 0 <= l.c
    case JmpR => Slot(l.a)
    case _ => false
  }

  lemma CodeOk(i: nat)
    requires i < LINES
    ensures LineOk(Code(i))
  {
  }

  lemma OperandsOk(e: Layout, l: Line)
    requires LineOk(l)
    ensures !BadOperands(l.op, Word1(e, l), l.b, Word3(e, l))
  {
  }

  function Word1(e: Layout, l: Line): int { if l.op.Jmp? then e.code + 16 * l.a else l.a }

  function Word3(e: Layout, l: Line): int {
    if l.op.Branch? || l.op.BranchI? then e.code + 16 * l.c else l.c
  }

  lemma WroteSlot(e: Layout, f: State, g: Guest, n: State, t: int, v: int, ram: seq<Byte>)
    requires Represents(e, f, g.(line := g.line + 1)) && Wrote(f, n, t, v, ram) && Slot(t) && v >= 0
    ensures Represents(e, n, g.(r := g.r[t := v], line := g.line + 1, ram := ram)) && Untouched(f, n, false)
  {
    hide HasBit;
  }

  lemma WroteNothing(e: Layout, f: State, g: Guest, n: State, ram: seq<Byte>)
    requires Represents(e, f, g.(line := g.line + 1)) && Wrote(f, n, NOTHING, 0, ram)
    ensures Represents(e, n, g.(line := g.line + 1, ram := ram)) && Untouched(f, n, false)
  {
    hide HasBit;
  }

  lemma WrotePC(e: Layout, f: State, g: Guest, n: State, k: nat)
    requires Represents(e, f, g.(line := g.line + 1)) && Wrote(f, n, PC, e.code + 16 * k, f.ram)
    ensures Represents(e, n, g.(line := k)) && Untouched(f, n, false)
  {
    hide HasBit;
  }

  /** The execution of a line, from the state after its fetch. */
  ghost predicate Follows(e: Layout, f: State, g: Guest, bus: Bus)
    requires g.line < 66
  {
    var l := Code(g.line);
    var n := Execute(f, l.op, Word1(e, l), l.b, Word3(e, l), bus);
    Represents(e, n, GStep(g)) && Untouched(f, n, false)
  }

  /** What holds when a line is executed. */
  ghost predicate Poised(e: Layout, f: State, g: Guest) {
    g.line < 66 && Represents(e, f, g.(line := g.line + 1)) && Safe(e, g) && Sound(e, f.ram)
    && LineOk(Code(g.line))
  }

  lemma ArithLine(e: Layout, f: State, g: Guest, bus: Bus)
    requires Poised(e, f, g) && Code(g.line).op.Arith?
    ensures Follows(e, f, g, bus)
  {
    hide Code, Wrote, Arithmetic3, HasBit, Calculated, Ready;
    var l := Code(g.line);
    var v := Calculated(l.op.a, f.regs[l.a], f.regs[l.b]);
    ArithmeticWrote(f, l.op.a, l.a, l.b, l.c);
    CalculatedPositive(l.op.a, f.regs[l.a], f.regs[l.b]);
    WroteSlot(e, f, g, Execute(f, l.op, l.a, l.b, l.c, bus), l.c, v, f.ram);
  }

  lemma CalculatedPositive(f: Arithmetic, x: int, y: int)
    requires f.DivOp? ==> x >= 0 && y >= 0
    ensures Calculated(f, x, y) >= 0
  {
  }

  lemma ArithILine(e: Layout, f: State, g: Guest, bus: Bus)
    requires Poised(e, f, g) && Code(g.line).op.ArithI?
    ensures Follows(e, f, g, bus)
  {
    hide Code, Wrote, Arithmetic3, HasBit, Calculated, Ready;
    var l := Code(g.line);
    var v := Calculated(l.op.ai, f.regs[l.a], l.b);
    PutCalm(f, l.b);
    var p := Put(f, RSVD, l.b);
    ArithmeticWrote(p, l.op.ai, l.a, RSVD, l.c);
    CalmRuns(f);
    WrotePut(f, l.b, Arithmetic3(p, l.op.ai, l.a, RSVD, l.c), l.c, v, f.ram);
    SlotPositive(f, l.a);
    CalculatedPositive(l.op.ai, f.regs[l.a], l.b);
    WroteSlot(e, f, g, Execute(f, l.op, l.a, l.b, l.c, bus), l.c, v, f.ram);
  }

  lemma CalmRuns(f: State)
    requires Calm(f)
    ensures f.ctl == Running
  {
  }

  lemma SlotPositive(f: State, r: int)
    requires Calm(f) && Slot(r)
    ensures f.regs[r] >= 0 && Look(f, r) == f && Val(f, r) == f.regs[r]
  {
    hide HasBit;
  }

  lemma MoveLine(e: Layout, f: State, g: Guest, bus: Bus)
    requires Poised(e, f, g) && (Code(g.line).op.LoadWI? || Code(g.line).op.Copy?)
    ensures Follows(e, f, g, bus)
  {
    hide Code, Wrote, Set, HasBit, Ready, Look;
    var l := Code(g.line);
    var v := if l.op.Copy? then f.regs[l.b] else l.b;
    if l.op.Copy? { SlotPositive(f, l.b); }
    SetWrote(f, l.a, v);
    WroteSlot(e, f, g, Execute(f, l.op, l.a, l.b, l.c, bus), l.a, v, f.ram);
  }

  lemma SwapLine(e: Layout, f: State, g: Guest, bus: Bus)
    requires Poised(e, f, g) && Code(g.line).op.Swap?
    ensures Follows(e, f, g, bus)
  {
    hide Code, Set, HasBit, Look;
    var l := Code(g.line);
    SlotPositive(f, l.a);
    SetWrote(f, l.a, l.b);
    var k := f.(regs := f.regs[l.a := l.b]);
    assert Calm(k);
    SetWrote(k, l.b, f.regs[l.a]);
  }

  lemma LoadLine(e: Layout, f: State, g: Guest, bus: Bus)
    requires Poised(e, f, g) && (Code(g.line).op.LoadWR? || Code(g.line).op.LoadBR?)
    ensures Follows(e, f, g, bus)
  {
    hide Code, LoadWord, LoadByte, HasBit, Look, PeekWord, PeekByte;
    var l := Code(g.line);
    SlotPositive(f, l.b);
    var addr := f.regs[l.b];
    PeekPositive(f.ram, addr);
    if l.op.LoadWR? {
      RamWordLoaded(f, l.a, addr, bus);
      WroteSlot(e, f, g, LoadWord(f, l.a, addr, bus), l.a, PeekWord(f.ram, addr), f.ram);
    } else {
      RamByteLoaded(f, l.a, addr, bus);
      WroteSlot(e, f, g, LoadByte(f, l.a, addr, bus), l.a, PeekByte(f.ram, addr), f.ram);
    }
  }

  lemma PeekPositive(ram: seq<Byte>, a: int)
    ensures 0 <= PeekWord(ram, a) <= MAXVAL && 0 <= PeekByte(ram, a) < 256
  {
  }

  lemma StoreLine(e: Layout, f: State, g: Guest, bus: Bus)
    requires Poised(e, f, g) && (Code(g.line).op.SaveWR? || Code(g.line).op.SaveBR?)
    ensures Follows(e, f, g, bus)
  {
    hide Code, SaveWord, SaveByte, HasBit, Look, WithWord;
    var l := Code(g.line);
    SlotPositive(f, l.b);
    var addr := f.regs[l.b];
    if l.op.SaveWR? {
      RamWordSaved(f, l.a, addr);
      WroteNothing(e, f, g, SaveWord(f, l.a, addr), WithWord(f.ram, addr, f.regs[l.a]));
    } else {
      RamByteSaved(f, l.a, addr);
      WroteNothing(e, f, g, SaveByte(f, l.a, addr), f.ram[addr := f.regs[l.a] % 256]);
    }
  }

  lemma StoreILine(e: Layout, f: State, g: Guest, bus: Bus)
    requires Poised(e, f, g) && (Code(g.line).op.SaveWRI? || Code(g.line).op.SaveBRI?)
    ensures Follows(e, f, g, bus)
  {
    hide Code, SaveWord, SaveByte, HasBit, Look, WithWord;
    var l := Code(g.line);
    SlotPositive(f, l.b);
    var addr := f.regs[l.b];
    PutCalm(f, l.a);
    var p := Put(f, RSVD, l.a);
    if l.op.SaveWRI? {
      RamWordSaved(p, RSVD, addr);
      WroteNothing(e, f, g, SaveWord(p, RSVD, addr), WithWord(f.ram, addr, l.a));
    } else {
      RamByteSaved(p, RSVD, addr);
      WroteNothing(e, f, g, SaveByte(p, RSVD, addr), f.ram[addr := l.a % 256]);
    }
  }

  lemma BranchLine(e: Layout, f: State, g: Guest, bus: Bus)
    requires Poised(e, f, g) && (Code(g.line).op.Branch? || Code(g.line).op.BranchI? || Code(g.line).op.Jmp?)
    ensures Follows(e, f, g, bus)
  {
    hide Code, BranchTo, Wrote, Jump, HasBit, Holds, Ready;
    var l := Code(g.line);
    var next := GStep(g).line;
    if l.op.Jmp? {
      CalmReady(f);
      JumpPlain(f, e.code + 16 * l.a);
      JumpWrote(f, e.code + 16 * l.a);
    } else if l.op.Branch? {
      BranchWrote(f, l.op.c, l.a, l.b, e.code + 16 * l.c);
    } else {
      PutCalm(f, l.b);
      var p := Put(f, RSVD, l.b);
      CalmRuns(f);
      BranchWrote(p, l.op.ci, l.a, RSVD, e.code + 16 * l.c);
      WrotePut(f, l.b, BranchTo(p, l.op.ci, l.a, RSVD, e.code + 16 * l.c), PC, e.code + 16 * next, f.ram);
    }
    WrotePC(e, f, g, Execute(f, l.op, Word1(e, l), l.b, Word3(e, l), bus), next);
  }

  lemma CalmReady(f: State)
    requires Calm(f)
    ensures Ready(f)
  {
  }

  lemma JumpWrote(f: State, addr: int)
    requires Calm(f) && addr >= 0 && Jump(f, addr) == f.(regs := f.regs[PC := addr])
    ensures Wrote(f, Jump(f, addr), PC, addr, f.ram)
  {
    hide Jump, HasBit;
  }

  lemma LineExecuted(e: Layout, f: State, g: Guest, bus: Bus)
    requires Poised(e, f, g)
    ensures Follows(e, f, g, bus)
  {
    hide Code, Follows, Represents, Sound, Safe;
    var l := Code(g.line);
    match l.op
    case ArithI(_) => ArithILine(e, f, g, bus);
    case Arith(_) => ArithLine(e, f, g, bus);
    case LoadWI => MoveLine(e, f, g, bus);
    case Copy => MoveLine(e, f, g, bus);
    case Swap => SwapLine(e, f, g, bus);
    case LoadWR => LoadLine(e, f, g, bus);
    case LoadBR => LoadLine(e, f, g, bus);
    case SaveWR => StoreLine(e, f, g, bus);
    case SaveBR => StoreLine(e, f, g, bus);
    case SaveWRI => StoreILine(e, f, g, bus);
    case SaveBRI => StoreILine(e, f, g, bus);
    case Jmp => BranchLine(e, f, g, bus);
    case BranchI(_) => BranchLine(e, f, g, bus);
    case Branch(_) => BranchLine(e, f, g, bus);
    case JmpR => NotLast(g);
  }

  lemma NotLast(g: Guest)
    requires g.line < 66
    ensures !Code(g.line).op.JmpR?
  {
  }

  lemma WordsAre(e: Layout, i: nat)
    requires i < LINES
    ensures var l := Code(i);
      && LineWord(e, i, 0) == Opcode(l.op) && LineWord(e, i, 1) == Word1(e, l)
      && LineWord(e, i, 2) == l.b && LineWord(e, i, 3) == Word3(e, l)
  {
    hide Code;
  }

  /** One machine step at a line of the routine is one step of the routine. */
  lemma LineStep(e: Layout, m: State, g: Guest, bus: Bus)
    requires Represents(e, m, g) && Safe(e, g) && Sound(e, m.ram) && CodeAt(e, m.ram, g.line)
    ensures Represents(e, Step(m, bus), GStep(g)) && Untouched(m, Step(m, bus), false)
  {
    hide Code, Step, Dispatch, Fetching, GStep, Execute, LineWord, Sound, CodeAt, HasBit, Decode, Opcode, BadOperands,
         LineOk, Word1, Word3;
    assert g.line < 66;
    var l := Code(g.line);
    LineFetched(e, m, g, bus);
    var f := Fetching(m, 4, bus);
    WordsAre(e, g.line);
    CodeOk(g.line);
    CodeDecodes(g.line);
    OperandsOk(e, l);
    assert Poised(e, f, g) by { FetchingKeeps(m, bus); }
    LineExecuted(e, f, g, bus);
    DispatchQuiet(f, Opcode(l.op), Word1(e, l), l.b, Word3(e, l), bus);
    UntouchedTwice(m, f, Step(m, bus), false, false);
  }

  lemma UntouchedTwice(a: State, b: State, c: State, p: bool, q: bool)
    requires Untouched(a, b, p) && Untouched(b, c, q)
    ensures Untouched(a, c, p || q)
  {
  }

  /** How many instructions a run makes. */
  function Ticks(events: seq<Event>): nat {
    if |events| == 0 then 0 else Ticks(events[..|events| - 1]) + if events[|events| - 1].Tick? then 1 else 0
  }

  predicate Requested(events: seq<Event>) {
    |events| != 0 && (events[|events| - 1].Request? || Requested(events[..|events| - 1]))
  }

  /** Interrupt requests arrive at any time if interrupts are off, and not at all if they are on. */
  predicate Admitted(m: State, events: seq<Event>) { Interruptible(m) ==> !Requested(events) }

  lemma CodeKept(e: Layout, before: seq<Byte>, after: seq<Byte>)
    requires CodeLoaded(e, before) && Sound(e, before) && RamKept(e, before, after)
    ensures CodeLoaded(e, after) && Sound(e, after)
  {
    hide Packed, LineWord;
    forall i: nat | i < LINES ensures CodeAt(e, after, i) {
      assert CodeAt(e, before, i);
      forall j | 0 <= j < 4
        ensures after[e.code + 16 * i + 4 * j..e.code + 16 * i + 4 * j + 4] == Packed(LineWord(e, i, j))
      {
        var a := e.code + 16 * i + 4 * j;
        assert after[a..a + 4] == before[a..a + 4];
      }
    }
  }

  lemma RamKeptTwice(e: Layout, a: seq<Byte>, b: seq<Byte>, c: seq<Byte>)
    requires RamKept(e, a, b) && RamKept(e, b, c)
    ensures RamKept(e, a, c)
  {
  }

  /** A request with interrupts off only sets the flag. */
  lemma RequestNoted(e: Layout, k: State, g: Guest)
    requires Represents(e, k, g) && !Interruptible(k)
    ensures Intr(k) == k.(pending := true) && Represents(e, Intr(k), g) && Untouched(k, Intr(k), true)
  {
    hide HasBit;
  }

  lemma StatusKept(m: State, k: State, requested: bool)
    requires Untouched(m, k, requested)
    ensures Interruptible(k) == Interruptible(m)
  {
  }

  /** Any number of instructions: the machine, running the bytes in RAM, follows the routine's own
      view, whatever the devices answer and request meanwhile; and RAM outside the frame and the
      destination, the code included, stays as it was. */
  lemma {:induction false} RunFollows(e: Layout, m: State, g: Guest, n: nat, events: seq<Event>)
    requires Represents(e, m, g) && Sound(e, m.ram) && CodeLoaded(e, m.ram) && SafeRun(e, g, n)
    requires Ticks(events) == n && Admitted(m, events)
    ensures var k := Run(m, events);
      && Represents(e, k, GRun(g, n)) && Untouched(m, k, Requested(events)) && RamKept(e, m.ram, k.ram)
    decreases |events|
  {
    hide Step, GStep, Safe, Sound, CodeLoaded, Intr, Interruptible, Represents, Untouched, RamKept;
    if |events| == 0 {
      NothingRun(e, m, g);
    } else {
      var before, last := events[..|events| - 1], events[|events| - 1];
      var k := Run(m, before);
      if last.Request? {
        RunFollows(e, m, g, n, before);
        StatusKept(m, k, Requested(before));
        RequestNoted(e, k, GRun(g, n));
        UntouchedTwice(m, k, Run(m, events), Requested(before), true);
      } else {
        RunLast(e, g, n);
        RunFollows(e, m, g, n - 1, before);
        FollowsOne(e, m, k, GRun(g, n - 1), last.bus);
        UntouchedTwice(m, k, Run(m, events), Requested(before), false);
        RamKeptTwice(e, m.ram, k.ram, Run(m, events).ram);
      }
    }
  }

  lemma NothingRun(e: Layout, m: State, g: Guest)
    requires Represents(e, m, g)
    ensures GRun(g, 0) == g && Untouched(m, m, false) && RamKept(e, m.ram, m.ram)
  {
  }

  lemma FollowsOne(e: Layout, m: State, k: State, h: Guest, bus: Bus)
    requires Represents(e, k, h) && Safe(e, h) && RamKept(e, m.ram, k.ram) && Sound(e, m.ram) && CodeLoaded(e, m.ram)
    ensures Represents(e, Step(k, bus), GStep(h)) && Untouched(k, Step(k, bus), false)
    ensures RamKept(e, k.ram, Step(k, bus).ram)
  {
    hide Step, GStep, Safe, Sound, CodeLoaded, HasBit;
    CodeKept(e, m.ram, k.ram);
    SafeLine(e, h);
    LoadedAt(e, k.ram, h.line);
    LineStep(e, k, h, bus);
    SafeKeeps(e, h);
  }

  lemma SafeLine(e: Layout, g: Guest)
    requires Safe(e, g)
    ensures g.line < 66
  {
  }

  lemma LoadedAt(e: Layout, ram: seq<Byte>, i: nat)
    requires CodeLoaded(e, ram) && i < LINES
    ensures CodeAt(e, ram, i)
  {
  }
}
