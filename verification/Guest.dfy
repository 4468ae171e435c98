/** The guest routine `itoa`, instruction by instruction, on the part of the machine it can see. */
module Guest {
  import opened Words
  import opened Machine
  import opened Instructions
  import opened Vectors

  /** Registers 0..0x21; the slot of PC is not used. */
  type Bank = s: seq<int> | |s| == 34 witness seq(34, _ => 0)

  /** The routine's view: registers, the number of the current line, RAM. */
  datatype Guest = Guest(r: Bank, line: nat, ram: seq<Byte>)

  /** A line: operation and operands, a jump target being a line number. */
  datatype Line = Line(op: Op, a: int, b: int, c: int)

  const LINES: nat := 67
  const NON_ZERO: nat := 24
  const LOOP: nat := 29
  const LOOP_DONE: nat := 36
  const REVERSE: nat := 39
  const REVERSE_LOOP: nat := 42
  const DONE: nat := 52

  function Code(i: nat): Line
    requires i < LINES
  {
    if i < 14 then
      if i % 2 == 0 then Line(ArithI(AddOp), SP, 4, SP) else Line(SaveWR, i / 2, SP, 0)
    else if DONE <= i < 66 then
      if i % 2 == 0 then Line(LoadWR, (64 - i) / 2, SP, 0) else Line(ArithI(SubOp), SP, 4, SP)
    else match i
      case 14 => Line(Copy, 2, 1, 0)
      case 15 => Line(SaveWRI, 0, 1, 0)
      case 16 => Line(ArithI(AddOp), 1, 4, 1)
      case 17 => Line(SaveWRI, 0, 1, 0)
      case 18 => Line(ArithI(AddOp), 1, 4, 1)
      case 19 => Line(SaveWRI, 0, 1, 0)
      case 20 => Line(Swap, 2, 1, 0)
      case 21 => Line(BranchI(Ne), 0, 0, NON_ZERO)
      case 22 => Line(SaveBRI, 0x30, 1, 0)
      case 23 => Line(Jmp, DONE, 0, 0)
      case 24 => Line(LoadWI, 2, 0, 0)
      case 25 => Line(Copy, 4, 1, 0)
      case 26 => Line(BranchI(Gt), 0, 0, LOOP)
      case 27 => Line(ArithI(MulOp), 0, 0xffff_ffff, 0)
      case 28 => Line(LoadWI, 2, 1, 0)
      case 29 => Line(BranchI(Eq), 0, 0, LOOP_DONE)
      case 30 => Line(ArithI(ModOp), 0, 10, 3)
      case 31 => Line(ArithI(AddOp), 3, 0x30, 3)
      case 32 => Line(SaveBR, 3, 1, 0)
      case 33 => Line(ArithI(AddOp), 1, 1, 1)
      case 34 => Line(ArithI(DivOp), 0, 10, 0)
      case 35 => Line(Jmp, LOOP, 0, 0)
      case 36 => Line(BranchI(Eq), 2, 0, REVERSE)
      case 37 => Line(SaveBRI, 0x2d, 1, 0)
      case 38 => Line(ArithI(AddOp), 1, 1, 1)
      case 39 => Line(LoadWI, 2, 0, 0)
      case 40 => Line(Arith(SubOp), 1, 4, 3)
      case 41 => Line(ArithI(SubOp), 3, 1, 3)
      case 42 => Line(Branch(Ge), 2, 3, DONE)
      case 43 => Line(Arith(AddOp), 4, 2, 0)
      case 44 => Line(LoadBR, 5, 0, 0)
      case 45 => Line(Arith(AddOp), 4, 3, 1)
      case 46 => Line(LoadBR, 6, 1, 0)
      case 47 => Line(SaveBR, 5, 1, 0)
      case 48 => Line(SaveBR, 6, 0, 0)
      case 49 => Line(ArithI(AddOp), 2, 1, 2)
      case 50 => Line(ArithI(SubOp), 3, 1, 3)
      case 51 => Line(Jmp, REVERSE_LOOP, 0, 0)
      case _ => Line(JmpR, 9, 0, 0)
  }

  // -------- what a line does --------

  function Calculated(f: Arithmetic, x: int, y: int): int {
    match f
    case AddOp => (x + y) % WORD
    case SubOp => (x - y) % WORD
    case MulOp => x * y % WORD
    case DivOp => if y == 0 then 0 else x / y
    case ModOp => if y == 0 then 0 else x % y
  }

  function PokeWord(ram: seq<Byte>, a: int, w: int): seq<Byte> {
    if 0 <= a && a + 4 <= |ram| then WithWord(ram, a, w) else ram
  }

  function PokeByte(ram: seq<Byte>, a: int, v: int): seq<Byte> {
    if 0 <= a < |ram| then ram[a := v % 256] else ram
  }

  function PeekWord(ram: seq<Byte>, a: int): int {
    if 0 <= a && a + 4 <= |ram| then Unpacked(ram[a], ram[a + 1], ram[a + 2], ram[a + 3]) else 0
  }

  function PeekByte(ram: seq<Byte>, a: int): int {
    if 0 <= a < |ram| then ram[a] else 0
  }

  predicate Slot(r: int) { 0 <= r < 34 && r != PC }

  function Write(g: Guest, r: int, v: int): Guest {
    g.(r := if Slot(r) then g.r[r := v] else g.r, line := g.line + 1)
  }

  function Read(g: Guest, r: int): int { if Slot(r) then g.r[r] else 0 }

  /** The last line leaves the routine; its effect is not described here. */
  function GStep(g: Guest): Guest {
    if g.line >= 66 then g
    else
      var l := Code(g.line);
      match l.op
      case ArithI(f) => Write(g, l.c, Calculated(f, Read(g, l.a), l.b))
      case Arith(f) => Write(g, l.c, Calculated(f, Read(g, l.a), Read(g, l.b)))
      case LoadWI => Write(g, l.a, l.b)
      case Copy => Write(g, l.a, Read(g, l.b))
      case Swap => Write(Write(g, l.a, l.b), l.b, Read(g, l.a)).(line := g.line + 1)
      case LoadWR => Write(g, l.a, PeekWord(g.ram, Read(g, l.b)))
      case LoadBR => Write(g, l.a, PeekByte(g.ram, Read(g, l.b)))
      case SaveWR => g.(ram := PokeWord(g.ram, Read(g, l.b), Read(g, l.a)), line := g.line + 1)
      case SaveBR => g.(ram := PokeByte(g.ram, Read(g, l.b), Read(g, l.a)), line := g.line + 1)
      case SaveWRI => g.(ram := PokeWord(g.ram, Read(g, l.b), l.a), line := g.line + 1)
      case SaveBRI => g.(ram := PokeByte(g.ram, Read(g, l.b), l.a), line := g.line + 1)
      case Jmp => g.(line := l.a)
      case BranchI(k) => g.(line := if Holds(k, Read(g, l.a), l.b) then l.c else g.line + 1)
      case Branch(k) => g.(line := if Holds(k, Read(g, l.a), Read(g, l.b)) then l.c else g.line + 1)
      case _ => g
  }

  function GRun(g: Guest, n: nat): Guest
    decreases n
  {
    if n == 0 then g else GRun(GStep(g), n - 1)
  }

  // -------- where it may reach --------

  /** Where the code, the stack frame (28 bytes from the first word pushed) and the destination
      (12 bytes) lie. */
  datatype Layout = Layout(code: nat, frame: nat, dest: nat)

  predicate InFrame(e: Layout, a: int, n: nat) { e.frame <= a && a + n <= e.frame + 28 }

  predicate InDest(e: Layout, a: int, n: nat) { e.dest <= a && a + n <= e.dest + 12 }

  predicate Reaches(e: Layout, a: int, n: nat) { InFrame(e, a, n) || InDest(e, a, n) }

  /** The line keeps to the frame and the destination, and divides by something. */
  predicate Safe(e: Layout, g: Guest) {
    g.line < 66 &&
    var l := Code(g.line);
    match l.op
    case ArithI(f) => f.DivOp? || f.ModOp? ==> 0 <= Read(g, l.a) < WORD && 0 < l.b <= 0x8000_0000
    case LoadWR => Reaches(e, Read(g, l.b), 4)
    case SaveWR => Reaches(e, Read(g, l.b), 4)
    case SaveWRI => Reaches(e, Read(g, l.b), 4)
    case LoadBR => Reaches(e, Read(g, l.b), 1)
    case SaveBR => Reaches(e, Read(g, l.b), 1)
    case SaveBRI => Reaches(e, Read(g, l.b), 1)
    case _ => true
  }

  predicate SafeRun(e: Layout, g: Guest, n: nat)
    decreases n
  {
    n == 0 || (Safe(e, g) && SafeRun(e, GStep(g), n - 1))
  }

  lemma {:induction false} RunSplit(e: Layout, g: Guest, n: nat, k: nat)
    ensures GRun(g, n + k) == GRun(GRun(g, n), k)
    ensures SafeRun(e, g, n) && SafeRun(e, GRun(g, n), k) ==> SafeRun(e, g, n + k)
    decreases n
  {
    hide GStep, Safe;
    if n != 0 { RunSplit(e, GStep(g), n - 1, k); }
  }

  lemma {:induction false} RunLast(e: Layout, g: Guest, n: nat)
    requires n > 0
    ensures GRun(g, n) == GStep(GRun(g, n - 1))
    ensures SafeRun(e, g, n) ==> SafeRun(e, g, n - 1) && Safe(e, GRun(g, n - 1))
    decreases n
  {
    hide GStep, Safe;
    if n > 1 { RunLast(e, GStep(g), n - 1); }
  }

  /** RAM outside the frame and the destination is as it was. */
  predicate RamKept(e: Layout, before: seq<Byte>, after: seq<Byte>) {
    |after| == |before| &&
    forall a :: 0 <= a < |before| && !InFrame(e, a, 1) && !InDest(e, a, 1) ==> after[a] == before[a]
  }

  lemma SafeKeeps(e: Layout, g: Guest)
    requires Safe(e, g)
    ensures RamKept(e, g.ram, GStep(g).ram)
  {
    hide Code;
    var l := Code(g.line);
    StoreKeeps(e, g.ram, Read(g, l.b), Read(g, l.a));
    StoreKeeps(e, g.ram, Read(g, l.b), l.a);
  }

  lemma StoreKeeps(e: Layout, ram: seq<Byte>, a: int, v: int)
    ensures Reaches(e, a, 4) ==> RamKept(e, ram, PokeWord(ram, a, v))
    ensures Reaches(e, a, 1) ==> RamKept(e, ram, PokeByte(ram, a, v))
  {
    hide Packed;
  }
}
