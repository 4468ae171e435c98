/** The routine `itoa`: for every 32-bit number it terminates, leaves its signed decimal text at the
    destination, and restores its registers. */
module Itoa {
  import opened Words
  import opened Machine
  import opened Instructions
  import opened Fetch
  import opened Vectors
  import opened Guest
  import opened Refinement
  import opened Decimal

  // -------- memory as the proof sees it --------

  /** The first k words of the frame hold the first k registers of a bank. */
  predicate Saved(e: Layout, ram: seq<Byte>, r: Bank, k: nat)
    requires k <= 7
  {
    forall j :: 0 <= j < k ==> PeekWord(ram, e.frame + 4 * j) == r[j]
  }

  predicate Words7(r: Bank) { forall j :: 0 <= j < 7 ==> 0 <= r[j] <= MAXVAL }

  function Cells(e: Layout, ram: seq<Byte>): seq<Byte> {
    if e.dest + 12 <= |ram| then ram[e.dest..e.dest + 12] else []
  }

  lemma PeekWritten(ram: seq<Byte>, a: int, w: int)
    requires 0 <= a && a + 4 <= |ram| && 0 <= w <= MAXVAL
    ensures PeekWord(WithWord(ram, a, w), a) == w
  {
    UnpackPacked(w);
  }

  lemma PeekElsewhere(ram: seq<Byte>, a: int, w: int, b: int)
    requires 0 <= a && a + 4 <= |ram| && (b + 4 <= a || a + 4 <= b)
    ensures PeekWord(WithWord(ram, a, w), b) == PeekWord(ram, b)
  {
    hide Packed;
  }

  /** A register pushed: one more word of the frame. */
  lemma PushedWord(e: Layout, ram: seq<Byte>, r: Bank, k: nat)
    requires k < 7 && Words7(r) && Saved(e, ram, r, k) && Sound(e, ram)
    ensures var after := WithWord(ram, e.frame + 4 * k, r[k]); Saved(e, after, r, k + 1) && Sound(e, after)
  {
    hide WithWord, PeekWord;
    PeekWritten(ram, e.frame + 4 * k, r[k]);
    forall j | 0 <= j < k
      ensures PeekWord(WithWord(ram, e.frame + 4 * k, r[k]), e.frame + 4 * j) == r[j]
    {
      PeekElsewhere(ram, e.frame + 4 * k, r[k], e.frame + 4 * j);
    }
  }

  /** A byte stored in the destination shows in its cells and leaves the frame alone. */
  lemma CellByte(e: Layout, ram: seq<Byte>, r: Bank, j: nat, v: int)
    requires Sound(e, ram) && j < 12 && Saved(e, ram, r, 7)
    ensures var after := PokeByte(ram, e.dest + j, v);
      && Sound(e, after) && Saved(e, after, r, 7)
      && Cells(e, after) == Cells(e, ram)[j := v % 256]
  {
    var after := PokeByte(ram, e.dest + j, v);
    forall k | 0 <= k < 7 ensures PeekWord(after, e.frame + 4 * k) == PeekWord(ram, e.frame + 4 * k) {
    }
  }

  lemma CellWord(e: Layout, ram: seq<Byte>, r: Bank, j: nat)
    requires Sound(e, ram) && j <= 8 && Saved(e, ram, r, 7)
    ensures var after := PokeWord(ram, e.dest + j, 0);
      && Sound(e, after) && Saved(e, after, r, 7)
      && Cells(e, after) == Cells(e, ram)[..j] + [0, 0, 0, 0] + Cells(e, ram)[j + 4..]
  {
    var after := PokeWord(ram, e.dest + j, 0);
    PackedZero();
    forall k | 0 <= k < 7 ensures PeekWord(after, e.frame + 4 * k) == PeekWord(ram, e.frame + 4 * k) {
      PeekElsewhere(ram, e.dest + j, 0, e.frame + 4 * k);
    }
  }

  // -------- running several lines --------

  lemma Run1(e: Layout, g: Guest)
    ensures GRun(g, 1) == GStep(g) && (Safe(e, g) ==> SafeRun(e, g, 1))
  {
    hide GStep, Safe;
    assert GRun(GStep(g), 0) == GStep(g);
    assert SafeRun(e, GStep(g), 0);
  }

  lemma Run2(e: Layout, g: Guest)
    ensures GRun(g, 2) == GStep(GStep(g))
    ensures Safe(e, g) && Safe(e, GStep(g)) ==> SafeRun(e, g, 2)
  {
    hide GStep, Safe;
    Run1(e, GStep(g));
  }

  lemma Run3(e: Layout, g: Guest)
    ensures GRun(g, 3) == GStep(GStep(GStep(g)))
    ensures Safe(e, g) && Safe(e, GStep(g)) && Safe(e, GStep(GStep(g))) ==> SafeRun(e, g, 3)
  {
    hide GStep, Safe;
    Run2(e, GStep(g));
  }

  // -------- pushing --------

  lemma CodePush(k: nat)
    requires k < 7
    ensures Code(2 * k) == Line(ArithI(AddOp), SP, 4, SP) && Code(2 * k + 1) == Line(SaveWR, k, SP, 0)
  {
  }

  /** The stack pointer with k registers pushed; the first push may wrap it round to 0. */
  function Top(e: Layout, k: nat): int { (e.frame + 4 * k - 4) % WORD }

  lemma TopIs(e: Layout, ram: seq<Byte>, k: nat)
    requires Sound(e, ram) && 1 <= k <= 7
    ensures Top(e, k) == e.frame + 4 * k - 4
  {
  }

  lemma PushOne(e: Layout, g: Guest, k: nat)
    requires k < 7 && g.line == 2 * k && Sound(e, g.ram) && g.r[SP] == Top(e, k)
    ensures SafeRun(e, g, 2) && e.frame + 4 * k + 4 <= |g.ram|
    ensures GRun(g, 2) ==
      g.(r := g.r[SP := e.frame + 4 * k], line := 2 * k + 2, ram := WithWord(g.ram, e.frame + 4 * k, g.r[k]))
  {
    hide WithWord, Code, GRun, SafeRun;
    CodePush(k);
    Run2(e, g);
    PushAdded(e, g, k);
  }

  lemma PushAdded(e: Layout, g: Guest, k: nat)
    requires k < 7 && g.line == 2 * k && Sound(e, g.ram) && g.r[SP] == Top(e, k)
    ensures Safe(e, g) && GStep(g) == g.(r := g.r[SP := e.frame + 4 * k], line := 2 * k + 1)
  {
    hide Code;
    CodePush(k);
  }

  lemma PushNone(e: Layout, g: Guest)
    ensures GRun(g, 0) == g && SafeRun(e, g, 0) && g.r[SP := g.r[SP]] == g.r && Saved(e, g.ram, g.r, 0)
  {
  }

  lemma {:induction false} PushAll(e: Layout, g: Guest, k: nat)
    requires k <= 7 && g.line == 0 && Sound(e, g.ram) && g.r[SP] == Top(e, 0) && Words7(g.r)
    ensures SafeRun(e, g, 2 * k)
    ensures var h := GRun(g, 2 * k);
      && h.line == 2 * k && h.r == g.r[SP := Top(e, k)]
      && Sound(e, h.ram) && Saved(e, h.ram, g.r, k)
  {
    hide GStep, Safe, WithWord, Saved, Sound, GRun, SafeRun;
    if k == 0 {
      PushNone(e, g);
    } else {
      PushAll(e, g, k - 1);
      var h := GRun(g, 2 * (k - 1));
      PushOne(e, h, k - 1);
      PushedWord(e, h.ram, g.r, k - 1);
      RunSplit(e, g, 2 * (k - 1), 2);
      assert GRun(g, 2 * k) == GRun(h, 2);
      TopIs(e, g.ram, k);
      assert h.r[SP := e.frame + 4 * (k - 1)] == g.r[SP := Top(e, k)];
    }
  }

  // -------- clearing the destination --------

  /** The frame holds the registers the routine was called with. */
  predicate Framed(e: Layout, ram: seq<Byte>, r: Bank) { Sound(e, ram) && Saved(e, ram, r, 7) }

  const BLANK: seq<Byte> := [0, 0, 0, 0, 0, 0, 0, 0, 0, 0, 0, 0]

  lemma CodePrepare()
    ensures Code(14) == Line(Copy, 2, 1, 0) && Code(15) == Line(SaveWRI, 0, 1, 0)
    ensures Code(16) == Line(ArithI(AddOp), 1, 4, 1) && Code(17) == Line(SaveWRI, 0, 1, 0)
    ensures Code(18) == Line(ArithI(AddOp), 1, 4, 1) && Code(19) == Line(SaveWRI, 0, 1, 0)
    ensures Code(20) == Line(Swap, 2, 1, 0)
  {
  }

  lemma ClearWord(e: Layout, g: Guest, r: Bank, j: nat)
    requires g.line == 15 || g.line == 17 || g.line == 19
    requires Framed(e, g.ram, r) && j <= 8 && g.r[1] == e.dest + j
    ensures Safe(e, g)
    ensures var h := GStep(g);
      && h == g.(line := g.line + 1, ram := h.ram) && Framed(e, h.ram, r)
      && Cells(e, h.ram) == Cells(e, g.ram)[..j] + [0, 0, 0, 0] + Cells(e, g.ram)[j + 4..]
  {
    hide Code, PokeWord, Saved;
    CodePrepare();
    CellWord(e, g.ram, r, j);
  }

  lemma AddFour(e: Layout, g: Guest)
    requires (g.line == 16 || g.line == 18) && 0 <= g.r[1] < WORD - 4
    ensures Safe(e, g) && GStep(g) == g.(r := g.r[1 := g.r[1] + 4], line := g.line + 1)
  {
    hide Code;
    CodePrepare();
  }

  lemma KeepDest(e: Layout, g: Guest)
    requires g.line == 14
    ensures Safe(e, g) && GStep(g) == g.(r := g.r[2 := g.r[1]], line := 15)
  {
    hide Code;
    CodePrepare();
  }

  /** `swap` puts its second operand's number into the first and the first's old value into the
      second, which is all the routine needs of it here. */
  lemma SwapBack(e: Layout, g: Guest)
    requires g.line == 20
    ensures Safe(e, g) && GStep(g) == g.(r := g.r[2 := 1][1 := g.r[2]], line := 21)
  {
    hide Code;
    CodePrepare();
  }

  lemma Prepare(e: Layout, g: Guest, r: Bank)
    requires g.line == 14 && Framed(e, g.ram, r) && g.r[1] == e.dest
    ensures SafeRun(e, g, 7)
    ensures var h := GRun(g, 7);
      && h.line == 21 && h.r == g.r[2 := 1] && Framed(e, h.ram, r) && Cells(e, h.ram) == BLANK
  {
    hide GStep, Safe, GRun, SafeRun, Saved, Cells;
    SoundDest(e, g.ram);
    KeepDest(e, g);
    var g1 := GStep(g);
    ClearWord(e, g1, r, 0);
    var g2 := GStep(g1);
    AddFour(e, g2);
    var g3 := GStep(g2);
    ClearWord(e, g3, r, 4);
    var g4 := GStep(g3);
    AddFour(e, g4);
    var g5 := GStep(g4);
    ClearWord(e, g5, r, 8);
    var g6 := GStep(g5);
    SwapBack(e, g6);
    var g7 := GStep(g6);
    Run3(e, g);
    Run3(e, g3);
    Run1(e, g6);
    RunSplit(e, g, 3, 3);
    RunSplit(e, g, 6, 1);
    assert g7.r == g.r[2 := 1];
    Cleared(Cells(e, g1.ram), Cells(e, g2.ram), Cells(e, g4.ram), Cells(e, g6.ram));
  }

  lemma SoundDest(e: Layout, ram: seq<Byte>)
    requires Sound(e, ram)
    ensures e.dest + 12 <= LOWEST_DEVICE && |Cells(e, ram)| == 12
  {
  }

  lemma Cleared(a: seq<Byte>, b: seq<Byte>, c: seq<Byte>, d: seq<Byte>)
    requires |a| == 12 && b == a[..0] + [0, 0, 0, 0] + a[4..]
    requires c == b[..4] + [0, 0, 0, 0] + b[8..] && d == c[..8] + [0, 0, 0, 0] + c[12..]
    ensures d == BLANK
  {
  }

  // -------- zero --------

  lemma CodeZero()
    ensures Code(21) == Line(BranchI(Ne), 0, 0, NON_ZERO)
    ensures Code(22) == Line(SaveBRI, 0x30, 1, 0) && Code(23) == Line(Jmp, DONE, 0, 0)
  {
  }

  lemma ZeroCase(e: Layout, g: Guest, r: Bank)
    requires g.line == 21 && Framed(e, g.ram, r) && g.r[0] == 0 && g.r[1] == e.dest && Cells(e, g.ram) == BLANK
    ensures SafeRun(e, g, 3)
    ensures var h := GRun(g, 3);
      && h.line == DONE && h.r == g.r && Framed(e, h.ram, r) && Cells(e, h.ram) == BLANK[0 := 0x30]
  {
    hide Code, GRun, SafeRun, Saved, Cells, PokeByte;
    CodeZero();
    Run3(e, g);
    CellByte(e, g.ram, r, 0, 0x30);
  }

  // -------- sign and digits --------

  lemma CodeSign()
    ensures Code(24) == Line(LoadWI, 2, 0, 0) && Code(25) == Line(Copy, 4, 1, 0)
    ensures Code(26) == Line(BranchI(Gt), 0, 0, LOOP)
    ensures Code(27) == Line(ArithI(MulOp), 0, 0xffff_ffff, 0) && Code(28) == Line(LoadWI, 2, 1, 0)
  {
  }

  /** The magnitude of a word read as signed; the most negative number is its own. */
  function Magnitude(w: int): int { if Signed(w) < 0 then -Signed(w) else Signed(w) }

  lemma Negated(w: int)
    requires 0x8000_0000 <= w < WORD
    ensures w * 0xffff_ffff % WORD == Magnitude(w)
  {
    assert w * 0xffff_ffff == WORD * (w - 1) + (WORD - w);
    DivideExact(WORD, w - 1, WORD - w);
  }

  /** Lines 21 and 24 to 26: the flag cleared, the start noted, and the sign looked at. */
  lemma SignTested(e: Layout, g: Guest)
    requires g.line == 21 && 0 < g.r[0] < WORD && g.r[1] == e.dest
    ensures SafeRun(e, g, 4)
    ensures GRun(g, 4) == g.(r := g.r[2 := 0][4 := e.dest], line := if Signed(g.r[0]) > 0 then LOOP else 27)
  {
    hide GStep, Safe, GRun, SafeRun;
    NonZeroTaken(e, g);
    var g1 := GStep(g);
    FlagCleared(e, g1);
    var g2 := GStep(g1);
    StartNoted(e, g2);
    var g3 := GStep(g2);
    SignBranch(e, g3);
    Run1(e, g);
    Run3(e, g1);
    RunSplit(e, g, 1, 3);
  }

  lemma NonZeroTaken(e: Layout, g: Guest)
    requires g.line == 21 && g.r[0] != 0
    ensures Safe(e, g) && GStep(g) == g.(line := NON_ZERO)
  {
    hide Code;
    CodeZero();
  }

  lemma FlagCleared(e: Layout, g: Guest)
    requires g.line == 24
    ensures Safe(e, g) && GStep(g) == g.(r := g.r[2 := 0], line := 25)
  {
    hide Code;
    CodeSign();
  }

  lemma StartNoted(e: Layout, g: Guest)
    requires g.line == 25
    ensures Safe(e, g) && GStep(g) == g.(r := g.r[4 := g.r[1]], line := 26)
  {
    hide Code;
    CodeSign();
  }

  lemma SignBranch(e: Layout, g: Guest)
    requires g.line == 26
    ensures Safe(e, g) && GStep(g) == g.(line := if Signed(g.r[0]) > 0 then LOOP else 27)
  {
    hide Code;
    CodeSign();
  }

  /** Lines 27 and 28: the number negated and the flag set. */
  lemma SignFlipped(e: Layout, g: Guest)
    requires g.line == 27 && 0x8000_0000 <= g.r[0] < WORD
    ensures SafeRun(e, g, 2)
    ensures GRun(g, 2) == g.(r := g.r[0 := Magnitude(g.r[0])][2 := 1], line := LOOP)
  {
    hide Code, GRun, SafeRun;
    CodeSign();
    Run2(e, g);
    Negated(g.r[0]);
  }

  lemma SignCase(e: Layout, g: Guest) returns (n: nat)
    requires g.line == 21 && 0 < g.r[0] < WORD && g.r[1] == e.dest
    ensures SafeRun(e, g, n)
    ensures var h := GRun(g, n);
      && h.line == LOOP && h.ram == g.ram
      && h.r == g.r[0 := Magnitude(g.r[0])][2 := if Signed(g.r[0]) < 0 then 1 else 0][4 := e.dest]
  {
    hide GStep, Safe, GRun, SafeRun;
    SignTested(e, g);
    var g4 := GRun(g, 4);
    if Signed(g.r[0]) > 0 {
      n := 4;
      assert g.r[0 := g.r[0]] == g.r;
    } else {
      n := 6;
      SignFlipped(e, g4);
      RunSplit(e, g, 4, 2);
      assert g4.r[0 := Magnitude(g.r[0])][2 := 1] == g.r[0 := Magnitude(g.r[0])][2 := 1][4 := e.dest];
    }
  }

  lemma CodeLoop()
    ensures Code(29) == Line(BranchI(Eq), 0, 0, LOOP_DONE) && Code(30) == Line(ArithI(ModOp), 0, 10, 3)
    ensures Code(31) == Line(ArithI(AddOp), 3, 0x30, 3) && Code(32) == Line(SaveBR, 3, 1, 0)
    ensures Code(33) == Line(ArithI(AddOp), 1, 1, 1) && Code(34) == Line(ArithI(DivOp), 0, 10, 0)
    ensures Code(35) == Line(Jmp, LOOP, 0, 0)
  {
  }

  /** Lines 29 to 31: the digit as a character. */
  lemma DigitFound(e: Layout, g: Guest)
    requires g.line == LOOP && 0 < g.r[0] < WORD
    ensures SafeRun(e, g, 3)
    ensures GRun(g, 3) == g.(r := g.r[3 := Digit(g.r[0])], line := 32)
  {
    hide Code, GRun, SafeRun;
    CodeLoop();
    Run3(e, g);
    var g2 := GStep(GStep(g));
    assert g2.r == g.r[3 := g.r[0] % 10];
    assert g2.r[3 := Digit(g.r[0])] == g.r[3 := Digit(g.r[0])];
  }

  /** Lines 32 and 33: the character stored. */
  lemma DigitStored(e: Layout, g: Guest, r: Bank, j: nat)
    requires g.line == 32 && Framed(e, g.ram, r) && j < 12 && g.r[1] == e.dest + j && 0 <= g.r[3] < 256
    ensures SafeRun(e, g, 2)
    ensures var h := GRun(g, 2);
      && h.line == 34 && h.r == g.r[1 := e.dest + j + 1] && Framed(e, h.ram, r)
      && Cells(e, h.ram) == Cells(e, g.ram)[j := g.r[3]]
  {
    hide Code, GRun, SafeRun, Saved, Cells, PokeByte;
    CodeLoop();
    Run2(e, g);
    CellByte(e, g.ram, r, j, g.r[3]);
  }

  /** Lines 34 and 35: the next quotient, and back. */
  lemma DigitDropped(e: Layout, g: Guest)
    requires g.line == 34 && 0 <= g.r[0] < WORD
    ensures SafeRun(e, g, 2)
    ensures GRun(g, 2) == g.(r := g.r[0 := g.r[0] / 10], line := LOOP)
  {
    hide Code, GRun, SafeRun;
    CodeLoop();
    Run2(e, g);
  }

  lemma DigitTurn(e: Layout, g: Guest, r: Bank, j: nat)
    requires g.line == LOOP && Framed(e, g.ram, r) && j < 12 && g.r[1] == e.dest + j && 0 < g.r[0] < WORD
    ensures SafeRun(e, g, 7)
    ensures var h := GRun(g, 7);
      && h.line == LOOP && h.r == g.r[0 := g.r[0] / 10][1 := e.dest + j + 1][3 := Digit(g.r[0])]
      && Framed(e, h.ram, r) && Cells(e, h.ram) == Cells(e, g.ram)[j := Digit(g.r[0])]
  {
    hide GStep, Safe, GRun, SafeRun, Framed, Cells;
    DigitFound(e, g);
    var g3 := GRun(g, 3);
    DigitStored(e, g3, r, j);
    var g5 := GRun(g3, 2);
    DigitDropped(e, g5);
    RunSplit(e, g, 3, 2);
    RunSplit(e, g, 5, 2);
    assert GRun(g5, 2).r == g.r[0 := g.r[0] / 10][1 := e.dest + j + 1][3 := Digit(g.r[0])];
  }

  lemma LoopExit(e: Layout, g: Guest)
    requires g.line == LOOP && g.r[0] == 0
    ensures SafeRun(e, g, 1) && GRun(g, 1) == g.(line := LOOP_DONE)
  {
    hide Code, GRun, SafeRun;
    CodeLoop();
    Run1(e, g);
  }

  /** A string spliced into the cells. */
  function Spliced(cells: seq<Byte>, j: nat, s: seq<Byte>): seq<Byte>
    requires j + |s| <= |cells|
  {
    cells[..j] + s + cells[j + |s|..]
  }

  /** The digit loop terminates and leaves the digits, last one first. */
  lemma {:induction false} DigitLoop(e: Layout, g: Guest, r: Bank, j: nat) returns (n: nat)
    requires g.line == LOOP && Framed(e, g.ram, r) && g.r[1] == e.dest + j && 0 <= g.r[0] < WORD
    requires j + |Backwards(g.r[0])| <= 12
    ensures SafeRun(e, g, n)
    ensures var h := GRun(g, n); var s := Backwards(g.r[0]);
      && h.line == LOOP_DONE && h.r == g.r[0 := 0][1 := e.dest + j + |s|][3 := h.r[3]]
      && Framed(e, h.ram, r) && |Cells(e, g.ram)| == 12 && Cells(e, h.ram) == Spliced(Cells(e, g.ram), j, s)
    decreases g.r[0]
  {
    hide GStep, Safe, GRun, SafeRun, Sound, Saved, Cells;
    SoundDest(e, g.ram);
    if g.r[0] == 0 {
      n := 1;
      LoopExit(e, g);
      assert g.r[0 := 0][1 := e.dest + j][3 := g.r[3]] == g.r;
      assert Spliced(Cells(e, g.ram), j, []) == Cells(e, g.ram);
    } else {
      DigitTurn(e, g, r, j);
      var h := GRun(g, 7);
      var m := DigitLoop(e, h, r, j + 1);
      n := 7 + m;
      RunSplit(e, g, 7, m);
      var k := GRun(h, m);
      DigitRegisters(g.r, h.r, k.r, e.dest + j + 1, e.dest + j + |Backwards(g.r[0])|);
      DigitSpliced(Cells(e, g.ram), j, Digit(g.r[0]), Backwards(g.r[0] / 10));
    }
  }

  lemma DigitRegisters(g: Bank, h: Bank, k: Bank, a: int, b: int)
    requires h == g[0 := g[0] / 10][1 := a][3 := h[3]]
    requires k == h[0 := 0][1 := b][3 := k[3]]
    ensures k == g[0 := 0][1 := b][3 := k[3]]
  {
  }

  lemma DigitSpliced(cells: seq<Byte>, j: nat, d: Byte, s: seq<Byte>)
    requires j + 1 + |s| <= |cells|
    ensures Spliced(cells[j := d], j + 1, s) == Spliced(cells, j, [d] + s)
  {
  }

  // -------- sign character and reversal --------

  lemma CodeReverse()
    ensures Code(36) == Line(BranchI(Eq), 2, 0, REVERSE) && Code(37) == Line(SaveBRI, 0x2d, 1, 0)
    ensures Code(38) == Line(ArithI(AddOp), 1, 1, 1) && Code(39) == Line(LoadWI, 2, 0, 0)
    ensures Code(40) == Line(Arith(SubOp), 1, 4, 3) && Code(41) == Line(ArithI(SubOp), 3, 1, 3)
  {
  }

  /** The sign, when the flag is set. */
  lemma SignStored(e: Layout, g: Guest, r: Bank, j: nat) returns (n: nat)
    requires g.line == LOOP_DONE && Framed(e, g.ram, r) && j < 12 && g.r[1] == e.dest + j
    requires g.r[2] == 0 || g.r[2] == 1
    ensures SafeRun(e, g, n)
    ensures var h := GRun(g, n);
      && h.line == REVERSE && Framed(e, h.ram, r)
      && h.r == g.r[1 := e.dest + j + g.r[2]]
      && |Cells(e, g.ram)| == 12
      && Cells(e, h.ram) == if g.r[2] == 1 then Cells(e, g.ram)[j := MINUS] else Cells(e, g.ram)
  {
    hide Code, GRun, SafeRun, Saved, Cells, PokeByte;
    SoundDest(e, g.ram);
    CodeReverse();
    if g.r[2] == 0 {
      n := 1;
      Run1(e, g);
      assert g.r[1 := g.r[1]] == g.r;
    } else {
      n := 3;
      Run3(e, g);
      CellByte(e, g.ram, r, j, 0x2d);
    }
  }

  /** The two ends of the string. */
  lemma EndsSet(e: Layout, g: Guest, len: nat)
    requires g.line == REVERSE && 1 <= len <= 12 && g.r[1] == e.dest + len && g.r[4] == e.dest
    ensures SafeRun(e, g, 3)
    ensures GRun(g, 3) == g.(r := g.r[2 := 0][3 := len - 1], line := REVERSE_LOOP)
  {
    hide Code, GRun, SafeRun;
    CodeReverse();
    Run3(e, g);
    var g2 := GStep(GStep(g));
    assert g2.r == g.r[2 := 0][3 := len];
    assert g2.r[3 := len - 1] == g.r[2 := 0][3 := len - 1];
  }

  lemma CodeTurn()
    ensures Code(42) == Line(Branch(Ge), 2, 3, DONE) && Code(43) == Line(Arith(AddOp), 4, 2, 0)
    ensures Code(44) == Line(LoadBR, 5, 0, 0) && Code(45) == Line(Arith(AddOp), 4, 3, 1)
    ensures Code(46) == Line(LoadBR, 6, 1, 0)
  {
  }

  lemma CodeTurned()
    ensures Code(47) == Line(SaveBR, 5, 1, 0) && Code(48) == Line(SaveBR, 6, 0, 0)
    ensures Code(49) == Line(ArithI(AddOp), 2, 1, 2) && Code(50) == Line(ArithI(SubOp), 3, 1, 3)
    ensures Code(51) == Line(Jmp, REVERSE_LOOP, 0, 0)
  {
  }

  lemma PeekCell(e: Layout, ram: seq<Byte>, j: nat)
    requires Sound(e, ram) && j < 12
    ensures |Cells(e, ram)| == 12 && PeekByte(ram, e.dest + j) == Cells(e, ram)[j]
  {
  }

  /** Lines 42 to 44: the front character. */
  lemma FrontLoaded(e: Layout, g: Guest, i: nat, k: nat)
    requires g.line == REVERSE_LOOP && Sound(e, g.ram) && i < k < 12
    requires g.r[2] == i && g.r[3] == k && g.r[4] == e.dest
    ensures SafeRun(e, g, 3) && |Cells(e, g.ram)| == 12
    ensures GRun(g, 3) == g.(r := g.r[0 := e.dest + i][5 := Cells(e, g.ram)[i] as int], line := 45)
  {
    hide Code, GRun, SafeRun, Cells, PeekByte;
    CodeTurn();
    Run3(e, g);
    PeekCell(e, g.ram, i);
    var g2 := GStep(GStep(g));
    assert g2.r == g.r[0 := e.dest + i];
  }

  /** Lines 45 and 46: the back character. */
  lemma BackLoaded(e: Layout, g: Guest, k: nat)
    requires g.line == 45 && Sound(e, g.ram) && k < 12 && g.r[3] == k && g.r[4] == e.dest
    ensures SafeRun(e, g, 2) && |Cells(e, g.ram)| == 12
    ensures GRun(g, 2) == g.(r := g.r[1 := e.dest + k][6 := Cells(e, g.ram)[k] as int], line := 47)
  {
    hide Code, GRun, SafeRun, Cells, PeekByte;
    CodeTurn();
    Run2(e, g);
    PeekCell(e, g.ram, k);
  }

  /** Lines 47 and 48: both stored crosswise. */
  lemma CrossStored(e: Layout, g: Guest, r: Bank, i: nat, k: nat)
    requires g.line == 47 && Framed(e, g.ram, r) && i < 12 && k < 12
    requires g.r[0] == e.dest + i && g.r[1] == e.dest + k && 0 <= g.r[5] < 256 && 0 <= g.r[6] < 256
    ensures SafeRun(e, g, 2) && |Cells(e, g.ram)| == 12
    ensures var h := GRun(g, 2);
      && h.line == 49 && h.r == g.r && Framed(e, h.ram, r)
      && Cells(e, h.ram) == Cells(e, g.ram)[k := g.r[5]][i := g.r[6]]
  {
    hide Code, GRun, SafeRun, Cells, PokeByte, Saved;
    SoundDest(e, g.ram);
    CodeTurned();
    Run2(e, g);
    CellByte(e, g.ram, r, k, g.r[5]);
    CellByte(e, GStep(g).ram, r, i, g.r[6]);
  }

  /** Lines 49 to 51: the ends move together. */
  lemma EndsMoved(e: Layout, g: Guest, i: nat, k: nat)
    requires g.line == 49 && 1 <= k < 12 && i < 12 && g.r[2] == i && g.r[3] == k
    ensures SafeRun(e, g, 3)
    ensures GRun(g, 3) == g.(r := g.r[2 := i + 1][3 := k - 1], line := REVERSE_LOOP)
  {
    hide Code, GRun, SafeRun;
    CodeTurned();
    Run3(e, g);
  }

  /** Registers the reversal leaves alone. */
  predicate SameButScratch(a: Bank, b: Bank) {
    b[4] == a[4] && (forall x :: 7 <= x < 34 ==> b[x] == a[x])
  }

  lemma ReverseTurn(e: Layout, g: Guest, r: Bank, i: nat, k: nat)
    requires g.line == REVERSE_LOOP && Framed(e, g.ram, r) && i < k < 12
    requires g.r[2] == i && g.r[3] == k && g.r[4] == e.dest
    ensures SafeRun(e, g, 10) && |Cells(e, g.ram)| == 12
    ensures var h := GRun(g, 10); var s := Cells(e, g.ram);
      && h.line == REVERSE_LOOP && Framed(e, h.ram, r) && Cells(e, h.ram) == s[k := s[i]][i := s[k]]
      && h.r[2] == i + 1 && h.r[3] == k - 1 && SameButScratch(g.r, h.r)
  {
    hide GStep, Safe, GRun, SafeRun, Sound, Saved, Cells;
    FrontLoaded(e, g, i, k);
    var g3 := GRun(g, 3);
    BackLoaded(e, g3, k);
    var g5 := GRun(g3, 2);
    CrossStored(e, g5, r, i, k);
    var g7 := GRun(g5, 2);
    EndsMoved(e, g7, i, k);
    RunSplit(e, g, 3, 2);
    RunSplit(e, g, 5, 2);
    RunSplit(e, g, 7, 3);
  }

  lemma ReverseExit(e: Layout, g: Guest, i: nat, k: nat)
    requires g.line == REVERSE_LOOP && k <= i < 13 && g.r[2] == i && g.r[3] == k
    ensures SafeRun(e, g, 1) && GRun(g, 1) == g.(line := DONE)
  {
    hide Code, GRun, SafeRun;
    CodeTurn();
    Run1(e, g);
  }

  /** The cells from i to k, the other way round. */
  predicate Turned(before: seq<Byte>, after: seq<Byte>, i: nat, k: nat) {
    |before| == |after| == 12 && k < 12 &&
    forall x :: 0 <= x < 12 ==> after[x] == if i <= x <= k then before[i + k - x] else before[x]
  }

  /** The in-place reversal terminates and reverses. */
  lemma {:induction false} ReverseLoop(e: Layout, g: Guest, r: Bank, i: nat, k: nat) returns (n: nat)
    requires g.line == REVERSE_LOOP && Framed(e, g.ram, r) && i <= k + 1 && k < 12 && i < 12
    requires g.r[2] == i && g.r[3] == k && g.r[4] == e.dest
    ensures SafeRun(e, g, n)
    ensures var h := GRun(g, n);
      && h.line == DONE && Framed(e, h.ram, r) && SameButScratch(g.r, h.r)
      && Turned(Cells(e, g.ram), Cells(e, h.ram), i, k)
    decreases 12 - i
  {
    hide GStep, Safe, GRun, SafeRun, Sound, Saved, Cells;
    SoundDest(e, g.ram);
    if k <= i {
      n := 1;
      ReverseExit(e, g, i, k);
      assert Turned(Cells(e, g.ram), Cells(e, g.ram), i, k);
    } else {
      ReverseTurn(e, g, r, i, k);
      var h := GRun(g, 10);
      var m := ReverseLoop(e, h, r, i + 1, k - 1);
      n := 10 + m;
      RunSplit(e, g, 10, m);
      TurnedStep(Cells(e, g.ram), Cells(e, GRun(h, m).ram), i, k);
    }
  }

  lemma TurnedStep(s: seq<Byte>, after: seq<Byte>, i: nat, k: nat)
    requires |s| == 12 && i < k < 12 && Turned(s[k := s[i]][i := s[k]], after, i + 1, k - 1)
    ensures Turned(s, after, i, k)
  {
    var s1 := s[k := s[i]][i := s[k]];
    forall x | 0 <= x < 12 ensures after[x] == if i <= x <= k then s[i + k - x] else s[x] {
      TurnedAt(s1, after, i + 1, k - 1, x);
    }
  }

  lemma TurnedAt(before: seq<Byte>, after: seq<Byte>, i: nat, k: int, x: nat)
    requires |before| == |after| == 12 && 0 <= k < 12 && Turned(before, after, i, k) && x < 12
    ensures after[x] == if i <= x <= k then before[i + k - x] else before[x]
  {
  }

  // -------- popping --------

  lemma CodePop(k: nat)
    requires k < 7
    ensures Code(DONE + 2 * k) == Line(LoadWR, 6 - k, SP, 0) && Code(DONE + 2 * k + 1) == Line(ArithI(SubOp), SP, 4, SP)
  {
  }

  lemma PopOne(e: Layout, g: Guest, r: Bank, k: nat)
    requires k < 7 && g.line == DONE + 2 * k && Framed(e, g.ram, r) && g.r[SP] == e.frame + 24 - 4 * k
    ensures SafeRun(e, g, 2)
    ensures GRun(g, 2) == g.(r := g.r[6 - k := r[6 - k]][SP := Top(e, 6 - k)], line := DONE + 2 * k + 2)
  {
    hide Code, GRun, SafeRun, PeekWord;
    CodePop(k);
    Run2(e, g);
    assert PeekWord(g.ram, e.frame + 4 * (6 - k)) == r[6 - k];
    var g1 := GStep(g);
    assert g1 == g.(r := g.r[6 - k := r[6 - k]], line := DONE + 2 * k + 1);
  }

  lemma {:induction false} PopAll(e: Layout, g: Guest, r: Bank, k: nat)
    requires k <= 7 && g.line == DONE && Framed(e, g.ram, r) && g.r[SP] == e.frame + 24
    ensures SafeRun(e, g, 2 * k)
    ensures var h := GRun(g, 2 * k);
      && h.line == DONE + 2 * k && h.ram == g.ram && h.r[SP] == Top(e, 7 - k)
      && (forall x :: 7 - k <= x < 7 ==> h.r[x] == r[x])
      && (forall x :: 7 <= x < 33 ==> h.r[x] == g.r[x])
  {
    hide GStep, Safe, GRun, SafeRun, Sound, Saved, Top;
    TopIs(e, g.ram, if k == 0 then 7 else 8 - k);
    if k == 0 {
      PushNone(e, g);
    } else {
      PopAll(e, g, r, k - 1);
      var h := GRun(g, 2 * (k - 1));
      PopOne(e, h, r, k - 1);
      RunSplit(e, g, 2 * (k - 1), 2);
      assert GRun(g, 2 * k) == GRun(h, 2);
    }
  }

  // -------- the whole routine --------

  /** The NUL-terminated text of a number stands in the cells. */
  predicate Shows(cells: seq<Byte>, x: int) {
    var t := Text(x);
    |t| < |cells| && cells[..|t|] == t && cells[|t|] == 0
  }

  lemma BackwardsLength(n: nat)
    requires n < WORD
    ensures |Backwards(n)| <= 10 && (n > 0 ==> |Backwards(n)| == |Digits(n)|)
  {
    WordLength(n);
    if n > 0 { BackwardsReversed(n); }
  }

  lemma ReversedShows(cells: seq<Byte>, after: seq<Byte>, s: seq<Byte>, x: int)
    requires |cells| == |after| == 12 && 1 <= |s| <= 11
    requires cells == Spliced(BLANK, 0, s) && Turned(cells, after, 0, |s| - 1)
    requires Reverse(s) == Text(x)
    ensures Shows(after, x)
  {
    hide Text, Turned, Spliced, Reverse;
    var n := |s|;
    forall i | 0 <= i < n ensures after[i] == Reverse(s)[i] {
      TurnedAt(cells, after, 0, n - 1, i);
      SplicedFront(s, n - 1 - i);
      ReverseAt(s, i);
    }
    TurnedAt(cells, after, 0, n - 1, n);
    SplicedEnd(s);
    assert after[..n] == Reverse(s);
  }

  lemma ReverseAt(s: seq<Byte>, i: nat)
    requires i < |s|
    ensures Reverse(s)[i] == s[|s| - 1 - i]
  {
  }

  lemma SplicedFront(s: seq<Byte>, i: nat)
    requires i < |s| <= 12
    ensures Spliced(BLANK, 0, s)[i] == s[i]
  {
  }

  lemma SplicedEnd(s: seq<Byte>)
    requires |s| <= 11
    ensures Spliced(BLANK, 0, s)[|s|] == 0
  {
    BlankZero(|s|);
    assert Spliced(BLANK, 0, s)[|s|] == BLANK[|s|];
  }

  lemma BlankZero(x: nat)
    requires x < 12
    ensures BLANK[x] == 0
  {
  }

  lemma SignAppended(s: seq<Byte>)
    requires |s| <= 10
    ensures Spliced(BLANK, 0, s)[|s| := MINUS] == Spliced(BLANK, 0, s + [MINUS])
  {
  }

  /** From the digit loop to the pops. */
  lemma Converted(e: Layout, g: Guest, r: Bank, x: int) returns (n: nat)
    requires g.line == LOOP && Framed(e, g.ram, r) && Cells(e, g.ram) == BLANK
    requires x != 0 && g.r[0] == (if x < 0 then -x else x) && g.r[0] < WORD && g.r[1] == e.dest && g.r[4] == e.dest
    requires g.r[2] == if x < 0 then 1 else 0
    ensures SafeRun(e, g, n)
    ensures var h := GRun(g, n);
      && h.line == DONE && Framed(e, h.ram, r) && Shows(Cells(e, h.ram), x) && SameButScratch(g.r, h.r)
  {
    hide GStep, Safe, GRun, SafeRun, Sound, Saved, Cells, Shows, Turned, Backwards, Digits, Spliced;
    var m := g.r[0];
    var s := Backwards(m);
    BackwardsLength(m);
    DigitsDenote(m);
    var n1 := DigitLoop(e, g, r, 0);
    var h1 := GRun(g, n1);
    var n2 := SignStored(e, h1, r, |s|);
    var h2 := GRun(h1, n2);
    var t := if x < 0 then s + [MINUS] else s;
    if x < 0 { SignAppended(s); SignedReversed(m); } else { BackwardsReversed(m); }
    assert Cells(e, h2.ram) == Spliced(BLANK, 0, t);
    EndsSet(e, h2, |t|);
    var h3 := GRun(h2, 3);
    var n4 := ReverseLoop(e, h3, r, 0, |t| - 1);
    RunSplit(e, g, n1, n2);
    RunSplit(e, g, n1 + n2, 3);
    RunSplit(e, g, n1 + n2 + 3, n4);
    n := n1 + n2 + 3 + n4;
    SoundDest(e, h2.ram);
    SoundDest(e, GRun(h3, n4).ram);
    ReversedShows(Cells(e, h2.ram), Cells(e, GRun(h3, n4).ram), t, x);
  }

  /** What the routine is called with. */
  predicate Called(e: Layout, g: Guest) {
    g.line == 0 && Sound(e, g.ram) && g.r[SP] == Top(e, 0) && g.r[1] == e.dest && Words7(g.r)
  }

  lemma ZeroShows()
    ensures Shows(BLANK[0 := 0x30], 0)
  {
    assert Text(0) == [0x30];
  }

  /** Lines 21 to 51, by cases of the number. */
  lemma Body(e: Layout, g: Guest, r: Bank) returns (n: nat)
    requires g.line == 21 && Framed(e, g.ram, r) && Cells(e, g.ram) == BLANK
    requires 0 <= g.r[0] < WORD && g.r[1] == e.dest
    ensures SafeRun(e, g, n)
    ensures var h := GRun(g, n);
      && h.line == DONE && Framed(e, h.ram, r) && Shows(Cells(e, h.ram), Signed(g.r[0]))
      && (forall x :: 7 <= x < 34 ==> h.r[x] == g.r[x])
  {
    hide GStep, Safe, GRun, SafeRun, Sound, Saved, Cells, Shows;
    if g.r[0] == 0 {
      n := 3;
      ZeroCase(e, g, r);
      ZeroShows();
    } else {
      var n1 := SignCase(e, g);
      var h := GRun(g, n1);
      var n2 := Converted(e, h, r, Signed(g.r[0]));
      n := n1 + n2;
      RunSplit(e, g, n1, n2);
    }
  }

  /** For every 32-bit number: the routine runs to its last line with every register as it was and
      the text at the destination. */
  lemma Routine(e: Layout, g: Guest) returns (n: nat)
    requires Called(e, g)
    ensures SafeRun(e, g, n)
    ensures var h := GRun(g, n);
      h.line == 66 && h.r == g.r && Shows(Cells(e, h.ram), Signed(g.r[0]))
  {
    hide GStep, Safe, GRun, SafeRun, Sound, Saved, Cells, Shows;
    PushAll(e, g, 7);
    TopIs(e, g.ram, 7);
    var h1 := GRun(g, 14);
    Prepare(e, h1, g.r);
    var h2 := GRun(h1, 7);
    var n3 := Body(e, h2, g.r);
    var h3 := GRun(h2, n3);
    PopAll(e, h3, g.r, 7);
    var h4 := GRun(h3, 14);
    RunSplit(e, g, 14, 7);
    RunSplit(e, g, 21, n3);
    RunSplit(e, g, 21 + n3, 14);
    n := 21 + n3 + 14;
    assert h4.r[32] == g.r[32];
    assert h4.r == g.r;
  }
}
