/** The routine `itoa` called on the machine: from its listing, through the assembler, to the return. */
module Calling {
  import opened Common
  import opened Words
  import opened Status
  import opened Machine
  import opened Instructions
  import opened Invariants
  import opened Fetch
  import opened Runs
  import opened Vectors
  import opened Guest
  import opened Refinement
  import opened Decimal
  import opened Itoa
  import opened Storage
  import opened Processor
  import Linkage
  import Asm = Assembler

  // -------- call and return --------

  /** At the routine's first instruction: code, stack frame and destination in RAM and apart, the
      saved registers 32-bit words, nothing else assumed. */
  ghost predicate CalledOn(e: Layout, m: State) {
    && Calm(m) && CodeLoaded(e, m.ram) && Sound(e, m.ram)
    && m.regs[PC] == e.code && m.regs[1] == e.dest && m.regs[SP] == (e.frame - 4) % WORD
    && (forall j :: 0 <= j < 7 ==> m.regs[j] <= MAXVAL)
  }

  /** Back at the caller: registers 0 to 31 and the stack pointer as they were, the signed decimal
      text of register 0 at the destination, the rest of memory untouched, and any request pending. */
  ghost predicate Returned(e: Layout, m: State, k: State, requested: bool) {
    && Ready(k) && k.regs[PC] == m.regs[9]
    && (forall r :: 0 <= r < PC ==> k.regs[r] == m.regs[r]) && k.regs[SP] == m.regs[SP]
    && Shows(Cells(e, k.ram), Signed(m.regs[0]))
    && RamKept(e, m.ram, k.ram) && Untouched(m, k, requested)
  }

  lemma LastLine(e: Layout, m: State, g: Guest, bus: Bus)
    requires Represents(e, m, g) && g.line == 66 && Sound(e, m.ram) && CodeAt(e, m.ram, 66)
    ensures var k := Step(m, bus);
      && Ready(k) && k.regs[PC] == g.r[9] && k.ram == m.ram && Untouched(m, k, false)
      && (forall r :: Slot(r) ==> k.regs[r] == g.r[r])
  {
    hide Step, Dispatch, Fetching, Execute, LineWord, Sound, CodeAt, HasBit, Decode, Opcode, BadOperands, LineOk,
         Word1, Word3;
    assert Code(66) == Line(JmpR, 9, 0, 0);
    var l := Code(66);
    LineFetched(e, m, g, bus);
    var f := Fetching(m, 4, bus);
    WordsAre(e, 66);
    CodeOk(66);
    CodeDecodes(66);
    OperandsOk(e, l);
    FetchingKeeps(m, bus);
    JumpedBack(f, bus);
    assert Word1(e, l) == 9 && Word3(e, l) == 0 by { LastWords(e); }
    DispatchQuiet(f, Opcode(l.op), 9, 0, 0, bus);
  }

  lemma LastWords(e: Layout)
    ensures Word1(e, Code(66)) == 9 && Word3(e, Code(66)) == 0
  {
  }

  lemma JumpedBack(f: State, bus: Bus)
    requires Calm(f)
    ensures Execute(f, JmpR, 9, 0, 0, bus) == f.(regs := f.regs[PC := f.regs[9]])
    ensures Ready(f.(regs := f.regs[PC := f.regs[9]]))
  {
    hide HasBit, Jump;
    SlotPositive(f, 9);
    JumpPlain(f, f.regs[9]);
  }

  function View(m: State): Guest { Guest(m.regs[..34], 0, m.ram) }

  lemma Viewed(e: Layout, m: State)
    requires CalledOn(e, m)
    ensures Represents(e, m, View(m)) && Called(e, View(m))
  {
    hide CodeLoaded, HasBit, Sound;
  }

  /** Some number of instructions takes every call, whatever the devices answer and request
      meanwhile, to the return; until then PC stays in the routine, and it is at the last line before
      the last of them only. */
  lemma ItoaReturns(e: Layout, m: State) returns (n: nat)
    requires CalledOn(e, m)
    ensures n > 0
    ensures forall events :: Ticks(events) == n && Admitted(m, events) ==>
      Returned(e, m, Run(m, events), Requested(events))
    ensures forall events :: Ticks(events) < n && Admitted(m, events) ==>
      && Inside(e, Run(m, events))
      && (Run(m, events).regs[PC] == e.code + 16 * 66 <==> Ticks(events) == n - 1)
  {
    hide GStep, Safe, GRun, SafeRun, Sound, Shows, Cells, Run, CodeLoaded, Represents, Returned, Called;
    hide Admitted, Ticks, Requested;
    var g := View(m);
    Viewed(e, m);
    var k := Routine(e, g);
    n := k + 1;
    forall events | Ticks(events) == n && Admitted(m, events)
      ensures Returned(e, m, Run(m, events), Requested(events))
    {
      RunReturns(e, m, k, events);
    }
    forall events | Ticks(events) < n && Admitted(m, events)
      ensures Inside(e, Run(m, events))
      ensures Run(m, events).regs[PC] == e.code + 16 * 66 <==> Ticks(events) == n - 1
    {
      RunInside(e, m, g, k, events);
    }
  }

  predicate Inside(e: Layout, m: State) { m.ctl == Running && e.code <= m.regs[PC] < e.code + 16 * LINES }

  predicate Finishes(e: Layout, m: State, k: nat) {
    var g := View(m);
    && SafeRun(e, g, k) && GRun(g, k).line == 66 && GRun(g, k).r == g.r
    && Shows(Cells(e, GRun(g, k).ram), Signed(g.r[0]))
  }

  lemma {:induction false} RunReturns(e: Layout, m: State, k: nat, events: seq<Event>)
    requires CalledOn(e, m) && Ticks(events) == k + 1 && Admitted(m, events) && Finishes(e, m, k)
    ensures Returned(e, m, Run(m, events), Requested(events))
    decreases |events|
  {
    hide CalledOn, Step, Returned, Finishes, Intr, Interruptible;
    var before, last := events[..|events| - 1], events[|events| - 1];
    if last.Request? {
      RunReturns(e, m, k, before);
      ReturnedNoted(e, m, Run(m, before), Requested(before));
    } else {
      LastReturns(e, m, k, before, last.bus);
    }
  }

  /** Back at the caller, with interrupts off, a request is noted. */
  lemma ReturnedNoted(e: Layout, m: State, k: State, requested: bool)
    requires Returned(e, m, k, requested) && !Interruptible(m)
    ensures Returned(e, m, Intr(k), true)
  {
    hide HasBit, Shows, Cells, RamKept;
    assert Interruptible(k) == Interruptible(m);
  }

  lemma LastReturns(e: Layout, m: State, k: nat, before: seq<Event>, bus: Bus)
    requires CalledOn(e, m) && Ticks(before) == k && Admitted(m, before) && Finishes(e, m, k)
    ensures Returned(e, m, Step(Run(m, before), bus), Requested(before))
  {
    hide GStep, Safe, GRun, SafeRun, Sound, Shows, Cells, CodeLoaded, Step, HasBit, Called, Requested, Ticks, Run;
    var g := View(m);
    Viewed(e, m);
    RunFollows(e, m, g, k, before);
    var at := Run(m, before);
    CodeKept(e, m.ram, at.ram);
    LoadedAt(e, at.ram, 66);
    LastLine(e, at, GRun(g, k), bus);
    UntouchedTwice(m, at, Step(at, bus), Requested(before), false);
  }

  lemma RunInside(e: Layout, m: State, g: Guest, k: nat, events: seq<Event>)
    requires CalledOn(e, m) && Represents(e, m, g) && SafeRun(e, g, k) && Ticks(events) <= k && Admitted(m, events)
    requires GRun(g, k).line == 66
    ensures Inside(e, Run(m, events))
    ensures Run(m, events).regs[PC] == e.code + 16 * 66 <==> Ticks(events) == k
  {
    hide GStep, Safe, GRun, SafeRun, Sound, CodeLoaded, HasBit, Run, Ticks, Requested;
    var i := Ticks(events);
    SafePrefix(e, g, i, k - i);
    RunFollows(e, m, g, i, events);
    RunSplit(e, g, i, k - i);
    LineInside(e, GRun(g, i), k - i);
  }

  lemma {:induction false} SafePrefix(e: Layout, g: Guest, n: nat, k: nat)
    requires SafeRun(e, g, n + k)
    ensures SafeRun(e, g, n) && SafeRun(e, GRun(g, n), k)
    decreases n
  {
    hide GStep, Safe;
    if n != 0 { SafePrefix(e, GStep(g), n - 1, k); }
  }

  lemma LineInside(e: Layout, g: Guest, k: nat)
    requires SafeRun(e, g, k) && GRun(g, k).line == 66
    ensures g.line <= 66 && (g.line == 66 <==> k == 0)
  {
    hide GStep, Code;
  }

  // -------- the listing --------

  const LABELS: seq<string> := ["itoa", "itoa_non_zero", "itoa_loop", "itoa_loop_done", "itoa_reverse",
                                "itoa_reverse_loop", "itoa_done"]

  /** The label in front of a line, by position in the list; -1 for none. */
  function Labelled(i: nat): (k: int)
    ensures -1 <= k < |LABELS|
  {
    match i
    case 0 => 0
    case 24 => 1
    case 29 => 2
    case 36 => 3
    case 39 => 4
    case 42 => 5
    case 52 => 6
    case _ => -1
  }

  function LabelAt(i: nat): seq<Asm.Statement> {
    if Labelled(i) < 0 then [] else [Asm.Label(LABELS[Labelled(i)])]
  }

  function Target(i: int): Asm.Operand {
    Asm.Name(if i > 0 && Labelled(i) >= 0 then LABELS[Labelled(i)] else LABELS[0])
  }

  /** The operands as the listing writes them. */
  function Operands(l: Line): seq<Asm.Operand> {
    var a, b, c := Asm.Number(l.a), Asm.Number(l.b), Asm.Number(l.c);
    match l.op
    case ArithI(_) => [a, b, c]
    case Arith(_) => [a, b, c]
    case Branch(_) => [a, b, Target(l.c)]
    case BranchI(_) => [a, b, Target(l.c)]
    case Jmp => [Target(l.a)]
    case JmpR => [a]
    case _ => [a, b]
  }

  function LineStatement(i: nat): Asm.Statement
    requires i < LINES
  {
    Asm.Instr(Opcode(Code(i).op), Operands(Code(i)))
  }

  /** The first n lines with the labels in front of them. */
  function Listing(n: nat): seq<Asm.Statement>
    requires n <= LINES
  {
    if n == 0 then [] else Listing(n - 1) + LabelAt(n - 1) + [LineStatement(n - 1)]
  }

  lemma {:induction false} ListingPrefix(n: nat, k: nat)
    requires n <= k <= LINES
    ensures |Listing(n)| <= |Listing(k)| && Listing(k)[..|Listing(n)|] == Listing(n)
    ensures n < k ==> Listing(n) + LabelAt(n) + [LineStatement(n)] <= Listing(k)
    decreases k
  {
    hide LineStatement, LabelAt;
    if n < k {
      ListingPrefix(n, k - 1);
      if n == k - 1 {
        assert Listing(k) == Listing(n) + LabelAt(n) + [LineStatement(n)];
      }
    }
  }

  lemma {:induction false} ListingPlaced(before: seq<Asm.Statement>, n: nat)
    requires n <= LINES
    ensures Asm.Offset(before + Listing(n)) == Asm.Offset(before) + 16 * n
    ensures n < LINES ==> Asm.Offset(before + Listing(n) + LabelAt(n)) == Asm.Offset(before) + 16 * n
  {
    hide LineStatement, Asm.Offset, Listing;
    if n == 0 {
      assert before + Listing(0) == before by { ListingEmpty(); }
    } else {
      ListingPlaced(before, n - 1);
      ListingGrows(n);
      var q := before + Listing(n - 1) + LabelAt(n - 1);
      assert before + Listing(n) == q + [LineStatement(n - 1)];
      OffsetGrows(q, LineStatement(n - 1));
      LineSize(n - 1, Asm.Offset(q));
    }
    if n < LINES {
      var q := before + Listing(n);
      if Labelled(n) >= 0 {
        OffsetGrows(q, Asm.Label(LABELS[Labelled(n)]));
      } else {
        assert q + LabelAt(n) == q;
      }
    }
  }

  lemma ListingEmpty()
    ensures Listing(0) == []
  {
  }

  lemma ListingGrows(n: nat)
    requires 0 < n <= LINES
    ensures Listing(n) == Listing(n - 1) + LabelAt(n - 1) + [LineStatement(n - 1)]
  {
    hide LineStatement, LabelAt;
  }

  lemma OffsetGrows(q: seq<Asm.Statement>, s: Asm.Statement)
    ensures Asm.Offset(q + [s]) == Asm.Offset(q) + Asm.Size(s, Asm.Offset(q))
  {
    hide Asm.Size;
    assert (q + [s])[..|q|] == q;
  }

  lemma LineSize(i: nat, at: nat)
    requires i < LINES
    ensures Asm.Size(LineStatement(i), at) == 16
  {
    hide Code, Opcode;
    var xs := Operands(Code(i));
    assert 1 <= |xs| <= 3;
  }

  /** A label stands for the offset of what follows it. */
  lemma {:induction false} LabelPlaced(p: seq<Asm.Statement>, k: nat, l: string)
    requires Asm.Distinct(p) && k < |p| && p[k] == Asm.Label(l)
    ensures l in Asm.Labels(p) && Asm.Labels(p)[l] == Asm.Offset(p[..k])
  {
    hide Asm.Offset;
    var q := p[..|p| - 1];
    if k < |q| {
      LabelPlaced(q, k, l);
      assert q[..k] == p[..k];
    }
  }

  /** The listing within a program: statements before it and after it. */
  function Program(before: seq<Asm.Statement>, after: seq<Asm.Statement>): seq<Asm.Statement> {
    before + Listing(LINES) + after
  }

  lemma LinePlaced(before: seq<Asm.Statement>, after: seq<Asm.Statement>, i: nat)
    requires i < LINES
    ensures var p, k := Program(before, after), |before| + |Listing(i)| + |LabelAt(i)|;
      k < |p| && p[k] == LineStatement(i) && Asm.Offset(p[..k]) == Asm.Offset(before) + 16 * i
  {
    hide LineStatement, LabelAt, Listing, Asm.Offset;
    var p, q := Program(before, after), Listing(i) + LabelAt(i);
    ListingPrefix(i, LINES);
    ListingPlaced(before, i);
    assert Listing(LINES)[..|q|] == q;
    assert p[..|before| + |q|] == before + Listing(i) + LabelAt(i);
  }

  lemma TargetPlaced(before: seq<Asm.Statement>, after: seq<Asm.Statement>, i: nat)
    requires i < LINES && Labelled(i) >= 0 && Asm.Distinct(Program(before, after))
    ensures var t, l := Asm.Labels(Program(before, after)), LABELS[Labelled(i)];
      l in t && t[l] == Asm.Offset(before) + 16 * i
  {
    hide LineStatement, Listing, Asm.Offset, Asm.Labels, Labelled;
    var p, k := Program(before, after), |before| + |Listing(i)|;
    ListingPrefix(i, LINES);
    ListingPlaced(before, i);
    assert p[k] == LabelAt(i)[0];
    assert p[..k] == before + Listing(i);
    LabelPlaced(p, k, LABELS[Labelled(i)]);
  }

  /** Every jump goes to a labelled line. */
  lemma TargetsLabelled(i: nat)
    requires i < LINES
    ensures var l := Code(i);
      && (l.op.Jmp? ==> 0 < l.a < LINES && Labelled(l.a) >= 0)
      && (l.op.Branch? || l.op.BranchI? ==> 0 < l.c < LINES && Labelled(l.c) >= 0)
  {
    hide Opcode;
  }

  /** Positions an operation does not use are zero. */
  lemma UnusedZero(i: nat)
    requires i < LINES
    ensures var l, xs := Code(i), Operands(Code(i));
      1 <= |xs| <= 3 && (|xs| < 3 ==> l.c == 0) && (|xs| < 2 ==> l.b == 0)
  {
    hide Opcode, Target;
  }

  lemma LineEmitted(before: seq<Asm.Statement>, after: seq<Asm.Statement>, e: Layout, i: nat, j: nat)
    requires i < LINES && j < 4 && Asm.Distinct(Program(before, after)) && e.code == Asm.Offset(before)
    ensures Linkage.EmittedWord(LineStatement(i), Asm.Labels(Program(before, after)), j) == LineWord(e, i, j)
  {
    hide Code, Opcode, Listing, Asm.Offset, Asm.Labels, Labelled, Asm.Distinct, Program;
    var l := Code(i);
    TargetsLabelled(i);
    UnusedZero(i);
    if l.op.Jmp? { TargetPlaced(before, after, l.a); }
    if l.op.Branch? || l.op.BranchI? { TargetPlaced(before, after, l.c); }
  }

  /** The assembled program, loaded at 0, holds the routine at the offset of its label; and goes on
      doing so as long as the bytes of the routine itself stand. */
  lemma ListingLoaded(before: seq<Asm.Statement>, after: seq<Asm.Statement>, image: seq<Byte>, m: State, e: Layout)
    requires Asm.TwoPass(Program(before, after)) == Some(image) && e.code == Asm.Offset(before)
    ensures e.code + 16 * LINES <= |image|
    ensures Linkage.Carries(m.ram, image, e.code, 16 * LINES) ==> CodeLoaded(e, m.ram)
    ensures var t := Asm.Labels(Program(before, after)); "itoa" in t && t["itoa"] == e.code
  {
    hide Packed, LineWord, LineStatement, Linkage.EmittedWord, Asm.Labels, Asm.Image, Listing, Asm.Offset, Program,
         Asm.AllEncodable, Asm.Resolved, Linkage.Carries, CodeAt;
    LineInImage(before, after, image, 66, 3);
    if Linkage.Carries(m.ram, image, e.code, 16 * LINES) {
      forall i: nat | i < LINES ensures CodeAt(e, m.ram, i) { LineLoaded(before, after, image, m, e, i); }
    }
    TargetPlaced(before, after, 0);
    assert LABELS[Labelled(0)] == "itoa";
  }

  lemma LineLoaded(
    before: seq<Asm.Statement>, after: seq<Asm.Statement>, image: seq<Byte>, m: State, e: Layout, i: nat)
    requires Asm.TwoPass(Program(before, after)) == Some(image) && e.code == Asm.Offset(before) && i < LINES
    requires Linkage.Carries(m.ram, image, e.code, 16 * LINES)
    ensures CodeAt(e, m.ram, i)
  {
    hide Packed, LineWord, LineStatement, Linkage.EmittedWord, Asm.Labels, Listing, Asm.Offset, Program, Asm.TwoPass;
    forall j: nat | j < 4
      ensures m.ram[e.code + 16 * i + 4 * j..e.code + 16 * i + 4 * j + 4] == Packed(LineWord(e, i, j))
    {
      LineInImage(before, after, image, i, j);
      Linkage.CarriesPart(m.ram, image, e.code, 16 * LINES, 16 * i + 4 * j, 4);
      ProgramDistinct(before, after, image);
      LineEmitted(before, after, e, i, j);
    }
  }

  lemma ProgramDistinct(before: seq<Asm.Statement>, after: seq<Asm.Statement>, image: seq<Byte>)
    requires Asm.TwoPass(Program(before, after)) == Some(image)
    ensures Asm.Distinct(Program(before, after))
  {
    hide Program, Asm.Distinct, Asm.Labels, Asm.Image;
  }

  lemma LineInImage(before: seq<Asm.Statement>, after: seq<Asm.Statement>, image: seq<Byte>, i: nat, j: nat)
    requires Asm.TwoPass(Program(before, after)) == Some(image) && i < LINES && j < 4
    ensures var at := Asm.Offset(before) + 16 * i; var t := Asm.Labels(Program(before, after));
      && at + 16 <= |image|
      && image[at + 4 * j..at + 4 * j + 4] == Packed(Linkage.EmittedWord(LineStatement(i), t, j))
  {
    hide Packed, Linkage.EmittedWord, Asm.Labels, Listing, Asm.Offset, Program, LabelAt, Opcode, Code, Asm.TwoPass;
    LinePlaced(before, after, i);
    Linkage.EmittedAt(image, Program(before, after), |before| + |Listing(i)| + |LabelAt(i)|, j);
  }

  // -------- the listing by itself assembles --------

  /** Each statement of the listing is a line or the label in front of one. */
  lemma {:induction false} Listed(n: nat, k: nat) returns (i: nat)
    requires n <= LINES && k < |Listing(n)|
    ensures i < n
    ensures Listing(n)[k] == LineStatement(i) || (Labelled(i) >= 0 && Listing(n)[k] == Asm.Label(LABELS[Labelled(i)]))
  {
    hide LineStatement, Labelled;
    if k < |Listing(n - 1)| {
      i := Listed(n - 1, k);
    } else {
      i := n - 1;
    }
  }

  lemma LineFits(i: nat, x: Asm.Operand)
    requires i < LINES && x in LineStatement(i).operands
    ensures x.Number? ==> Asm.Fits(x.v)
    ensures x.Name? ==> exists t: nat :: t < LINES && Labelled(t) >= 0 && x == Asm.Name(LABELS[Labelled(t)])
  {
    hide Opcode, Labelled;
    TargetsLabelled(i);
    var l := Code(i);
    assert x.Name? ==> x == Target(if l.op.Jmp? then l.a else l.c);
    WordsFit(i);
  }

  lemma WordsFit(i: nat)
    requires i < LINES
    ensures var l := Code(i); Asm.Fits(l.a) && Asm.Fits(l.b) && Asm.Fits(l.c) && Asm.Fits(Opcode(l.op))
  {
  }

  lemma LineEncodable(i: nat)
    requires i < LINES
    ensures Asm.Encodable(LineStatement(i))
  {
    hide Code, Opcode, Operands;
    WordsFit(i);
    forall x | x in LineStatement(i).operands ensures x.Number? ==> Asm.Fits(x.v) { LineFits(i, x); }
  }

  lemma LabelsApart(i: nat, j: nat)
    requires i < j && Labelled(i) >= 0 && Labelled(j) >= 0
    ensures LABELS[Labelled(i)] != LABELS[Labelled(j)]
  {
    NamesApart(Labelled(i), Labelled(j));
  }

  lemma NamesApart(i: nat, j: nat)
    requires i < j < |LABELS|
    ensures LABELS[i] != LABELS[j]
  {
    assert |LABELS[0]| == 4 && |LABELS[1]| == 13 && |LABELS[2]| == 9 && |LABELS[3]| == 14;
    assert |LABELS[4]| == 12 && |LABELS[5]| == 17 && |LABELS[6]| == 9;
    assert LABELS[2][5] == 'l' && LABELS[6][5] == 'd';
  }

  lemma {:induction false} ListingDistinct(n: nat)
    requires n <= LINES
    ensures Asm.Distinct(Listing(n))
  {
    hide LineStatement, Labelled, Asm.Distinct, Listing;
    if n == 0 {
      ListingEmpty();
      assert Asm.Distinct([]) by { DistinctEmpty(); }
    } else {
      ListingDistinct(n - 1);
      ListingGrows(n);
      var q := Listing(n - 1) + LabelAt(n - 1);
      if Labelled(n - 1) >= 0 {
        var l := LABELS[Labelled(n - 1)];
        Asm.LabelsAre(Listing(n - 1), l);
        if Asm.Label(l) in Listing(n - 1) {
          var k: nat :| k < |Listing(n - 1)| && Listing(n - 1)[k] == Asm.Label(l);
          var i := Listed(n - 1, k);
          LineIsInstr(i);
          LabelsApart(i, n - 1);
        }
        DistinctGrows(Listing(n - 1), Asm.Label(l));
      } else {
        assert q == Listing(n - 1);
      }
      LineIsInstr(n - 1);
      DistinctGrows(q, LineStatement(n - 1));
    }
  }

  lemma DistinctEmpty()
    ensures Asm.Distinct([])
  {
  }

  lemma LineIsInstr(i: nat)
    requires i < LINES
    ensures LineStatement(i).Instr?
  {
  }

  lemma DistinctGrows(q: seq<Asm.Statement>, s: Asm.Statement)
    requires Asm.Distinct(q) && (s.Label? ==> s.name !in Asm.Labels(q))
    ensures Asm.Distinct(q + [s])
  {
    hide Asm.Distinct, Asm.Labels;
    assert (q + [s])[..|q|] == q;
    Asm.DistinctLast(q + [s]);
  }

  /** Every reference of the listing is to a label of it. */
  lemma ReferenceListed(l: string)
    requires Asm.Referred(Program([], []), l)
    ensures exists t: nat :: t < LINES && Labelled(t) >= 0 && l == LABELS[Labelled(t)]
  {
    hide LineStatement, Labelled, Listing;
    var p := Program([], []);
    assert p == Listing(LINES);
    var k: nat :| k < |p| && Asm.Refers(p[k], l);
    var i := Listed(LINES, k);
    LineFits(i, Asm.Name(l));
  }

  /** The listing of the routine, by itself, is accepted by the assembler. */
  lemma ListingAssembles()
    ensures Asm.TwoPass(Program([], [])).Some?
  {
    hide LineStatement, Labelled, Listing, Asm.Labels, Asm.Offset, Asm.Image, Asm.Distinct, Asm.Encodable, Asm.Referred;
    var p := Program([], []);
    assert p == Listing(LINES);
    ListingDistinct(LINES);
    forall k | 0 <= k < |p| ensures Asm.Encodable(p[k]) {
      var i := Listed(LINES, k);
      LineEncodable(i);
      if Labelled(i) >= 0 { LabelFine(LABELS[Labelled(i)]); }
    }
    assert Asm.Offset([]) == 0 by { NoOffset(); }
    forall l | Asm.Referred(p, l) ensures l in Asm.Labels(p) && Asm.Fits(Asm.Labels(p)[l]) {
      ReferenceListed(l);
      var t: nat :| t < LINES && Labelled(t) >= 0 && l == LABELS[Labelled(t)];
      TargetPlaced([], [], t);
    }
  }

  lemma LabelFine(l: string)
    ensures Asm.Encodable(Asm.Label(l))
  {
  }

  lemma NoOffset()
    ensures Asm.Offset([]) == 0
  {
  }

  /** For every program the listing is part of, assembled and loaded at 0, whatever has since become
      of it outside the listing itself: a call of `itoa` returns, from every 32-bit number, and can be
      made again. */
  lemma AssembledItoa(before: seq<Asm.Statement>, after: seq<Asm.Statement>, image: seq<Byte>, m: State, e: Layout)
    returns (n: nat)
    requires Asm.TwoPass(Program(before, after)) == Some(image)
    requires Linkage.Carries(m.ram, image, Asm.Offset(before), 16 * LINES)
    requires e.code == Asm.Offset(before) && Sound(e, m.ram) && Calm(m)
    requires m.regs[PC] == e.code && m.regs[1] == e.dest && m.regs[SP] == (e.frame - 4) % WORD
    requires forall j :: 0 <= j < 7 ==> m.regs[j] <= MAXVAL
    ensures forall events :: Ticks(events) == n && Admitted(m, events) ==>
      && Returned(e, m, Run(m, events), Requested(events))
      && Linkage.Carries(Run(m, events).ram, image, e.code, 16 * LINES)
  {
    hide CodeLoaded, HasBit, Sound, Asm.TwoPass, Linkage.Carries, Program, Returned, Run, Ticks, Admitted, Requested;
    ListingLoaded(before, after, image, m, e);
    n := ItoaReturns(e, m);
    forall events | Ticks(events) == n && Admitted(m, events)
      ensures Linkage.Carries(Run(m, events).ram, image, e.code, 16 * LINES)
    {
      StillCarried(e, m, Run(m, events), Requested(events), image);
    }
  }

  lemma StillCarried(e: Layout, m: State, k: State, requested: bool, image: seq<Byte>)
    requires Returned(e, m, k, requested) && Sound(e, m.ram) && Linkage.Carries(m.ram, image, e.code, 16 * LINES)
    ensures Linkage.Carries(k.ram, image, e.code, 16 * LINES)
  {
    hide Ready, Shows, Untouched;
    var n := 16 * LINES;
    assert forall a :: e.code <= a < e.code + n ==> k.ram[a] == m.ram[a];
    assert k.ram[e.code..e.code + n] == m.ram[e.code..e.code + n];
  }

  // -------- the call, made by the processor --------

  /** Instructions are run, through the cache, until the routine's last one has been. */
  method CallItoa(cpu: Cpu, device: Bus, code: nat, ghost e: Layout)
    requires cpu.Valid() && CalledOn(e, cpu.Abs()) && code == e.code
    modifies cpu.Repr()
    ensures cpu.Valid() && Returned(e, old(cpu.Abs()), cpu.Abs(), false)
  {
    hide CodeLoaded, HasBit, Sound, Returned, Run, Represents, Step, Shows, Ticks, Requested, Admitted;
    ghost var m := cpu.Abs();
    ghost var n := ItoaReturns(e, m);
    ghost var seen: seq<Event> := [];
    var done := false;
    RunNothing(m);
    while !done
      invariant cpu.Valid() && !Requested(seen) && cpu.Abs() == Run(m, seen)
      invariant if done then Ticks(seen) == n else Ticks(seen) < n
      decreases n - Ticks(seen)
    {
      Unrequested(m, seen);
      done := cpu.registers[PC] == code + 16 * 66;
      cpu.DecodeNextInstr(device);
      RunMore(m, seen, cpu.served);
      seen := seen + [Tick(cpu.served)];
    }
    Unrequested(m, seen);
  }

  lemma Unrequested(m: State, seen: seq<Event>)
    ensures !Requested(seen) ==> Admitted(m, seen)
  {
  }

  lemma RunNothing(m: State)
    ensures Run(m, []) == m && Ticks([]) == 0 && !Requested([])
  {
  }

  lemma RunMore(m: State, seen: seq<Event>, bus: Bus)
    ensures var more := seen + [Tick(bus)];
      Run(m, more) == Step(Run(m, seen), bus) && Ticks(more) == Ticks(seen) + 1 && Requested(more) == Requested(seen)
  {
    hide Step;
    assert (seen + [Tick(bus)])[..|seen|] == seen;
  }
}
