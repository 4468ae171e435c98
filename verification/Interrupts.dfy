/** The interrupt controller: a queue of interrupt numbers, a mask, the registers a guest writes, and
    the worker thread that delivers, under every interleaving of its steps with the guest's. */
module Interrupts {
  import opened Words
  import opened Lanes

  // Register offsets
  const MASK: int := 0x0
  const REG_INTNUM: int := 0x4
  const REG_INTVEC: int := 0x8
  const ADD_INT: int := 0xc
  const DEL_INT: int := 0x10
  const GET_INT: int := 0x14
  const TRIGGER: int := 0x18
  const JMP_INSTR: int := 0x1c

  const NO_INT: int := 0xffff_ffff

  /** Where the worker is: at the queue; waiting for the mask to lift with a number in hand; past the
      wait; past the check; past masking, about to deliver. */
  datatype Worker =
    | AtQueue
    | AtMask(n: int)
    | Awake(n: int)
    | Checked(n: int)
    | Masked(n: int)

  datatype Outcome = Delivered | Ignored | Dropped

  /** The controller, with the record of what went in and what came out. */
  datatype Controller = Controller(
    interrupts: map<int, int>,
    current: int,
    queue: seq<int>,
    unmasked: bool,
    intnum: int,
    intvec: int,
    worker: Worker,
    enqueued: seq<int>,
    finished: seq<(int, Outcome)>,
    unmasks: nat)

  const START: Controller := Controller(map[], 0, [], false, 0, 0, AtQueue, [], [], 0)

  /** A step of the guest or a device, or of the worker. */
  datatype Step = Raise(n: int) | Write(item: int, val: nat) | Take | Wake | Check | Mask | Deliver

  predicate Within(item: int, reg: int) { reg <= item <= reg + 3 }

  function Enqueue(c: Controller, n: int): Controller {
    c.(queue := c.queue + [n], enqueued := c.enqueued + [n])
  }

  /** `__setitem__`. */
  function Written(c: Controller, item: int, val: nat): Controller {
    if Within(item, MASK) then
      if val == 0 then c.(unmasked := true, unmasks := c.unmasks + 1) else c.(unmasked := false)
    else if Within(item, REG_INTNUM) then c.(intnum := SetWordByte(c.intnum, item - REG_INTNUM, val))
    else if Within(item, REG_INTVEC) then c.(intvec := SetWordByte(c.intvec, item - REG_INTVEC, val))
    else if Within(item, ADD_INT) then
      if val > 0 then c.(interrupts := c.interrupts[c.intnum := c.intvec]) else c
    else if Within(item, DEL_INT) then
      if val > 0 then c.(interrupts := c.interrupts - {c.intnum}) else c
    else if Within(item, GET_INT) then
      if val > 0 then c.(intvec := if c.intnum in c.interrupts then c.interrupts[c.intnum] else NO_INT) else c
    else if Within(item, TRIGGER) then
      if val > 0 then Enqueue(c, c.intnum) else c
    else c
  }

  /** `__getitem__`. */
  function ReadByte(c: Controller, item: int): int {
    if item == MASK + 3 then (if c.unmasked then 0 else 1)
    else if Within(item, REG_INTNUM) then GetWordByte(c.intnum, item - REG_INTNUM)
    else if Within(item, REG_INTVEC) then GetWordByte(c.intvec, item - REG_INTVEC)
    else if item == JMP_INSTR + 3 then 0x19
    else if Within(item, JMP_INSTR + 4) then GetWordByte(c.current, item - (JMP_INSTR + 4))
    else 0
  }

  predicate Enabled(c: Controller, s: Step) {
    match s
    case Raise(_) => true
    case Write(_, _) => true
    case Take => c.worker.AtQueue? && |c.queue| > 0
    case Wake => c.worker.AtMask? && c.unmasked
    case Check => c.worker.Awake?
    case Mask => c.worker.Checked?
    case Deliver => c.worker.Masked?
  }

  function Finish(c: Controller, n: int, o: Outcome): Controller {
    c.(worker := AtQueue, finished := c.finished + [(n, o)])
  }

  /** The last part of the worker's turn: hand the interrupt to the processor if it is registered. */
  function Handled(c: Controller, n: int): Controller {
    if n !in c.interrupts then Finish(c, n, Ignored)
    else Finish(c.(current := c.interrupts[n]), n, Delivered)
  }

  function Next(c: Controller, s: Step): Controller
    requires Enabled(c, s)
  {
    match s
    case Raise(n) => Enqueue(c, n)
    case Write(item, val) => Written(c, item, val)
    case Take => c.(worker := AtMask(c.queue[0]), queue := c.queue[1..])
    case Wake => c.(worker := Awake(c.worker.n))
    case Check =>
      if c.unmasked then c.(worker := Checked(c.worker.n)) else Finish(c, c.worker.n, Dropped)
    case Mask => c.(worker := Masked(c.worker.n), unmasked := false)
    case Deliver => Handled(c, c.worker.n)
  }

  predicate Legal(steps: seq<Step>)
    decreases |steps|, 0
  {
    |steps| == 0 || (Legal(steps[..|steps| - 1]) && Enabled(Reached(steps[..|steps| - 1]), steps[|steps| - 1]))
  }

  function Reached(steps: seq<Step>): Controller
    requires Legal(steps)
    decreases |steps|, 1
  {
    if |steps| == 0 then START else Next(Reached(steps[..|steps| - 1]), steps[|steps| - 1])
  }

  lemma Extends(steps: seq<Step>, s: Step)
    requires Legal(steps) && Enabled(Reached(steps), s)
    ensures Legal(steps + [s]) && Reached(steps + [s]) == Next(Reached(steps), s)
  {
    hide Enabled, Next;
    assert (steps + [s])[..|steps|] == steps;
  }

  // -------- nothing lost, nothing out of order --------

  function InHand(w: Worker): seq<int> { if w.AtQueue? then [] else [w.n] }

  function Numbers(f: seq<(int, Outcome)>): (s: seq<int>)
    ensures |s| == |f|
  {
    seq(|f|, i requires 0 <= i < |f| => f[i].0)
  }

  lemma NumbersGrow(f: seq<(int, Outcome)>, n: int, o: Outcome)
    ensures Numbers(f + [(n, o)]) == Numbers(f) + [n]
  {
  }

  ghost predicate Ordered(c: Controller) {
    c.enqueued == Numbers(c.finished) + InHand(c.worker) + c.queue
  }

  lemma StepOrdered(c: Controller, s: Step)
    requires Ordered(c) && Enabled(c, s)
    ensures Ordered(Next(c, s))
  {
    hide Written, Numbers;
    match s
    case Write(item, val) => WrittenOrder(c, item, val);
    case Check => NumbersGrow(c.finished, c.worker.n, Dropped);
    case Deliver =>
      NumbersGrow(c.finished, c.worker.n, Ignored);
      NumbersGrow(c.finished, c.worker.n, Delivered);
    case _ =>
  }

  /** What went in is what came out, what is in hand and what still waits, in that order. */
  lemma {:induction false} InOrder(steps: seq<Step>)
    requires Legal(steps)
    ensures var c := Reached(steps); c.enqueued == Numbers(c.finished) + InHand(c.worker) + c.queue
  {
    hide Next, Enabled, Numbers, InHand;
    if |steps| == 0 {
      NothingYet();
    } else {
      InOrder(steps[..|steps| - 1]);
      StepOrdered(Reached(steps[..|steps| - 1]), steps[|steps| - 1]);
    }
  }

  lemma NothingYet()
    ensures Ordered(START)
  {
  }

  lemma WrittenOrder(c: Controller, item: int, val: nat)
    ensures var d := Written(c, item, val);
      && d.finished == c.finished && d.worker == c.worker
      && (d == Enqueue(c, c.intnum) || (d.enqueued == c.enqueued && d.queue == c.queue))
  {
    hide SetWordByte;
  }

  function Count(f: seq<(int, Outcome)>, o: Outcome): nat {
    if |f| == 0 then 0 else Count(f[..|f| - 1], o) + if f[|f| - 1].1 == o then 1 else 0
  }

  lemma {:induction false} CountAll(f: seq<(int, Outcome)>)
    ensures Count(f, Delivered) + Count(f, Ignored) + Count(f, Dropped) == |f|
  {
    if |f| != 0 { CountAll(f[..|f| - 1]); }
  }

  /** The books balance in every reachable state. */
  lemma Conserved(steps: seq<Step>)
    requires Legal(steps)
    ensures var c := Reached(steps);
      |c.enqueued| == |c.queue| + |InHand(c.worker)|
        + Count(c.finished, Delivered) + Count(c.finished, Ignored) + Count(c.finished, Dropped)
  {
    InOrder(steps);
    CountAll(Reached(steps).finished);
  }

  /** The numbers delivered, in order. */
  function DeliveredNumbers(f: seq<(int, Outcome)>): seq<int> {
    if |f| == 0 then []
    else DeliveredNumbers(f[..|f| - 1]) + if f[|f| - 1].1.Delivered? then [f[|f| - 1].0] else []
  }

  /** `s` is `t` with some elements left out. */
  predicate Subsequence(s: seq<int>, t: seq<int>) {
    |s| == 0 || (|t| != 0 &&
                 (Subsequence(s, t[..|t| - 1]) || (s[|s| - 1] == t[|t| - 1] && Subsequence(s[..|s| - 1], t[..|t| - 1]))))
  }

  lemma {:induction false} DeliveredAmong(f: seq<(int, Outcome)>)
    ensures Subsequence(DeliveredNumbers(f), Numbers(f))
  {
    if |f| != 0 {
      var g := f[..|f| - 1];
      DeliveredAmong(g);
      assert Numbers(f)[..|f| - 1] == Numbers(g);
      var d := DeliveredNumbers(g);
      if f[|f| - 1].1.Delivered? {
        assert DeliveredNumbers(f)[..|d|] == d;
      } else {
        assert DeliveredNumbers(f) == d;
      }
    }
  }

  lemma {:induction false} SubsequenceLonger(s: seq<int>, t: seq<int>, more: seq<int>)
    requires Subsequence(s, t)
    ensures Subsequence(s, t + more)
    decreases |more|
  {
    if |more| == 0 {
      assert t + more == t;
    } else {
      SubsequenceLonger(s, t, more[..|more| - 1]);
      assert (t + more)[..|t + more| - 1] == t + more[..|more| - 1];
    }
  }

  /** Interrupts reach the processor in the order they were raised. */
  lemma DeliveredInOrder(steps: seq<Step>)
    requires Legal(steps)
    ensures var c := Reached(steps); Subsequence(DeliveredNumbers(c.finished), c.enqueued)
  {
    hide Subsequence, Reached, Legal, DeliveredNumbers, Numbers, InHand;
    InOrder(steps);
    var c := Reached(steps);
    DeliveredAmong(c.finished);
    SubsequenceLonger(DeliveredNumbers(c.finished), Numbers(c.finished), InHand(c.worker) + c.queue);
    assert Numbers(c.finished) + (InHand(c.worker) + c.queue) == c.enqueued;
  }

  // -------- deliveries are paid for with unmask writes --------

  /** Interrupts that got past the mask, and the unmask write that stands or that the worker has
      seen, each have an unmask write of their own. */
  predicate Paid(c: Controller) {
    Count(c.finished, Delivered) + Count(c.finished, Ignored)
    + (if c.worker.Masked? then 1 else 0) + (if c.unmasked || c.worker.Checked? then 1 else 0) <= c.unmasks
  }

  lemma CountGrows(f: seq<(int, Outcome)>, n: int, o: Outcome, p: Outcome)
    ensures Count(f + [(n, o)], p) == Count(f, p) + if p == o then 1 else 0
  {
    assert (f + [(n, o)])[..|f|] == f;
  }

  lemma FinishCounts(c: Controller, n: int, o: Outcome)
    ensures var f := Finish(c, n, o).finished;
      && Count(f, Delivered) == Count(c.finished, Delivered) + (if o.Delivered? then 1 else 0)
      && Count(f, Ignored) == Count(c.finished, Ignored) + (if o.Ignored? then 1 else 0)
  {
    hide Count;
    CountGrows(c.finished, n, o, Delivered);
    CountGrows(c.finished, n, o, Ignored);
  }

  lemma StepPaid(c: Controller, s: Step)
    requires Paid(c) && Enabled(c, s)
    ensures Paid(Next(c, s))
  {
    hide Written, Count;
    match s
    case Write(item, val) => WrittenPaid(c, item, val);
    case Check => FinishCounts(c, c.worker.n, Dropped);
    case Deliver =>
      FinishCounts(c, c.worker.n, Ignored);
      if c.worker.n in c.interrupts {
        FinishCounts(c.(current := c.interrupts[c.worker.n]), c.worker.n, Delivered);
      }
    case _ =>
  }

  lemma WrittenPaid(c: Controller, item: int, val: nat)
    ensures var d := Written(c, item, val);
      && d.finished == c.finished && d.worker == c.worker
      && ((d.unmasked && d.unmasks == c.unmasks + 1) || (d.unmasks == c.unmasks && (d.unmasked ==> c.unmasked)))
  {
    hide SetWordByte;
  }

  /** However the mask is written meanwhile, no more interrupts get past it than there were unmask
      writes. */
  lemma {:induction false} DeliveriesPaid(steps: seq<Step>)
    requires Legal(steps)
    ensures var c := Reached(steps); Count(c.finished, Delivered) + Count(c.finished, Ignored) <= c.unmasks
    ensures Paid(Reached(steps))
  {
    hide Next, Enabled, Count;
    if |steps| == 0 {
      NothingPaid();
    } else {
      DeliveriesPaid(steps[..|steps| - 1]);
      StepPaid(Reached(steps[..|steps| - 1]), steps[|steps| - 1]);
    }
  }

  lemma NothingPaid()
    ensures Paid(START)
  {
  }

  /** The unmask writes among the steps. */
  function UnmaskWrites(steps: seq<Step>): nat {
    if |steps| == 0 then 0
    else
      var s := steps[|steps| - 1];
      UnmaskWrites(steps[..|steps| - 1]) + if s.Write? && Within(s.item, MASK) && s.val == 0 then 1 else 0
  }

  lemma {:induction false} UnmasksCounted(steps: seq<Step>)
    requires Legal(steps)
    ensures Reached(steps).unmasks == UnmaskWrites(steps)
  {
    hide SetWordByte;
    if |steps| != 0 { UnmasksCounted(steps[..|steps| - 1]); }
  }

  /** So deliveries never exceed the guest's unmask writes. */
  lemma DeliveriesBounded(steps: seq<Step>)
    requires Legal(steps)
    ensures Count(Reached(steps).finished, Delivered) <= UnmaskWrites(steps)
  {
    hide Reached, Legal, Count, UnmaskWrites;
    DeliveriesPaid(steps);
    UnmasksCounted(steps);
  }

  // -------- the guest's registers --------

  /** Every register is a 32-bit word. */
  predicate Narrow(c: Controller) {
    && 0 <= c.intnum < WORD && 0 <= c.intvec < WORD && 0 <= c.current < WORD
    && (forall n :: n in c.interrupts ==> 0 <= c.interrupts[n] < WORD)
  }

  lemma SetNarrow(num: int, i: nat, v: nat)
    requires 0 <= num < WORD && i < 4
    ensures 0 <= SetWordByte(num, i, v) < WORD
  {
    hide SetWordByte, Smeared, Join, Split;
    assert Pow2(32) == WORD by { Pow2Values(); }
    JoinSplit(num, 4);
    WordByteSet(Split(num, 4), i, v);
    JoinBound(Smeared(Split(num, 4), i, v % 256));
  }

  lemma JoinBound(l: seq<Byte>)
    requires |l| == 4
    ensures 0 <= Join(l) < WORD
  {
    var m := l[..3];
    assert m[..2] == l[..2] && m[..2][..1] == l[..1] && m[..2][..1][..0] == [];
    assert Join(l[..1]) == l[0];
    assert Join(m[..2]) == 256 * (l[0] as int) + l[1];
  }

  lemma WrittenNarrow(c: Controller, item: int, val: nat)
    requires Narrow(c)
    ensures Narrow(Written(c, item, val))
  {
    hide SetWordByte;
    if Within(item, REG_INTNUM) { SetNarrow(c.intnum, item - REG_INTNUM, val); }
    if Within(item, REG_INTVEC) { SetNarrow(c.intvec, item - REG_INTVEC, val); }
  }

  lemma {:induction false} AllNarrow(steps: seq<Step>)
    requires Legal(steps)
    ensures Narrow(Reached(steps))
  {
    hide Written;
    if |steps| != 0 {
      var s := steps[|steps| - 1];
      AllNarrow(steps[..|steps| - 1]);
      if s.Write? { WrittenNarrow(Reached(steps[..|steps| - 1]), s.item, s.val); }
    }
  }

  /** The four bytes of a word stored at a register, in ascending order. */
  function WordWritten(c: Controller, reg: int, w: int): Controller {
    var p := Packed(w);
    Written(Written(Written(Written(c, reg, p[0]), reg + 1, p[1]), reg + 2, p[2]), reg + 3, p[3])
  }

  lemma NumberWritten(c: Controller, n: int)
    ensures WordWritten(c, REG_INTNUM, n) == c.(intnum := StoredWord(c.intnum, n))
  {
    hide SetWordByte, Packed;
  }

  lemma VectorWritten(c: Controller, v: int)
    ensures WordWritten(c, REG_INTVEC, v) == c.(intvec := StoredWord(c.intvec, v))
  {
    hide SetWordByte, Packed;
  }

  /** The mask at 0 to 3: a zero lifts it and the write is counted, anything else puts it up; it is read
      back at 3 alone. */
  lemma MaskWritten(c: Controller, i: nat, val: nat)
    requires i < 4
    ensures var d := Written(c, i, val);
      && d == c.(unmasked := val == 0, unmasks := c.unmasks + if val == 0 then 1 else 0)
      && ReadByte(d, i) == if i == 3 && val != 0 then 1 else 0
  {
  }

  /** The add registers at 0x0c to 0x0f register the vector for the number, and do nothing else. */
  lemma AddWritten(c: Controller, i: nat, val: nat)
    requires i < 4
    ensures Written(c, 0x0c + i, val) ==
      if val == 0 then c else c.(interrupts := Written(c, 0x0c + i, val).interrupts)
    ensures val > 0 ==> forall n, v :: (n, v) in Written(c, 0x0c + i, val).interrupts.Items <==>
      if n == c.intnum then v == c.intvec else (n, v) in c.interrupts.Items
  {
  }

  /** The delete registers at 0x10 to 0x13 remove the number alone. */
  lemma DeleteWritten(c: Controller, i: nat, val: nat)
    requires i < 4
    ensures Written(c, 0x10 + i, val) ==
      if val == 0 then c else c.(interrupts := Written(c, 0x10 + i, val).interrupts)
    ensures val > 0 ==> forall n, v :: (n, v) in Written(c, 0x10 + i, val).interrupts.Items <==>
      n != c.intnum && (n, v) in c.interrupts.Items
  {
  }

  /** The get registers at 0x14 to 0x17 fetch the vector of the number, or the sentinel. */
  lemma GetWritten(c: Controller, i: nat, val: nat)
    requires i < 4
    ensures Written(c, 0x14 + i, val) == if val == 0 then c else c.(intvec := Written(c, 0x14 + i, val).intvec)
    ensures val > 0 && c.intnum in c.interrupts ==> Written(c, 0x14 + i, val).intvec == c.interrupts[c.intnum]
    ensures val > 0 && c.intnum !in c.interrupts ==> Written(c, 0x14 + i, val).intvec == 0xffff_ffff
  {
  }

  /** The trigger registers at 0x18 to 0x1b put the number behind what waits; past them, and below the
      first, nothing is written. */
  lemma TriggerWritten(c: Controller, i: nat, val: nat)
    requires i < 4
    ensures Written(c, 0x18 + i, val) ==
      if val == 0 then c else c.(queue := c.queue + [c.intnum], enqueued := c.enqueued + [c.intnum])
    ensures forall item :: item < 0 || item >= 0x1c ==> Written(c, item, val) == c
  {
  }

  /** A register sets the byte of the number at 4 to 7 and of the vector at 8 to 0xb. */
  lemma BytesWritten(c: Controller, i: nat, val: nat)
    requires i < 4
    ensures Written(c, 0x04 + i, val) == c.(intnum := SetWordByte(c.intnum, i, val))
    ensures Written(c, 0x08 + i, val) == c.(intvec := SetWordByte(c.intvec, i, val))
  {
    hide SetWordByte;
  }

  /** A guest that stores a number and a handler address as words and then sets any byte of the add
      register registers the low halves of both: the handler meant, exactly when both are below 2^16. */
  lemma HandlerRegistered(steps: seq<Step>, n: int, v: int, i: nat, val: nat)
    requires Legal(steps) && 0 <= n < WORD && 0 <= v < WORD && i < 4 && val > 0
    ensures var c := Reached(steps);
      var d := Written(WordWritten(WordWritten(c, REG_INTNUM, n), REG_INTVEC, v), 0x0c + i, val);
      && d == c.(interrupts := c.interrupts[n % 0x1_0000 := v % 0x1_0000], intnum := n % 0x1_0000,
                 intvec := v % 0x1_0000)
      && (d.intnum == n && n in d.interrupts && d.interrupts[n] == v <==> n < 0x1_0000 && v < 0x1_0000)
  {
    hide StoredWord, WordWritten;
    AllNarrow(steps);
    var c := Reached(steps);
    NumberWritten(c, n);
    VectorWritten(c.(intnum := n % 0x1_0000), v);
    StoredHalf(c.intnum, n);
    StoredHalf(c.intvec, v);
  }

  // -------- what the processor fetches at the interrupt entry --------

  function Instruction(c: Controller): (b: seq<int>)
    ensures |b| == 16
  {
    seq(16, i => ReadByte(c, JMP_INSTR + i))
  }

  lemma WordBytes(w: int, i: nat)
    requires 0 <= w < WORD && i < 4
    ensures GetWordByte(w, i) == Packed(w)[i]
  {
    hide And;
    Pow2Values();
    assert Pow2(0) == 1;
    AndLow(w / Pow2(8 * (3 - i)), 8);
  }

  lemma InstructionBytes(c: Controller)
    requires 0 <= c.current < WORD
    ensures Instruction(c) == Packed(0x19) + Packed(c.current) + [0, 0, 0, 0, 0, 0, 0, 0]
  {
    hide GetWordByte, Packed;
    var want := Packed(0x19) + Packed(c.current) + [0, 0, 0, 0, 0, 0, 0, 0];
    JumpOpcode();
    forall i | 0 <= i < 16 ensures ReadByte(c, JMP_INSTR + i) == want[i] {
      if 4 <= i < 8 { WordBytes(c.current, i - 4); }
    }
  }

  lemma JumpOpcode()
    ensures Packed(0x19) == [0, 0, 0, 0x19]
  {
  }

  /** At the last line of the worker's turn: the sixteen bytes the guest's vector jumps to are the
      instruction `jmp` to the handler registered for the interrupt delivered. */
  lemma HandlerEntered(steps: seq<Step>)
    requires Legal(steps) && Reached(steps).worker.Masked? && Reached(steps).worker.n in Reached(steps).interrupts
    ensures var c := Reached(steps); var d := Next(c, Deliver);
      && d.finished == c.finished + [(c.worker.n, Delivered)]
      && Instruction(d) == Packed(0x19) + Packed(c.interrupts[c.worker.n]) + [0, 0, 0, 0, 0, 0, 0, 0]
  {
    hide Instruction, Packed;
    AllNarrow(steps);
    InstructionBytes(Next(Reached(steps), Deliver));
  }

  /** The get register leaves the handler of the number asked for, or the sentinel, to be read byte
      by byte. */
  lemma HandlerRead(steps: seq<Step>, i: nat, j: nat, val: nat)
    requires Legal(steps) && i < 4 && j < 4 && val > 0
    ensures var c := Reached(steps);
      ReadByte(Written(c, 0x14 + j, val), 0x08 + i)
      == Packed(if c.intnum in c.interrupts then c.interrupts[c.intnum] else NO_INT)[i]
  {
    hide GetWordByte, Packed;
    AllNarrow(steps);
    WordBytes(Written(Reached(steps), 0x14 + j, val).intvec, i);
  }

  /** What every register reads as: the mask flag at 3, the number at 4, the vector at 8, the jump at
      0x1c, and zero elsewhere. */
  lemma RegistersRead(steps: seq<Step>, i: nat)
    requires Legal(steps) && i < 4
    ensures var c := Reached(steps);
      && ReadByte(c, i) == (if i == 3 && !c.unmasked then 1 else 0)
      && ReadByte(c, 0x04 + i) == Packed(c.intnum)[i] && ReadByte(c, 0x08 + i) == Packed(c.intvec)[i]
      && ReadByte(c, 0x1c + i) == Packed(0x19)[i] && ReadByte(c, 0x20 + i) == Packed(c.current)[i]
    ensures forall item :: item < 0 || 0x0c <= item < 0x1c || item >= 0x24 ==> ReadByte(Reached(steps), item) == 0
  {
    hide GetWordByte, Packed;
    AllNarrow(steps);
    JumpOpcode();
    WordBytes(Reached(steps).intnum, i);
    WordBytes(Reached(steps).intvec, i);
    WordBytes(Reached(steps).current, i);
  }

  /** A number removed is ignored from then on, and only that number. */
  lemma HandlerRemoved(c: Controller, n: int, i: nat, val: nat)
    requires i < 4 && val > 0
    ensures var d := Written(c, 0x10 + i, val);
      && Handled(d, n).finished
         == c.finished + [(n, if n in c.interrupts && n != c.intnum then Delivered else Ignored)]
      && (n in c.interrupts && n != c.intnum ==> Handled(d, n).current == c.interrupts[n])
  {
  }

  // -------- the controller as an object --------

  class InterruptController {
    var interrupts: map<int, int>
    var current: int
    var pending: seq<int>
    var unmasked: bool
    var regIntnum: int
    var regIntvec: int
    var worker: Worker          // the worker thread's place in its loop
    ghost var enqueued: seq<int>
    ghost var finished: seq<(int, Outcome)>
    ghost var unmasks: nat

    ghost function Abs(): Controller
      reads this
    {
      Controller(interrupts, current, pending, unmasked, regIntnum, regIntvec, worker, enqueued, finished, unmasks)
    }

    constructor ()
      ensures Abs() == START
    {
      interrupts, current, pending, unmasked := map[], 0, [], false;
      regIntnum, regIntvec, worker := 0, 0, AtQueue;
      enqueued, finished, unmasks := [], [], 0;
    }

    /** From a device's thread, or by the trigger register. */
    method Interrupt(n: int)
      modifies this
      ensures Abs() == Enqueue(old(Abs()), n)
    {
      pending := pending + [n];
      enqueued := enqueued + [n];
    }

    method GetItem(item: int) returns (b: int)
      ensures b == ReadByte(Abs(), item)
    {
      if item == MASK + 3 {
        b := if unmasked then 0 else 1;
      } else if Within(item, REG_INTNUM) {
        b := GetWordByte(regIntnum, item - REG_INTNUM);
      } else if Within(item, REG_INTVEC) {
        b := GetWordByte(regIntvec, item - REG_INTVEC);
      } else if item == JMP_INSTR + 3 {
        b := 0x19;
      } else if Within(item, JMP_INSTR + 4) {
        b := GetWordByte(current, item - (JMP_INSTR + 4));
      } else {
        b := 0;
      }
    }

    method SetItem(item: int, val: nat)
      modifies this
      ensures Abs() == Written(old(Abs()), item, val)
    {
      if Within(item, MASK) {
        unmasked := val == 0;
        unmasks := if val == 0 then unmasks + 1 else unmasks;
      } else if Within(item, REG_INTNUM) {
        regIntnum := SetWordByte(regIntnum, item - REG_INTNUM, val);
      } else if Within(item, REG_INTVEC) {
        regIntvec := SetWordByte(regIntvec, item - REG_INTVEC, val);
      } else if val > 0 {
        if Within(item, ADD_INT) {
          interrupts := interrupts[regIntnum := regIntvec];
        } else if Within(item, DEL_INT) {
          interrupts := interrupts - {regIntnum};
        } else if Within(item, GET_INT) {
          regIntvec := if regIntnum in interrupts then interrupts[regIntnum] else NO_INT;
        } else if Within(item, TRIGGER) {
          Interrupt(regIntnum);
        }
      }
    }

    // The worker's loop, one atomic piece at a time.

    method Dequeue()
      requires Enabled(Abs(), Take)
      modifies this
      ensures Abs() == Next(old(Abs()), Take)
    {
      worker := AtMask(pending[0]);
      pending := pending[1..];
    }

    method PassMask()
      requires Enabled(Abs(), Wake)
      modifies this
      ensures Abs() == Next(old(Abs()), Wake)
    {
      worker := Awake(worker.n);
    }

    method CheckMask()
      requires Enabled(Abs(), Check)
      modifies this
      ensures Abs() == Next(old(Abs()), Check)
    {
      if unmasked {
        worker := Checked(worker.n);
      } else {
        finished := finished + [(worker.n, Dropped)];
        worker := AtQueue;
      }
    }

    method MaskAll()
      requires Enabled(Abs(), Mask)
      modifies this
      ensures Abs() == Next(old(Abs()), Mask)
    {
      unmasked := false;
      worker := Masked(worker.n);
    }

    /** `delivered`: the processor's `intr` is to be called. */
    method InterruptNoWait() returns (delivered: bool)
      requires Enabled(Abs(), Deliver)
      modifies this
      ensures Abs() == Next(old(Abs()), Deliver)
      ensures delivered <==> old(worker.n) in interrupts
    {
      var n := worker.n;
      delivered := n in interrupts;
      if delivered {
        current := interrupts[n];
        finished := finished + [(n, Delivered)];
      } else {
        finished := finished + [(n, Ignored)];
      }
      worker := AtQueue;
    }

    /** Any schedule of guest, devices and worker: the object goes where the steps go. */
    method Play(steps: seq<Step>)
      requires Abs() == START && Legal(steps)
      modifies this
      ensures Abs() == Reached(steps)
    {
      hide Next, Written, Enqueue, Enabled;
      for i := 0 to |steps|
        invariant Legal(steps[..i]) && Abs() == Reached(steps[..i])
      {
        LegalPrefix(steps, i + 1);
        assert steps[..i + 1][..i] == steps[..i];
        Perform(steps[i]);
      }
      assert steps[..|steps|] == steps;
    }

    method Perform(s: Step)
      requires Enabled(Abs(), s)
      modifies this
      ensures Abs() == Next(old(Abs()), s)
    {
      match s {
        case Raise(n) => Interrupt(n);
        case Write(item, val) => SetItem(item, val);
        case Take => Dequeue();
        case Wake => PassMask();
        case Check => CheckMask();
        case Mask => MaskAll();
        case Deliver => var delivered := InterruptNoWait();
      }
    }
  }

  lemma {:induction false} LegalPrefix(steps: seq<Step>, n: nat)
    requires Legal(steps) && n <= |steps|
    ensures Legal(steps[..n])
  {
    hide Enabled, Reached;
    if n < |steps| {
      LegalPrefix(steps[..|steps| - 1], n);
      assert steps[..|steps| - 1][..n] == steps[..n];
    } else {
      assert steps[..n] == steps;
    }
  }
}
