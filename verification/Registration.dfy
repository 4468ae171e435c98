/** A guest that sets up an interrupt handler: four stores executed by the processor, as the interrupt
    controller receives them. */
module Registration {
  import opened Words
  import opened Status
  import opened Machine
  import opened Instructions
  import opened Invariants
  import opened Fetch
  import opened Meanings
  import opened Transfers
  import opened Handlers
  import Lanes
  import I = Interrupts

  /** The controller after the bytes sent to devices. */
  function Fed(c: I.Controller, bytes: seq<(int, Byte)>): I.Controller {
    if |bytes| == 0 then c
    else
      var d, x := Fed(c, bytes[..|bytes| - 1]), bytes[|bytes| - 1];
      if CONTROLLER <= x.0 <= CONTROLLER + 0x30 then I.Written(d, x.0 - CONTROLLER, x.1) else d
  }

  lemma {:induction false} FedMore(c: I.Controller, old_: seq<(int, Byte)>, new_: seq<(int, Byte)>)
    ensures Fed(c, old_ + new_) == Fed(Fed(c, old_), new_)
    decreases |new_|
  {
    hide I.Written;
    if |new_| == 0 {
      assert old_ + new_ == old_;
    } else {
      FedMore(c, old_, new_[..|new_| - 1]);
      assert (old_ + new_)[..|old_ + new_| - 1] == old_ + new_[..|new_| - 1];
    }
  }

  /** A word stored at a register arrives as its four bytes in ascending order. */
  lemma FedWord(c: I.Controller, reg: nat, w: int)
    requires reg <= 0x20
    ensures Fed(c, ToDevices(CONTROLLER + reg, Packed(w))) == I.WordWritten(c, reg, w)
  {
    hide I.Written, Packed;
    var p, a := Packed(w), CONTROLLER + reg;
    assert p[..3][..2] == p[..2] && p[..2][..1] == p[..1] && p[..1][..0] == [] && p[..4] == p;
    FedOne(c, p[..0], a);
    FedOne(c, p[..1], a);
    FedOne(c, p[..2], a);
    FedOne(c, p[..3], a);
    FedOne(c, p, a);
  }

  lemma FedOne(c: I.Controller, bs: seq<Byte>, a: int)
    requires CONTROLLER <= a && a + |bs| <= CONTROLLER + 0x24
    ensures Fed(c, ToDevices(a, bs)) ==
      if |bs| == 0 then c
      else I.Written(Fed(c, ToDevices(a, bs[..|bs| - 1])), a + |bs| - 1 - CONTROLLER, bs[|bs| - 1])
  {
    hide I.Written, Fed;
    if |bs| == 0 {
      FedNothing(c);
    } else {
      var k := |bs| - 1;
      FedLast(c, ToDevices(a, bs[..k]), a + k, bs[k]);
      assert IsDevice(a + k);
    }
  }

  lemma FedNothing(c: I.Controller)
    ensures Fed(c, []) == c
  {
  }

  lemma FedLast(c: I.Controller, bytes: seq<(int, Byte)>, a: int, v: Byte)
    requires CONTROLLER <= a <= CONTROLLER + 0x30
    ensures Fed(c, bytes + [(a, v)]) == I.Written(Fed(c, bytes), a - CONTROLLER, v)
  {
    hide I.Written;
    assert (bytes + [(a, v)])[..|bytes|] == bytes;
  }

  /** An immediate store to the controller: only what was sent changes. */
  lemma StoreSent(m: State, word: bool, v: int, addr: int, bus: Bus)
    requires Ready(m) && !MmuOn(m) && Stands(m, if word then 0x09 else 0x0b, v, addr, 0) && Word(v)
    requires CONTROLLER <= addr && addr + 4 <= CONTROLLER + 0x31
    ensures var n := Step(m, bus);
      && Ready(n) && !MmuOn(n) && Sets(m, n, map[]) && n.ram == m.ram && n.vectors == m.vectors
      && n.sent == m.sent + ToDevices(addr, Bytes(word, v))
  {
    hide Step, HasBit, At, Packed, ToDevices;
    RamAt(m, if word then 0x09 else 0x0b, v, addr, 0, bus);
    StoreStep(m, word, true, false, v, addr, 0, bus);
    assert AllMapped(m, addr, |Bytes(word, v)|);
    var n := Step(m, bus);
    assert n.ram == m.ram;
    assert n.vectors == m.vectors;
    StillReady(m, n);
  }

  lemma StillReady(m: State, n: State)
    requires Ready(m) && Sets(m, n, map[])
    ensures Ready(n) && MmuOn(n) == MmuOn(m)
  {
    hide HasBit;
  }

  /** `savewi n &FFFFEFD2`, `savewi v &FFFFEFD6`, `savebi 1 &FFFFEFDA`, `savewi 0 &FFFFEFCE`. */
  predicate SetupAt(ram: seq<Byte>, at: int, n: int, v: int) {
    && Laid(ram, at, 0x09, n, 0xffff_efd2, 0) && Laid(ram, at + 16, 0x09, v, 0xffff_efd6, 0)
    && Laid(ram, at + 32, 0x0b, 1, 0xffff_efda, 0) && Laid(ram, at + 48, 0x09, 0, 0xffff_efce, 0)
  }

  /** What it sends. */
  function SetupBytes(n: int, v: int): seq<(int, Byte)> {
    ToDevices(0xffff_efd2, Packed(n)) + ToDevices(0xffff_efd6, Packed(v)) + ToDevices(0xffff_efda, Bytes(false, 1))
    + ToDevices(0xffff_efce, Packed(0))
  }

  /** The setup the programs open with: after its four steps the processor is past it with nothing else
      changed; and a controller in any reachable state that receives the bytes sent has the handler
      under the number, both cut to 16 bits, and its mask lifted. */
  lemma SetupRuns(m: State, steps: seq<I.Step>, n: int, v: int, buses: seq<Bus>)
    requires Ready(m) && !MmuOn(m) && SetupAt(m.ram, m.regs[PC], n, v) && Word(n) && Word(v) && |buses| == 4
    requires I.Legal(steps)
    ensures var e := Run(m, [Tick(buses[0]), Tick(buses[1]), Tick(buses[2]), Tick(buses[3])]);
      && Ready(e) && e.ram == m.ram && e.vectors == m.vectors
      && (forall r :: 0 <= r < RSVD ==> e.regs[r] == if r == PC then m.regs[PC] + 64 else m.regs[r])
      && m.sent <= e.sent
      && var c, d := I.Reached(steps), Fed(I.Reached(steps), e.sent[|m.sent|..]);
         d == c.(interrupts := c.interrupts[n % 0x1_0000 := v % 0x1_0000], intnum := n % 0x1_0000,
                 intvec := v % 0x1_0000, unmasked := true, unmasks := c.unmasks + 4)
  {
    hide Run, HasBit, SetupAt, Fed, I.Reached, I.Legal, SetupBytes, Ready;
    SetupSends(m, n, v, buses);
    SetupFed(steps, n, v);
    var e := Run(m, [Tick(buses[0]), Tick(buses[1]), Tick(buses[2]), Tick(buses[3])]);
    assert e.sent[|m.sent|..] == SetupBytes(n, v);
  }

  lemma SetupSends(m: State, n: int, v: int, buses: seq<Bus>)
    requires Ready(m) && !MmuOn(m) && SetupAt(m.ram, m.regs[PC], n, v) && Word(n) && Word(v) && |buses| == 4
    ensures var e := Run(m, [Tick(buses[0]), Tick(buses[1]), Tick(buses[2]), Tick(buses[3])]);
      Along(m, e, 4) && e.sent == m.sent + SetupBytes(n, v)
  {
    hide Step, Run, HasBit, Packed, ToDevices, Ready, Laid;
    var m1 := Step(m, buses[0]);
    SetsStep(m, m, true, n, 0xffff_efd2, 0, buses[0]);
    var m2 := Step(m1, buses[1]);
    SetsStep(m, m1, true, v, 0xffff_efd6, 1, buses[1]);
    var m3 := Step(m2, buses[2]);
    SetsStep(m, m2, false, 1, 0xffff_efda, 2, buses[2]);
    SetsStep(m, m3, true, 0, 0xffff_efce, 3, buses[3]);
    FourTicks(m, buses);
  }

  lemma SetupFed(steps: seq<I.Step>, n: int, v: int)
    requires I.Legal(steps) && Word(n) && Word(v)
    ensures var c := I.Reached(steps);
      Fed(c, SetupBytes(n, v)) ==
        c.(interrupts := c.interrupts[n % 0x1_0000 := v % 0x1_0000], intnum := n % 0x1_0000,
           intvec := v % 0x1_0000, unmasked := true, unmasks := c.unmasks + 4)
  {
    hide Packed, ToDevices, Bytes, Fed, I.Reached, I.Legal;
    var c := I.Reached(steps);
    var w1, w2 := ToDevices(0xffff_efd2, Packed(n)), ToDevices(0xffff_efd6, Packed(v));
    var w3, w4 := ToDevices(0xffff_efda, Bytes(false, 1)), ToDevices(0xffff_efce, Packed(0));
    FedMore(c, w1, w2);
    FedMore(c, w1 + w2, w3);
    FedMore(c, w1 + w2 + w3, w4);
    Registered(steps, n, v);
  }

  /** The machine is `k` lines into the setup. */
  predicate Along(m: State, n: State, k: nat) {
    && Ready(n) && !MmuOn(n) && n.ram == m.ram && n.vectors == m.vectors
    && forall r :: 0 <= r < RSVD ==> n.regs[r] == if r == PC then m.regs[PC] + 16 * k else m.regs[r]
  }

  lemma SetsStep(m: State, k: State, word: bool, v: int, addr: int, i: nat, bus: Bus)
    requires Along(m, k, i) && Laid(m.ram, m.regs[PC] + 16 * i, if word then 0x09 else 0x0b, v, addr, 0) && Word(v)
    requires CONTROLLER <= addr && addr + 4 <= CONTROLLER + 0x31
    ensures Along(m, Step(k, bus), i + 1)
    ensures Step(k, bus).sent == k.sent + ToDevices(addr, Bytes(word, v))
  {
    hide Step, HasBit, Packed, ToDevices, Ready, Bytes;
    StoreSent(k, word, v, addr, bus);
  }

  lemma FourTicks(m: State, buses: seq<Bus>)
    requires |buses| == 4
    ensures Run(m, [Tick(buses[0]), Tick(buses[1]), Tick(buses[2]), Tick(buses[3])]) ==
      Step(Step(Step(Step(m, buses[0]), buses[1]), buses[2]), buses[3])
  {
    hide Step;
    var e := [Tick(buses[0]), Tick(buses[1]), Tick(buses[2]), Tick(buses[3])];
    assert e[..3][..2] == e[..2] && e[..2][..1] == e[..1] && e[..1][..0] == [];
    assert Run(m, e[..1]) == Step(m, buses[0]);
    assert Run(m, e[..2]) == Step(Step(m, buses[0]), buses[1]);
    assert Run(m, e[..3]) == Step(Step(Step(m, buses[0]), buses[1]), buses[2]);
  }

  lemma Registered(steps: seq<I.Step>, n: int, v: int)
    requires I.Legal(steps) && Word(n) && Word(v)
    ensures var c := I.Reached(steps);
      var w1, w2 := ToDevices(0xffff_efd2, Packed(n)), ToDevices(0xffff_efd6, Packed(v));
      var w3, w4 := ToDevices(0xffff_efda, Bytes(false, 1)), ToDevices(0xffff_efce, Packed(0));
      Fed(Fed(Fed(Fed(c, w1), w2), w3), w4) ==
        c.(interrupts := c.interrupts[n % 0x1_0000 := v % 0x1_0000], intnum := n % 0x1_0000,
           intvec := v % 0x1_0000, unmasked := true, unmasks := c.unmasks + 4)
  {
    hide I.Written, I.WordWritten, Packed, I.Reached, I.Legal, Fed, ToDevices;
    var c := I.Reached(steps);
    FedWord(c, 0x04, n);
    var c1 := I.WordWritten(c, 0x04, n);
    FedWord(c1, 0x08, v);
    var c2 := I.WordWritten(c1, 0x08, v);
    FedByte(c2, 0x0c, 1);
    I.HandlerRegistered(steps, n, v, 0, 1);
    var c3 := I.Written(c2, 0x0c, 1);
    FedWord(c3, 0x00, 0);
    MaskLifted(c3);
  }

  lemma FedByte(c: I.Controller, reg: nat, v: Byte)
    requires reg <= 0x20
    ensures Fed(c, ToDevices(CONTROLLER + reg, Bytes(false, v))) == I.Written(c, reg, v)
  {
    hide I.Written;
    var bs: seq<Byte> := [v];
    assert bs[..0] == [];
    FedOne(c, bs[..0], CONTROLLER + reg);
    FedOne(c, bs, CONTROLLER + reg);
  }

  lemma MaskLifted(c: I.Controller)
    ensures I.WordWritten(c, 0x00, 0) == c.(unmasked := true, unmasks := c.unmasks + 4)
  {
    hide I.Written;
    PackedZero();
    I.MaskWritten(c, 0, 0);
    var d := I.Written(c, 0, 0);
    I.MaskWritten(d, 1, 0);
    I.MaskWritten(I.Written(d, 1, 0), 2, 0);
    I.MaskWritten(I.Written(I.Written(d, 1, 0), 2, 0), 3, 0);
  }
}
