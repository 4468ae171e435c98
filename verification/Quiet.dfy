/** Runs that read no device: what the devices would have answered does not matter to them. */
module Quiet {
  import opened Words
  import opened Status
  import opened Machine
  import opened Instructions

  /** Two runs that differ at most in what the devices answer. */
  ghost predicate SameEvents(events: seq<Event>, seen: seq<Event>) {
    |events| == |seen| && forall i :: 0 <= i < |events| ==> events[i].Tick? == seen[i].Tick?
  }

  /** No byte of the word at an address is a device's. */
  predicate NoDevice(a: int) { !IsDevice(a) && !IsDevice(a + 1) && !IsDevice(a + 2) && !IsDevice(a + 3) }

  /** The next word of the instruction is not fetched from a device. */
  predicate QuietFetch(m: State) { NoDevice(m.regs[PC]) }

  /** Nor does the instruction load from one. */
  predicate QuietLoad(m: State, opcode: int, b: int) {
    0 <= opcode < OPCODES ==>
      match Decode(opcode)
      case LoadW => NoDevice(b)
      case LoadB => !IsDevice(b)
      case LoadWR => NoDevice(Val(m, b))
      case LoadBR => !IsDevice(Val(m, b))
      case _ => true
  }

  predicate QuietStep(m: State, bus: Bus) {
    && QuietFetch(m) && QuietFetch(Fetched(m, 1, bus))
    && QuietFetch(Fetched(m, 2, bus)) && QuietFetch(Fetched(m, 3, bus))
    && QuietLoad(Fetched(m, 4, bus), Fetched(m, 1, bus).regs[RSVD], Fetched(m, 3, bus).regs[RSVD])
  }

  predicate QuietRun(m: State, events: seq<Event>) {
    |events| == 0 ||
    (&& QuietRun(m, events[..|events| - 1])
     && (events[|events| - 1].Tick? ==> QuietStep(Run(m, events[..|events| - 1]), events[|events| - 1].bus)))
  }

  lemma ByteSame(m: State, a: int, s: Bus, t: Bus)
    requires !IsDevice(a)
    ensures ByteAt(m, a, s) == ByteAt(m, a, t)
  {
  }

  lemma LaneSame(m: State, r: int, a: int, scale: int, s: Bus, t: Bus)
    requires !IsDevice(a)
    ensures LoadLane(m, r, a, scale, s) == LoadLane(m, r, a, scale, t)
  {
    hide ByteAt, Set, Access, IsDevice;
    ByteSame(Look(m, r), a, s, t);
  }

  lemma LoadWordSame(m: State, r: int, a: int, s: Bus, t: Bus)
    requires NoDevice(a)
    ensures LoadWord(m, r, a, s) == LoadWord(m, r, a, t)
  {
    hide ByteAt, Set, Access, LoadLane, Trap;
    ByteSame(m, a, s, t);
    var m1 := Set(Access(m, a), r, ByteAt(m, a, s) * 0x100_0000);
    LaneSame(m1, r, a + 1, 0x1_0000, s, t);
    var m2 := LoadLane(m1, r, a + 1, 0x1_0000, s);
    LaneSame(m2, r, a + 2, 0x100, s, t);
    var m3 := LoadLane(m2, r, a + 2, 0x100, s);
    LaneSame(m3, r, a + 3, 1, s, t);
  }

  lemma LoadByteSame(m: State, r: int, a: int, s: Bus, t: Bus)
    requires !IsDevice(a)
    ensures LoadByte(m, r, a, s) == LoadByte(m, r, a, t)
  {
    hide ByteAt, Set, Access;
    ByteSame(m, a, s, t);
  }

  lemma FetchSame(m: State, s: Bus, t: Bus)
    requires QuietFetch(m)
    ensures FetchWord(m, s) == FetchWord(m, t)
  {
    hide LoadWord, Set;
    LoadWordSame(m, RSVD, m.regs[PC], s, t);
  }

  lemma FetchedSame(m: State, s: Bus, t: Bus)
    requires QuietFetch(m) && QuietFetch(Fetched(m, 1, s))
    requires QuietFetch(Fetched(m, 2, s)) && QuietFetch(Fetched(m, 3, s))
    ensures forall k: nat :: k <= 4 ==> Fetched(m, k, s) == Fetched(m, k, t)
  {
    hide FetchWord, QuietFetch;
    FetchSame(m, s, t);
    FetchSame(Fetched(m, 1, s), s, t);
    FetchSame(Fetched(m, 2, s), s, t);
    FetchSame(Fetched(m, 3, s), s, t);
    assert Fetched(m, 1, s) == Fetched(m, 1, t);
    assert Fetched(m, 2, s) == Fetched(m, 2, t);
    assert Fetched(m, 3, s) == Fetched(m, 3, t);
    assert Fetched(m, 4, s) == Fetched(m, 4, t);
  }

  lemma ExecuteSame(m: State, opcode: int, a: int, b: int, c: int, s: Bus, t: Bus)
    requires 0 <= opcode < OPCODES && QuietLoad(m, opcode, b)
    ensures Execute(m, Decode(opcode), a, b, c, s) == Execute(m, Decode(opcode), a, b, c, t)
  {
    hide Decode, LoadWord, LoadByte, SaveWord, SaveByte, InstallTrap, Arithmetic3, BranchTo, SwapRegs, SetBits, Rfe,
         Intr, Jump, NoDevice, Set;
    match Decode(opcode)
    case LoadW => LoadWordSame(m, a, b, s, t);
    case LoadB => LoadByteSame(m, a, b, s, t);
    case LoadWR => LoadWordSame(Look(m, b), a, Val(m, b), s, t);
    case LoadBR => LoadByteSame(Look(m, b), a, Val(m, b), s, t);
    case _ =>
  }

  lemma StepSame(m: State, s: Bus, t: Bus)
    requires QuietStep(m, s)
    ensures Step(m, s) == Step(m, t)
  {
    hide Execute, Fetched, QuietFetch, QuietLoad, Decode, BadOperands, Recover, Trap;
    FetchedSame(m, s, t);
    var m4, opcode := Fetched(m, 4, s), Fetched(m, 1, s).regs[RSVD];
    assert m4 == Fetched(m, 4, t) && opcode == Fetched(m, 1, t).regs[RSVD];
    assert Fetched(m, 2, s) == Fetched(m, 2, t) && Fetched(m, 3, s) == Fetched(m, 3, t);
    if 0 <= opcode < OPCODES {
      ExecuteSame(m4, opcode, Fetched(m, 2, s).regs[RSVD], Fetched(m, 3, s).regs[RSVD], m4.regs[RSVD], s, t);
    }
  }

  lemma {:induction false} QuietRunSame(m: State, events: seq<Event>, seen: seq<Event>)
    requires QuietRun(m, events) && SameEvents(events, seen)
    ensures Run(m, seen) == Run(m, events)
  {
    hide Step, Intr, QuietStep;
    if |events| != 0 {
      var n := |events| - 1;
      QuietRunSame(m, events[..n], seen[..n]);
      if events[n].Tick? { StepSame(Run(m, events[..n]), events[n].bus, seen[n].bus); }
    }
  }
}
