/** The interrupt and user bits of the status register: three deep, current / previous / old. */
module Status {
  import opened Words

  const MMU_ENABLE: int := 0x8000_0000
  const USER_OLD: int := 0x20
  const INTR_OLD: int := 0x10
  const USER_PREV: int := 0x08
  const INTR_PREV: int := 0x04
  const USER: int := 0x02
  const INTR: int := 0x01

  /** `status & mask`, for a one-bit mask. */
  predicate HasBit(s: int, mask: int)
    requires mask > 0
  {
    (s / mask) % 2 == 1
  }

  /** `status |= mask` or `status &= ~mask`, for a one-bit mask. */
  function SetBit(s: int, mask: int, on: bool): int
    requires mask > 0
  {
    if on == HasBit(s, mask) then s else if on then s + mask else s - mask
  }

  /** What trap entry does to the word: the low four bits move up two places. */
  function Push(s: int): int {
    s - s % 64 + (s % 16) * 4
  }

  /** What `rfe` does: bits 2..5 move down two places, and bits 4..5 also stay where they were. */
  function Pop(s: int): int {
    s - s % 64 + (s % 64) / 4 + (s % 64) / 16 * 16
  }

  /** The six bit assignments of trap entry, in program order: three for the interrupt bits, three
      for the user bits. */
  function PushBits(s: int): int { PushUser(PushIntr(s)) }

  function PushIntr(s: int): int {
    var s1 := SetBit(s, INTR_OLD, HasBit(s, INTR_PREV));
    var s2 := SetBit(s1, INTR_PREV, HasBit(s1, INTR));
    SetBit(s2, INTR, false)
  }

  function PushUser(s: int): int {
    var s1 := SetBit(s, USER_OLD, HasBit(s, USER_PREV));
    var s2 := SetBit(s1, USER_PREV, HasBit(s1, USER));
    SetBit(s2, USER, false)
  }

  /** The four bit assignments of `rfe`, in program order. */
  function PopBits(s: int): int {
    var s1 := SetBit(s, INTR, HasBit(s, INTR_PREV));
    var s2 := SetBit(s1, INTR_PREV, HasBit(s1, INTR_OLD));
    var s3 := SetBit(s2, USER, HasBit(s2, USER_PREV));
    SetBit(s3, USER_PREV, HasBit(s3, USER_OLD))
  }

  /** A status word taken apart: six low bits and the rest. */
  function Assemble(h: int, uo: int, io: int, up: int, ip: int, u: int, i: int): int {
    64 * h + 32 * uo + 16 * io + 8 * up + 4 * ip + 2 * u + i
  }

  predicate IsBit(b: int) { b == 0 || b == 1 }

  lemma BitAt(mask: int, q: int, b: int, r: int)
    requires IsBit(b) && 0 <= r < mask
    ensures HasBit(mask * (2 * q + b) + r, mask) == (b == 1)
  {
    DivideExact(mask, 2 * q + b, r);
  }

  lemma BitsOf(h: int, uo: int, io: int, up: int, ip: int, u: int, i: int)
    requires IsBit(uo) && IsBit(io) && IsBit(up) && IsBit(ip) && IsBit(u) && IsBit(i)
    ensures var s := Assemble(h, uo, io, up, ip, u, i);
      && HasBit(s, INTR) == (i == 1) && HasBit(s, USER) == (u == 1)
      && HasBit(s, INTR_PREV) == (ip == 1) && HasBit(s, USER_PREV) == (up == 1)
      && HasBit(s, INTR_OLD) == (io == 1) && HasBit(s, USER_OLD) == (uo == 1)
      && s / 64 == h
      && s % 64 == 32 * uo + 16 * io + 8 * up + 4 * ip + 2 * u + i
      && s % 16 == 8 * up + 4 * ip + 2 * u + i
  {
    hide HasBit;
    var h5 := 2 * h + uo;
    var h4 := 2 * h5 + io;
    var h3 := 2 * h4 + up;
    var h2 := 2 * h3 + ip;
    var h1 := 2 * h2 + u;
    BitAt(1, h1, i, 0);
    BitAt(2, h2, u, i);
    BitAt(4, h3, ip, 2 * u + i);
    BitAt(8, h4, up, 4 * ip + 2 * u + i);
    BitAt(16, h5, io, 8 * up + 4 * ip + 2 * u + i);
    BitAt(32, h, uo, 16 * io + 8 * up + 4 * ip + 2 * u + i);
    DivideExact(16, h4, 8 * up + 4 * ip + 2 * u + i);
    DivideExact(64, h, 32 * uo + 16 * io + 8 * up + 4 * ip + 2 * u + i);
  }

  lemma TakeApart(s: int) returns (h: int, uo: int, io: int, up: int, ip: int, u: int, i: int)
    ensures IsBit(uo) && IsBit(io) && IsBit(up) && IsBit(ip) && IsBit(u) && IsBit(i)
    ensures s == Assemble(h, uo, io, up, ip, u, i)
  {
    i := s % 2;
    u := (s / 2) % 2;
    ip := (s / 2 / 2) % 2;
    up := (s / 2 / 2 / 2) % 2;
    io := (s / 2 / 2 / 2 / 2) % 2;
    uo := (s / 2 / 2 / 2 / 2 / 2) % 2;
    h := s / 2 / 2 / 2 / 2 / 2 / 2;
  }

  lemma PushAssembled(h: int, uo: int, io: int, up: int, ip: int, u: int, i: int)
    requires IsBit(uo) && IsBit(io) && IsBit(up) && IsBit(ip) && IsBit(u) && IsBit(i)
    ensures Push(Assemble(h, uo, io, up, ip, u, i)) == Assemble(h, up, ip, u, i, 0, 0)
  {
    hide HasBit;
    BitsOf(h, uo, io, up, ip, u, i);
  }

  lemma PopAssembled(h: int, uo: int, io: int, up: int, ip: int, u: int, i: int)
    requires IsBit(uo) && IsBit(io) && IsBit(up) && IsBit(ip) && IsBit(u) && IsBit(i)
    ensures Pop(Assemble(h, uo, io, up, ip, u, i)) == Assemble(h, uo, io, uo, io, up, ip)
  {
    hide HasBit;
    BitsOf(h, uo, io, up, ip, u, i);
    assert (Assemble(h, uo, io, up, ip, u, i) % 64) / 4 == 8 * uo + 4 * io + 2 * up + ip;
  }

  lemma PushIntrAssembled(h: int, uo: int, io: int, up: int, ip: int, u: int, i: int)
    requires IsBit(uo) && IsBit(io) && IsBit(up) && IsBit(ip) && IsBit(u) && IsBit(i)
    ensures PushIntr(Assemble(h, uo, io, up, ip, u, i)) == Assemble(h, uo, ip, up, i, u, 0)
  {
    hide HasBit;
    BitsOf(h, uo, io, up, ip, u, i);
    BitsOf(h, uo, ip, up, ip, u, i);
    BitsOf(h, uo, ip, up, i, u, i);
  }

  lemma PushUserAssembled(h: int, uo: int, io: int, up: int, ip: int, u: int, i: int)
    requires IsBit(uo) && IsBit(io) && IsBit(up) && IsBit(ip) && IsBit(u) && IsBit(i)
    ensures PushUser(Assemble(h, uo, io, up, ip, u, i)) == Assemble(h, up, io, u, ip, 0, i)
  {
    hide HasBit;
    BitsOf(h, uo, io, up, ip, u, i);
    BitsOf(h, up, io, up, ip, u, i);
    BitsOf(h, up, io, u, ip, u, i);
  }

  /** The bit-by-bit assignments of the source are the two shifts, for every status word. */
  lemma PushIsShift(s: int)
    ensures PushBits(s) == Push(s)
  {
    var h, uo, io, up, ip, u, i := TakeApart(s);
    hide PushIntr, PushUser, Push, Assemble;
    PushIntrAssembled(h, uo, io, up, ip, u, i);
    PushUserAssembled(h, uo, ip, up, i, u, 0);
    PushAssembled(h, uo, io, up, ip, u, i);
  }

  lemma PopIsShift(s: int)
    ensures PopBits(s) == Pop(s)
  {
    var h, uo, io, up, ip, u, i := TakeApart(s);
    hide HasBit, Pop;
    BitsOf(h, uo, io, up, ip, u, i);
    BitsOf(h, uo, io, up, ip, u, ip);
    BitsOf(h, uo, io, up, io, u, ip);
    BitsOf(h, uo, io, up, io, up, ip);
    PopAssembled(h, uo, io, up, ip, u, i);
  }

  /** Trap entry leaves interrupts masked and the machine in kernel mode, and saves what was there. */
  lemma PushSaves(s: int)
    ensures !HasBit(Push(s), INTR) && !HasBit(Push(s), USER)
    ensures HasBit(Push(s), INTR_PREV) == HasBit(s, INTR)
    ensures HasBit(Push(s), USER_PREV) == HasBit(s, USER)
    ensures HasBit(Push(s), INTR_OLD) == HasBit(s, INTR_PREV)
    ensures HasBit(Push(s), USER_OLD) == HasBit(s, USER_PREV)
    ensures Push(s) / 64 == s / 64 && (s >= 0 ==> Push(s) >= 0)
  {
    var h, uo, io, up, ip, u, i := TakeApart(s);
    hide HasBit, Push;
    BitsOf(h, uo, io, up, ip, u, i);
    PushAssembled(h, uo, io, up, ip, u, i);
    BitsOf(h, up, ip, u, i, 0, 0);
  }

  lemma PopRestores(s: int)
    ensures HasBit(Pop(s), INTR) == HasBit(s, INTR_PREV)
    ensures HasBit(Pop(s), USER) == HasBit(s, USER_PREV)
    ensures HasBit(Pop(s), INTR_PREV) == HasBit(s, INTR_OLD)
    ensures HasBit(Pop(s), USER_PREV) == HasBit(s, USER_OLD)
    ensures HasBit(Pop(s), INTR_OLD) == HasBit(s, INTR_OLD)
    ensures HasBit(Pop(s), USER_OLD) == HasBit(s, USER_OLD)
    ensures Pop(s) / 64 == s / 64 && (s >= 0 ==> Pop(s) >= 0)
  {
    var h, uo, io, up, ip, u, i := TakeApart(s);
    hide HasBit, Pop;
    BitsOf(h, uo, io, up, ip, u, i);
    PopAssembled(h, uo, io, up, ip, u, i);
    BitsOf(h, uo, io, uo, io, up, ip);
  }

  // -------- the bits as a stack --------

  /** One level: the interrupt bit and the user bit. */
  datatype Level = Level(intr: bool, user: bool)

  const ALL_OFF := Level(false, false)

  function LevelAt(s: int, depth: nat): Level {
    if depth == 0 then Level(HasBit(s, INTR), HasBit(s, USER))
    else if depth == 1 then Level(HasBit(s, INTR_PREV), HasBit(s, USER_PREV))
    else Level(HasBit(s, INTR_OLD), HasBit(s, USER_OLD))
  }

  datatype Turn = Enter | Leave

  /** How deep a sequence of trap entries and returns ends, and the deepest it gets. */
  function Depth(turns: seq<Turn>): int {
    if turns == [] then 0
    else Depth(turns[..|turns| - 1]) + (if turns[|turns| - 1].Enter? then 1 else -1)
  }

  function Peak(turns: seq<Turn>): int {
    if turns == [] then 0
    else var p, d := Peak(turns[..|turns| - 1]), Depth(turns); if d > p then d else p
  }

  predicate Nested(turns: seq<Turn>) {
    turns == [] || (Depth(turns) >= 0 && Nested(turns[..|turns| - 1]))
  }

  function Play(s: int, turns: seq<Turn>): int {
    if turns == [] then s
    else
      var s1 := Play(s, turns[..|turns| - 1]);
      if turns[|turns| - 1].Enter? then Push(s1) else Pop(s1)
  }

  /** While the nesting stays within two, the levels of the word from the top down to where the
      first interrupted level lies are those of an unbounded stack; once it exceeds two, that
      level is gone for good.  The other status bits never move. */
  lemma {:induction false} PlayLevels(s: int, turns: seq<Turn>)
    requires Nested(turns)
    ensures Play(s, turns) / 64 == s / 64
    ensures 0 <= Depth(turns) <= Peak(turns)
    ensures Peak(turns) <= 2 ==> LevelAt(Play(s, turns), Depth(turns)) == LevelAt(s, 0)
    ensures Peak(turns) <= 2 ==>
      forall k: nat :: k < Depth(turns) ==> LevelAt(Play(s, turns), k) == ALL_OFF
    ensures Peak(turns) > 2 ==> forall k: nat :: LevelAt(Play(s, turns), k) == ALL_OFF
  {
    hide HasBit, Push, Pop;
    if turns != [] {
      PlayLevels(s, turns[..|turns| - 1]);
      var s1 := Play(s, turns[..|turns| - 1]);
      PushSaves(s1);
      PopRestores(s1);
      assert LevelAt(s1, 0) == LevelAt(s1, 0) && LevelAt(s1, 1) == LevelAt(s1, 1)
          && LevelAt(s1, 2) == LevelAt(s1, 2);
    }
  }

  /** Every balanced sequence of trap entries and returns gives the interrupted level back exactly
      when it never nests deeper than two (or there was nothing set to lose). */
  lemma StatusStack(s: int, turns: seq<Turn>)
    requires Nested(turns) && Depth(turns) == 0
    ensures LevelAt(Play(s, turns), 0) == LevelAt(s, 0)
            <==> (Peak(turns) <= 2 || LevelAt(s, 0) == ALL_OFF)
  {
    hide LevelAt, Play;
    PlayLevels(s, turns);
  }

  // -------- with handlers that write the bits --------

  /** A trap entry or return, or an instruction that writes the current level. */
  datatype Act = Move(t: Turn) | Top(l: Level)

  function TopSet(s: int, l: Level): int { SetBit(SetBit(s, INTR, l.intr), USER, l.user) }

  /** The entries and returns among the acts. */
  function Turns(acts: seq<Act>): seq<Turn> {
    if acts == [] then []
    else
      var before, a := Turns(acts[..|acts| - 1]), acts[|acts| - 1];
      if a.Move? then before + [a.t] else before
  }

  function Acted(s: int, acts: seq<Act>): int {
    if acts == [] then s
    else
      var s1 := Acted(s, acts[..|acts| - 1]);
      match acts[|acts| - 1]
      case Move(t) => if t.Enter? then Push(s1) else Pop(s1)
      case Top(l) => TopSet(s1, l)
  }

  /** The same acts on a real stack, the current level last: an entry pushes a level that is all off,
      a return drops the top, a write replaces it. */
  function Stack(base: Level, acts: seq<Act>): seq<Level> {
    if acts == [] then [base]
    else
      var st := Stack(base, acts[..|acts| - 1]);
      match acts[|acts| - 1]
      case Move(t) => if t.Enter? then st + [ALL_OFF] else if |st| > 0 then st[..|st| - 1] else st
      case Top(l) => if |st| > 0 then st[..|st| - 1] + [l] else st
  }

  lemma TopSetLevels(s: int, l: Level)
    ensures LevelAt(TopSet(s, l), 0) == l
    ensures LevelAt(TopSet(s, l), 1) == LevelAt(s, 1) && LevelAt(TopSet(s, l), 2) == LevelAt(s, 2)
    ensures TopSet(s, l) / 64 == s / 64
  {
    var h, uo, io, up, ip, u, i := TakeApart(s);
    hide HasBit;
    var i', u' := if l.intr then 1 else 0, if l.user then 1 else 0;
    BitsOf(h, uo, io, up, ip, u, i);
    BitsOf(h, uo, io, up, ip, u, i');
    BitsOf(h, uo, io, up, ip, u', i');
  }

  /** The bits hold the stack: from the top down to the interrupted level. */
  ghost predicate HoldsStack(s: int, st: seq<Level>) {
    forall k: nat :: k < |st| ==> LevelAt(s, k) == st[|st| - 1 - k]
  }

  lemma ActRepresents(s: int, st: seq<Level>, a: Act)
    requires HoldsStack(s, st) && |st| >= 1
    ensures a.Move? && a.t.Enter? && |st| <= 2 ==> HoldsStack(Push(s), st + [ALL_OFF])
    ensures a.Move? && a.t.Leave? && |st| <= 3 ==> HoldsStack(Pop(s), st[..|st| - 1])
    ensures a.Top? && |st| <= 3 ==> HoldsStack(TopSet(s, a.l), st[..|st| - 1] + [a.l])
  {
    hide HasBit, Push, Pop, TopSet;
    PushSaves(s);
    PopRestores(s);
    if a.Top? { TopSetLevels(s, a.l); }
    assert forall k: nat :: k < |st| ==> LevelAt(s, k) == st[|st| - 1 - k];
    assert LevelAt(s, 0) == LevelAt(s, 0) && LevelAt(s, 1) == LevelAt(s, 1) && LevelAt(s, 2) == LevelAt(s, 2);
  }

  /** For all entries, returns and writes in between: as long as the nesting stays within two, the six
      bits are the stack, all of it, and the other status bits never move. */
  lemma {:induction false} StackRefined(s: int, acts: seq<Act>)
    requires Nested(Turns(acts)) && Peak(Turns(acts)) <= 2
    ensures |Stack(LevelAt(s, 0), acts)| == Depth(Turns(acts)) + 1
    ensures HoldsStack(Acted(s, acts), Stack(LevelAt(s, 0), acts))
    ensures Acted(s, acts) / 64 == s / 64
  {
    hide HasBit, Push, Pop, TopSet, HoldsStack, LevelAt;
    if acts == [] {
      assert HoldsStack(s, [LevelAt(s, 0)]) by { BaseRepresented(s); }
    } else {
      var before, a := acts[..|acts| - 1], acts[|acts| - 1];
      var base := LevelAt(s, 0);
      TurnsBefore(acts);
      StackRefined(s, before);
      ActRepresents(Acted(s, before), Stack(base, before), a);
      PushSaves(Acted(s, before));
      PopRestores(Acted(s, before));
      if a.Top? { TopSetLevels(Acted(s, before), a.l); }
    }
  }

  lemma BaseRepresented(s: int)
    ensures HoldsStack(s, [LevelAt(s, 0)])
  {
  }

  lemma TurnsBefore(acts: seq<Act>)
    requires acts != [] && Nested(Turns(acts)) && Peak(Turns(acts)) <= 2
    ensures var before, a := acts[..|acts| - 1], acts[|acts| - 1];
      && Nested(Turns(before)) && Peak(Turns(before)) <= 2 && 0 <= Depth(Turns(before)) && 0 <= Depth(Turns(acts)) <= 2
      && Depth(Turns(acts)) == Depth(Turns(before)) + (if a.Top? then 0 else if a.t.Enter? then 1 else -1)
  {
    var before, a := acts[..|acts| - 1], acts[|acts| - 1];
    if a.Move? {
      assert Turns(acts)[..|Turns(acts)| - 1] == Turns(before);
      NestedDepth(Turns(before));
      NestedDepth(Turns(acts));
    } else {
      NestedDepth(Turns(before));
    }
  }

  lemma {:induction false} NestedDepth(turns: seq<Turn>)
    requires Nested(turns)
    ensures 0 <= Depth(turns) <= Peak(turns)
  {
    if turns != [] { NestedDepth(turns[..|turns| - 1]); }
  }
}
