/** What the assembler emits is what the processor fetches. */
module Linkage {
  import opened Common
  import opened Words
  import opened Status
  import opened Machine
  import opened Instructions
  import opened Fetch
  import Asm = Assembler
  import Grammar

  // -------- where a statement lands --------

  lemma {:induction false} ImagePrefix(p: seq<Asm.Statement>, n: nat, t: Asm.Table)
    requires n <= |p|
    ensures Asm.Offset(p[..n]) <= Asm.Offset(p)
    ensures Asm.Image(p, t)[..Asm.Offset(p[..n])] == Asm.Image(p[..n], t)
  {
    if n == |p| {
      assert p[..n] == p;
    } else {
      var q := p[..|p| - 1];
      ImagePrefix(q, n, t);
      assert q[..n] == p[..n];
      var at := Asm.Offset(p[..n]);
      assert Asm.Image(p, t)[..at] == Asm.Image(q, t)[..at];
    }
  }

  /** The bytes of the k-th statement stand at its offset. */
  lemma StatementAt(p: seq<Asm.Statement>, k: nat, t: Asm.Table)
    requires k < |p|
    ensures var at := Asm.Offset(p[..k]);
      at + Asm.Size(p[k], at) <= |Asm.Image(p, t)| &&
      Asm.Image(p, t)[at..at + Asm.Size(p[k], at)] == Asm.Encode(p[k], at, t)
  {
    hide Asm.Encode;
    var at := Asm.Offset(p[..k]);
    ImagePrefix(p, k + 1, t);
    assert p[..k + 1][..k] == p[..k];
    var upto := Asm.Image(p[..k + 1], t);
    assert upto == Asm.Image(p[..k], t) + Asm.Encode(p[k], at, t);
    assert Asm.Image(p, t)[at..at + Asm.Size(p[k], at)] == upto[at..];
  }

  /** Some reference to a label not in the table stands over the byte. */
  ghost predicate AwaitsLabel(q: seq<Asm.Statement>, t: Asm.Table, j: nat) {
    exists l, i :: l !in t && Covers(Asm.Slots(q, l), i, j)
  }

  predicate Covers(slots: seq<nat>, i: int, j: int) {
    0 <= i < |slots| && slots[i] <= j < slots[i] + 4
  }

  /** While the pass is under way, its output and the final image differ only where a reference to a
      label still undefined stands, and there the output holds zero. */
  lemma {:induction false} MidRun(q: seq<Asm.Statement>, t: Asm.Table, final: Asm.Table, j: nat)
    requires j < Asm.Offset(q) && (forall l :: l in t ==> l in final && final[l] == t[l])
    ensures Asm.Image(q, t)[j] == Asm.Image(q, final)[j]
      || (Asm.Image(q, t)[j] == 0 && AwaitsLabel(q, t, j))
  {
    hide Asm.Encode, Asm.StatementSlots, Asm.Size;
    var p, s := q[..|q| - 1], q[|q| - 1];
    var at := Asm.Offset(p);
    if j < at {
      MidRun(p, t, final, j);
      if Asm.Image(p, t)[j] != Asm.Image(p, final)[j] {
        var l, i :| l !in t && Covers(Asm.Slots(p, l), i, j);
        assert Covers(Asm.Slots(q, l), i, j);
      }
    } else {
      assert Asm.Image(q, t)[j] == Asm.Encode(s, at, t)[j - at];
      assert Asm.Image(q, final)[j] == Asm.Encode(s, at, final)[j - at];
      if Asm.Encode(s, at, t)[j - at] != Asm.Encode(s, at, final)[j - at] {
        var l, i := MidStatement(s, at, t, final, j - at);
        var n := |Asm.Slots(p, l)|;
        assert Asm.Slots(q, l)[n + i] == Asm.StatementSlots(s, at, l)[i];
        assert Covers(Asm.Slots(q, l), n + i, j);
      }
    }
  }

  lemma MidStatement(s: Asm.Statement, at: nat, t: Asm.Table, final: Asm.Table, j: nat) returns (l: string, i: nat)
    requires j < Asm.Size(s, at) && (forall l :: l in t ==> l in final && final[l] == t[l])
    requires Asm.Encode(s, at, t)[j] != Asm.Encode(s, at, final)[j]
    ensures l !in t && i < |Asm.StatementSlots(s, at, l)| && Asm.Encode(s, at, t)[j] == 0
    ensures Asm.StatementSlots(s, at, l)[i] <= at + j < Asm.StatementSlots(s, at, l)[i] + 4
  {
    hide Packed, Asm.EncodeOperands, Asm.OperandSlots;
    l, i := MidOperand(s.operands, at + 4, t, final, j - 4);
  }

  lemma {:induction false} MidOperand(xs: seq<Asm.Operand>, at: nat, t: Asm.Table, final: Asm.Table, j: int)
    returns (l: string, i: nat)
    requires 0 <= j < 4 * |xs| && (forall l :: l in t ==> l in final && final[l] == t[l])
    requires Asm.EncodeOperands(xs, t)[j] != Asm.EncodeOperands(xs, final)[j]
    ensures l !in t && i < |Asm.OperandSlots(xs, at, l)| && Asm.EncodeOperands(xs, t)[j] == 0
    ensures Asm.OperandSlots(xs, at, l)[i] <= at + j < Asm.OperandSlots(xs, at, l)[i] + 4
  {
    var n := |xs| - 1;
    if j < 4 * n {
      l, i := MidOperand(xs[..n], at, t, final, j);
    } else {
      l, i := xs[n].id, |Asm.OperandSlots(xs[..n], at, xs[n].id)|;
    }
  }

  // -------- assemble, load, fetch --------

  /** The k-th word of an instruction: the opcode, then the operands, then zeros. */
  function EmittedWord(s: Asm.Statement, t: Asm.Table, j: nat): int
    requires s.Instr?
  {
    if j == 0 then s.opcode
    else if j <= |s.operands| then Asm.Resolve(s.operands[j - 1], t)
    else 0
  }

  lemma {:induction false} OperandWord(xs: seq<Asm.Operand>, t: Asm.Table, j: nat)
    requires j < |xs|
    ensures Asm.EncodeOperands(xs, t)[4 * j..4 * j + 4] == Packed(Asm.Resolve(xs[j], t))
  {
    hide Packed;
    var n := |xs| - 1;
    var before, last := Asm.EncodeOperands(xs[..n], t), Packed(Asm.Resolve(xs[n], t));
    assert Asm.EncodeOperands(xs, t) == before + last;
    if j < n {
      OperandWord(xs[..n], t, j);
      assert (before + last)[4 * j..4 * j + 4] == before[4 * j..4 * j + 4];
    } else {
      assert (before + last)[4 * n..4 * n + 4] == last;
    }
  }

  lemma InstrBytes(s: Asm.Statement, at: nat, t: Asm.Table, j: nat)
    requires s.Instr? && |s.operands| <= 3 && j < 4
    ensures Asm.Size(s, at) == 16
    ensures Asm.Encode(s, at, t)[4 * j..4 * j + 4] == Packed(EmittedWord(s, t, j))
  {
    hide Packed, Asm.EncodeOperands;
    var e := Asm.Encode(s, at, t);
    var xs := Asm.EncodeOperands(s.operands, t);
    if j == 0 {
      assert e[0..4] == Packed(s.opcode);
    } else if j <= |s.operands| {
      OperandWord(s.operands, t, j - 1);
      assert e[4 * j..4 * j + 4] == xs[4 * (j - 1)..4 * (j - 1) + 4];
    } else {
      assert e[4 * j..4 * j + 4] == [0, 0, 0, 0];
      PackedZero();
    }
  }

  /** A statement the parser can deliver: its operands are as many as the mnemonic takes. */
  predicate Parsed(s: Asm.Statement) {
    s.Instr? ==> 0 <= s.opcode < OPCODES && |s.operands| == |Grammar.InstOp(s.opcode).1|
  }

  /** The argument list the processor builds from the fetched words. */
  function Arguments(op: Op, a: int, b: int, c: int): seq<int> {
    var k := ArgTypes(op);
    (if k.0.None? then [] else [a]) + (if k.1.None? then [] else [b]) + (if k.2.None? then [] else [c])
  }

  /** RAM holds n bytes of an image loaded at 0, those from `at`; the rest of it may have changed. */
  predicate Carries(ram: seq<Byte>, image: seq<Byte>, at: nat, n: nat) {
    at + n <= |ram| && at + n <= |image| && ram[at..at + n] == image[at..at + n]
  }

  lemma {:induction false} OperandsFit(p: seq<Asm.Statement>, k: nat, i: nat)
    requires Asm.Clean(p) && Asm.Resolved(p) && k < |p| && p[k].Instr? && i < |p[k].operands|
    ensures Asm.Fits(Asm.Resolve(p[k].operands[i], Asm.Labels(p)))
  {
    hide Asm.Labels;
    var x := p[k].operands[i];
    assert x in p[k].operands;
    assert Asm.Encodable(p[k]);
    if x.Name? {
      assert Asm.Refers(p[k], x.id);
      assert Asm.Referred(p, x.id);
    }
  }

  lemma EmittedAt(image: seq<Byte>, p: seq<Asm.Statement>, k: nat, j: nat)
    requires Asm.TwoPass(p) == Some(image) && k < |p| && p[k].Instr? && |p[k].operands| <= 3 && j < 4
    ensures var at := Asm.Offset(p[..k]);
      && at + 16 <= |image|
      && image[at + 4 * j..at + 4 * j + 4] == Packed(EmittedWord(p[k], Asm.Labels(p), j))
  {
    hide Packed, Asm.Image, Asm.Encode, Asm.Labels, EmittedWord, Asm.Clean, Asm.Resolved, Asm.Offset;
    var t, at := Asm.Labels(p), Asm.Offset(p[..k]);
    assert image == Asm.Image(p, t);
    StatementAt(p, k, t);
    InstrBytes(p[k], at, t, j);
    assert image[at..at + 16] == Asm.Encode(p[k], at, t);
    assert image[at + 4 * j..at + 4 * j + 4] == image[at..at + 16][4 * j..4 * j + 4];
  }

  /** Part of what is carried is carried. */
  lemma CarriesPart(ram: seq<Byte>, image: seq<Byte>, at: nat, n: nat, i: nat, k: nat)
    requires Carries(ram, image, at, n) && i + k <= n
    ensures Carries(ram, image, at + i, k)
  {
    SlicePart(ram, at, n, i, k);
    SlicePart(image, at, n, i, k);
  }

  lemma SlicePart(s: seq<Byte>, at: nat, n: nat, i: nat, k: nat)
    requires at + n <= |s| && i + k <= n
    ensures s[at + i..at + i + k] == s[at..at + n][i..i + k]
  {
    var part := s[at..at + n][i..i + k];
    assert forall x :: 0 <= x < k ==> part[x] == s[at + i + x];
  }

  /** For every program that assembles, loaded at 0: at each instruction's offset, as long as its own
      bytes stand, the processor fetches its opcode, its operands with every label resolved, and
      zeros. */
  lemma FetchAssembled(p: seq<Asm.Statement>, image: seq<Byte>, k: nat, m: State, bus: Bus)
    requires Asm.TwoPass(p) == Some(image) && k < |p| && p[k].Instr? && |p[k].operands| <= 3
    requires Carries(m.ram, image, Asm.Offset(p[..k]), 16) && Asm.Offset(p[..k]) + 16 <= LOWEST_DEVICE
    requires m.regs[PC] == Asm.Offset(p[..k]) && !MmuOn(m)
    ensures Fetchable(m)
    ensures forall j :: 0 <= j < 4 ==> InstrWord(m, j, bus) == EmittedWord(p[k], Asm.Labels(p), j)
  {
    hide Packed, WordFetchable, InstrWord, HasBit, Asm.Image, Asm.Labels, EmittedWord, Asm.Clean, Asm.Resolved;
    var at := Asm.Offset(p[..k]);
    forall j: nat | j < 4
      ensures InstrWord(m, j, bus) == EmittedWord(p[k], Asm.Labels(p), j) && WordFetchable(m, j)
    {
      EmittedAt(image, p, k, j);
      EmittedFits(p, k, j);
      CarriesPart(m.ram, image, at, 16, 4 * j, 4);
      RamInstrWord(m, j, EmittedWord(p[k], Asm.Labels(p), j), bus);
    }
  }

  lemma EmittedFits(p: seq<Asm.Statement>, k: nat, j: nat)
    requires Asm.Clean(p) && Asm.Resolved(p) && k < |p| && p[k].Instr?
    ensures 0 <= EmittedWord(p[k], Asm.Labels(p), j) <= MAXVAL
  {
    hide Asm.Labels;
    assert Asm.Encodable(p[k]);
    if 1 <= j <= |p[k].operands| { OperandsFit(p, k, j - 1); }
  }

  /** And the arguments handed to the instruction are exactly the operands the parser saw. */
  lemma ArgumentsAssembled(p: seq<Asm.Statement>, k: nat)
    requires k < |p| && p[k].Instr? && Parsed(p[k])
    ensures var s, t := p[k], Asm.Labels(p);
      Arguments(Decode(s.opcode), EmittedWord(s, t, 1), EmittedWord(s, t, 2), EmittedWord(s, t, 3))
      == seq(|s.operands|, i requires 0 <= i < |s.operands| => Asm.Resolve(s.operands[i], t))
  {
    hide Decode, Asm.Labels, Asm.Resolve;
    var s := p[k];
    Grammar.TablesAgree(s.opcode);
    NoneLast(Decode(s.opcode));
  }

  /** Unused operand positions come last. */
  lemma NoneLast(op: Op)
    ensures var k := ArgTypes(op); (k.0.None? ==> k.1.None?) && (k.1.None? ==> k.2.None?)
  {
  }
}
