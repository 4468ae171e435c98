/** The one-pass assembler that patches forward references in place, and the two-pass assembler it
    is compared with.  Statements are as the parser delivers them. */
module Assembler {
  import opened Common
  import opened Words

  datatype Operand = Number(v: int) | Name(id: string)
  datatype Datum = Word(v: int) | Text(bytes: seq<Byte>)
  datatype Statement =
    | Align(unit: nat)
    | Zero(count: nat)
    | Data(items: seq<Datum>)
    | Label(name: string)
    | Instr(opcode: int, operands: seq<Operand>)

  type Table = map<string, int>

  predicate Fits(v: int) { 0 <= v <= MAXVAL }

  function Zeros(n: nat): (z: seq<Byte>)
    ensures |z| == n
  {
    seq(n, _ => 0)
  }

  // -------- two passes --------

  /** Alignment always emits something: a full unit when already aligned. */
  function Padding(unit: nat, at: nat): nat {
    if unit == 0 then 0 else unit - at % unit
  }

  function Rest(operands: seq<Operand>): nat {
    if |operands| < 3 then 4 * (3 - |operands|) else 0
  }

  function DataSize(items: seq<Datum>): nat {
    if |items| == 0 then 0
    else DataSize(items[..|items| - 1]) + match items[|items| - 1] { case Word(_) => 4 case Text(b) => |b| }
  }

  function Size(s: Statement, at: nat): nat {
    match s
    case Align(unit) => Padding(unit, at)
    case Zero(count) => count
    case Data(items) => DataSize(items)
    case Label(_) => 0
    case Instr(_, operands) => 4 + 4 * |operands| + Rest(operands)
  }

  function Offset(p: seq<Statement>): nat {
    if |p| == 0 then 0
    else var at := Offset(p[..|p| - 1]); at + Size(p[|p| - 1], at)
  }

  /** Pass one: where every label is. */
  function Labels(p: seq<Statement>): Table {
    if |p| == 0 then map[]
    else
      var t, s := Labels(p[..|p| - 1]), p[|p| - 1];
      if s.Label? then t[s.name := Offset(p[..|p| - 1])] else t
  }

  /** A reference under a table; a name the table does not have counts as zero. */
  function Resolve(x: Operand, t: Table): int {
    match x
    case Number(v) => v
    case Name(l) => if l in t then t[l] else 0
  }

  function EncodeOperands(xs: seq<Operand>, t: Table): (b: seq<Byte>)
    ensures |b| == 4 * |xs|
  {
    if |xs| == 0 then []
    else EncodeOperands(xs[..|xs| - 1], t) + Packed(Resolve(xs[|xs| - 1], t))
  }

  function EncodeData(items: seq<Datum>): (b: seq<Byte>)
    ensures |b| == DataSize(items)
  {
    if |items| == 0 then []
    else EncodeData(items[..|items| - 1]) +
         match items[|items| - 1] { case Word(v) => Packed(v) case Text(b) => b }
  }

  /** Pass two, one statement. */
  function Encode(s: Statement, at: nat, t: Table): (b: seq<Byte>)
    ensures |b| == Size(s, at)
  {
    match s
    case Align(unit) => Zeros(Padding(unit, at))
    case Zero(count) => Zeros(count)
    case Data(items) => EncodeData(items)
    case Label(_) => []
    case Instr(opcode, operands) => Packed(opcode) + EncodeOperands(operands, t) + Zeros(Rest(operands))
  }

  /** Pass two. */
  function Image(p: seq<Statement>, t: Table): (b: seq<Byte>)
    ensures |b| == Offset(p)
  {
    if |p| == 0 then []
    else Image(p[..|p| - 1], t) + Encode(p[|p| - 1], Offset(p[..|p| - 1]), t)
  }

  // -------- which programs assemble --------

  predicate DatumFits(d: Datum) { d.Word? ==> Fits(d.v) }

  /** What one statement must satisfy by itself. */
  predicate Encodable(s: Statement) {
    match s
    case Align(unit) => unit != 0
    case Zero(_) => true
    case Data(items) => forall d :: d in items ==> DatumFits(d)
    case Label(_) => true
    case Instr(opcode, operands) => Fits(opcode) && forall x :: x in operands ==> (x.Number? ==> Fits(x.v))
  }

  predicate AllEncodable(p: seq<Statement>) { forall i :: 0 <= i < |p| ==> Encodable(p[i]) }

  predicate Refers(s: Statement, l: string) { s.Instr? && Name(l) in s.operands }

  predicate Referred(p: seq<Statement>, l: string) { exists i :: 0 <= i < |p| && Refers(p[i], l) }

  predicate Distinct(p: seq<Statement>) {
    forall i, j :: 0 <= i < j < |p| && p[i].Label? && p[j].Label? ==> p[i].name != p[j].name
  }

  /** No exception on the way: every statement encodable, no label twice, and every label that is
      defined and referred to lies below 2^32. */
  ghost predicate Clean(p: seq<Statement>) {
    && AllEncodable(p)
    && Distinct(p)
    && (forall l :: l in Labels(p) && Referred(p, l) ==> Fits(Labels(p)[l]))
  }

  ghost predicate Resolved(p: seq<Statement>) {
    forall l :: Referred(p, l) ==> l in Labels(p)
  }

  /** The reference: collect the labels, then encode everything under them. */
  ghost function TwoPass(p: seq<Statement>): Option<seq<Byte>> {
    if Clean(p) && Resolved(p) then Some(Image(p, Labels(p))) else None
  }

  // -------- pending references --------

  /** Where the references to a label sit among operands that start at `at`. */
  function OperandSlots(xs: seq<Operand>, at: nat, l: string): seq<nat> {
    if |xs| == 0 then []
    else
      var before := OperandSlots(xs[..|xs| - 1], at, l);
      if xs[|xs| - 1] == Name(l) then before + [at + 4 * (|xs| - 1)] else before
  }

  function StatementSlots(s: Statement, at: nat, l: string): seq<nat> {
    if s.Instr? then OperandSlots(s.operands, at + 4, l) else []
  }

  function Slots(p: seq<Statement>, l: string): seq<nat> {
    if |p| == 0 then []
    else Slots(p[..|p| - 1], l) + StatementSlots(p[|p| - 1], Offset(p[..|p| - 1]), l)
  }

  predicate Within(slots: seq<nat>, n: nat) {
    forall i :: 0 <= i < |slots| ==> slots[i] + 4 <= n
  }

  function Overwrite(b: seq<Byte>, s: nat, v: int): (c: seq<Byte>)
    requires s + 4 <= |b|
    ensures |c| == |b|
  {
    b[..s] + Packed(v) + b[s + 4..]
  }

  /** Writing a word into each slot in turn. */
  function Patch(b: seq<Byte>, slots: seq<nat>, v: int): (c: seq<Byte>)
    requires Within(slots, |b|)
    ensures |c| == |b|
  {
    if |slots| == 0 then b
    else Overwrite(Patch(b, slots[..|slots| - 1], v), slots[|slots| - 1], v)
  }

  lemma {:induction false} PatchSplit(b: seq<Byte>, low: seq<nat>, high: seq<nat>, v: int)
    requires Within(low, |b|) && Within(high, |b|)
    ensures Within(low + high, |b|)
    ensures Patch(b, low + high, v) == Patch(Patch(b, low, v), high, v)
  {
    hide Overwrite;
    if |high| == 0 {
      assert low + high == low;
    } else {
      var h, both := high[..|high| - 1], low + high;
      assert both[..|both| - 1] == low + h && both[|both| - 1] == high[|high| - 1];
      PatchSplit(b, low, h, v);
    }
  }

  lemma {:induction false} PatchPrefix(a: seq<Byte>, b: seq<Byte>, slots: seq<nat>, v: int)
    requires Within(slots, |a|)
    ensures Patch(a + b, slots, v) == Patch(a, slots, v) + b
  {
    if |slots| != 0 {
      PatchPrefix(a, b, slots[..|slots| - 1], v);
    }
  }

  lemma {:induction false} OperandSlotsWithin(xs: seq<Operand>, at: nat, l: string)
    ensures Within(OperandSlots(xs, at, l), at + 4 * |xs|)
  {
    if |xs| != 0 { OperandSlotsWithin(xs[..|xs| - 1], at, l); }
  }

  lemma {:induction false} SlotsWithin(p: seq<Statement>, l: string)
    ensures Within(Slots(p, l), Offset(p))
  {
    if |p| != 0 {
      var s, at := p[|p| - 1], Offset(p[..|p| - 1]);
      SlotsWithin(p[..|p| - 1], l);
      if s.Instr? { OperandSlotsWithin(s.operands, at + 4, l); }
    }
  }

  lemma Regroup(a: seq<Byte>, b: seq<Byte>, c: seq<Byte>, d: seq<Byte>)
    ensures a + (b + c) + d == a + b + (c + d)
  {
  }

  lemma OverwriteMiddle(a: seq<Byte>, b: seq<Byte>, old_: seq<Byte>, d: seq<Byte>, v: int)
    requires |old_| == 4
    ensures Overwrite(a + b + (old_ + d), |a| + |b|, v) == a + b + (Packed(v) + d)
  {
    hide Packed;
  }

  /** Patching the references among operands is encoding them under the larger table. */
  lemma {:induction false} OperandsPatched(
    pre: seq<Byte>, xs: seq<Operand>, post: seq<Byte>, t: Table, l: string, v: int)
    requires l !in t && Within(OperandSlots(xs, |pre|, l), |pre| + 4 * |xs| + |post|)
    ensures Patch(pre + EncodeOperands(xs, t) + post, OperandSlots(xs, |pre|, l), v)
         == pre + EncodeOperands(xs, t[l := v]) + post
  {
    hide Packed, Overwrite;
    if |xs| != 0 {
      var n := |xs| - 1;
      var x, ys := xs[n], xs[..n];
      var word, word' := Packed(Resolve(x, t)), Packed(Resolve(x, t[l := v]));
      OperandSlotsWithin(ys, |pre|, l);
      OperandsPatched(pre, ys, word + post, t, l, v);
      Regroup(pre, EncodeOperands(ys, t), word, post);
      Regroup(pre, EncodeOperands(ys, t[l := v]), word', post);
      OverwriteMiddle(pre, EncodeOperands(ys, t[l := v]), word, post, v);
    }
  }

  lemma StatementPatched(pre: seq<Byte>, s: Statement, t: Table, l: string, v: int)
    requires l !in t
    ensures Within(StatementSlots(s, |pre|, l), |pre| + Size(s, |pre|))
    ensures Patch(pre + Encode(s, |pre|, t), StatementSlots(s, |pre|, l), v) == pre + Encode(s, |pre|, t[l := v])
  {
    hide Packed, Overwrite, EncodeOperands, OperandSlots;
    if s.Instr? {
      var op, tail := Packed(s.opcode), Zeros(Rest(s.operands));
      OperandSlotsWithin(s.operands, |pre| + 4, l);
      OperandsPatched(pre + op, s.operands, tail, t, l, v);
      Regroup4(pre, op, EncodeOperands(s.operands, t), tail);
      Regroup4(pre, op, EncodeOperands(s.operands, t[l := v]), tail);
    }
  }

  lemma Regroup4(a: seq<Byte>, b: seq<Byte>, c: seq<Byte>, d: seq<Byte>)
    ensures a + (b + c + d) == a + b + c + d
  {
  }

  /** Defining a label and patching its pending references is encoding everything so far under the
      larger table. */
  lemma {:induction false} ImagePatched(p: seq<Statement>, t: Table, l: string, v: int)
    requires l !in t
    ensures Within(Slots(p, l), |Image(p, t)|)
    ensures Patch(Image(p, t), Slots(p, l), v) == Image(p, t[l := v])
  {
    SlotsWithin(p, l);
    if |p| != 0 {
      hide Encode, StatementSlots, Size;
      var q, s := p[..|p| - 1], p[|p| - 1];
      var at := Offset(q);
      SlotsWithin(q, l);
      ImagePatched(q, t, l, v);
      StatementPatched(Image(q, t[l := v]), s, t, l, v);
      PatchSplit(Image(p, t), Slots(q, l), StatementSlots(s, at, l), v);
      PatchPrefix(Image(q, t), Encode(s, at, t), Slots(q, l), v);
    }
  }

  // -------- one pass --------

  /** Whether a statement goes through after those before it. */
  predicate Accepts(p: seq<Statement>, s: Statement) {
    match s
    case Label(l) => l !in Labels(p) && (|Slots(p, l)| != 0 ==> Fits(Offset(p)))
    case Instr(opcode, xs) =>
      Fits(opcode) && forall i :: 0 <= i < |xs| ==> OperandFits(xs[i], Labels(p))
    case _ => Encodable(s)
  }

  predicate OperandFits(x: Operand, t: Table) {
    match x
    case Number(v) => Fits(v)
    case Name(l) => l in t ==> Fits(t[l])
  }

  predicate Accepted(p: seq<Statement>) {
    |p| == 0 || (Accepted(p[..|p| - 1]) && Accepts(p[..|p| - 1], p[|p| - 1]))
  }

  lemma {:induction false} AcceptedPrefix(p: seq<Statement>, n: nat)
    requires n <= |p| && Accepted(p)
    ensures Accepted(p[..n])
  {
    hide Accepts;
    if n < |p| {
      AcceptedPrefix(p[..|p| - 1], n);
      assert p[..|p| - 1][..n] == p[..n];
    } else {
      assert p[..n] == p;
    }
  }

  /** The pending references, with some operands of the next statement handled. */
  ghost predicate PendingIs(pending: map<string, seq<nat>>, t: Table, p: seq<Statement>, xs: seq<Operand>, at: nat) {
    && (forall l :: l in pending <==> l !in t && |Slots(p, l) + OperandSlots(xs, at, l)| != 0)
    && (forall l :: l in pending ==> pending[l] == Slots(p, l) + OperandSlots(xs, at, l))
  }

  function Noted(pending: map<string, seq<nat>>, t: Table, x: Operand, slot: nat): map<string, seq<nat>> {
    if x.Name? && x.id !in t then pending[x.id := (if x.id in pending then pending[x.id] else []) + [slot]]
    else pending
  }

  lemma PendingNone(pending: map<string, seq<nat>>, t: Table, p: seq<Statement>, at: nat)
    requires forall l :: l in pending <==> l !in t && |Slots(p, l)| != 0
    requires forall l :: l in pending ==> pending[l] == Slots(p, l)
    ensures PendingIs(pending, t, p, [], at)
  {
    hide Slots;
  }

  lemma PendingAll(pending: map<string, seq<nat>>, t: Table, p: seq<Statement>, s: Statement, at: nat)
    requires s.Instr? && at == Offset(p) + 4 && PendingIs(pending, t, p, s.operands, at)
    ensures forall l :: l in pending <==> l !in t && |Slots(p + [s], l)| != 0
    ensures forall l :: l in pending ==> pending[l] == Slots(p + [s], l)
  {
    hide OperandSlots;
    assert (p + [s])[..|p + [s]| - 1] == p;
  }

  lemma PendingStep(pending: map<string, seq<nat>>, t: Table, p: seq<Statement>, xs: seq<Operand>, at: nat)
    requires |xs| != 0 && PendingIs(pending, t, p, xs[..|xs| - 1], at)
    ensures PendingIs(Noted(pending, t, xs[|xs| - 1], at + 4 * (|xs| - 1)), t, p, xs, at)
  {
    hide Slots;
  }

  class OnePass {
    var output: seq<Byte>
    var symtab: Table
    var pending: map<string, seq<nat>>

    /** The state after the statements `p`: everything encoded under the labels defined so far, and
        for each undefined name exactly the places that refer to it, which hold zero. */
    ghost predicate After(p: seq<Statement>)
      reads this
    {
      && symtab == Labels(p)
      && output == Image(p, Labels(p))
      && (forall l :: l in pending <==> l !in Labels(p) && |Slots(p, l)| != 0)
      && (forall l :: l in pending ==> pending[l] == Slots(p, l))
    }

    constructor ()
      ensures After([])
    {
      output := [];
      symtab := map[];
      pending := map[];
    }

    method EmitData(items: seq<Datum>) returns (ok: bool)
      modifies this`output
      ensures ok == Encodable(Data(items))
      ensures ok ==> output == old(output) + EncodeData(items)
    {
      for k := 0 to |items|
        invariant forall d :: d in items[..k] ==> DatumFits(d)
        invariant output == old(output) + EncodeData(items[..k])
      {
        assert items[..k + 1][..k] == items[..k] && items[..k + 1] == items[..k] + [items[k]];
        assert items[k] in items;
        match items[k] {
          case Word(v) =>
            if !Fits(v) {
              return false;
            }
            output := output + Packed(v);
          case Text(b) =>
            output := output + b;
        }
      }
      assert items[..|items|] == items;
      return true;
    }

    /** One operand: a word, or a zero and a note of where it stands. */
    method EmitOperand(x: Operand) returns (ok: bool)
      modifies this
      ensures symtab == old(symtab)
      ensures ok == OperandFits(x, symtab)
      ensures ok ==> output == old(output) + Packed(Resolve(x, symtab))
      ensures pending == Noted(old(pending), symtab, x, |old(output)|)
    {
      hide Packed;
      match x {
        case Number(v) =>
          if !Fits(v) {
            return false;
          }
          output := output + Packed(v);
        case Name(l) =>
          if l in symtab {
            if !Fits(symtab[l]) {
              return false;
            }
            output := output + Packed(symtab[l]);
          } else {
            pending := pending[l := (if l in pending then pending[l] else []) + [|output|]];
            output := output + Packed(0);
          }
      }
      return true;
    }

    method EmitOperands(xs: seq<Operand>, ghost p: seq<Statement>) returns (ok: bool)
      requires PendingIs(pending, symtab, p, [], |output|)
      modifies this
      ensures symtab == old(symtab)
      ensures ok == forall i :: 0 <= i < |xs| ==> OperandFits(xs[i], symtab)
      ensures ok ==> output == old(output) + EncodeOperands(xs, symtab)
      ensures ok ==> PendingIs(pending, symtab, p, xs, |old(output)|)
    {
      hide Packed, Slots, OperandFits, PendingIs, Noted, Resolve;
      for k := 0 to |xs|
        invariant symtab == old(symtab)
        invariant output == old(output) + EncodeOperands(xs[..k], symtab)
        invariant forall i :: 0 <= i < k ==> OperandFits(xs[i], symtab)
        invariant PendingIs(pending, symtab, p, xs[..k], |old(output)|)
      {
        assert xs[..k + 1][..k] == xs[..k];
        PendingStep(pending, symtab, p, xs[..k + 1], |old(output)|);
        ok := EmitOperand(xs[k]);
        if !ok {
          return false;
        }
      }
      assert xs[..|xs|] == xs;
      return true;
    }

    method EmitInstr(opcode: int, xs: seq<Operand>, ghost p: seq<Statement>) returns (ok: bool)
      requires After(p)
      modifies this
      ensures ok == Accepts(p, Instr(opcode, xs))
      ensures ok ==> After(p + [Instr(opcode, xs)])
    {
      hide Packed, Image, Labels, Slots, OperandFits, PendingIs, EncodeOperands, Offset, Rest, Zeros;
      if !Fits(opcode) {
        return false;
      }
      ghost var before := output;
      output := output + Packed(opcode);
      PendingNone(pending, symtab, p, |output|);
      ok := EmitOperands(xs, p);
      if ok {
        output := output + Zeros(Rest(xs));
        Regroup4(before, Packed(opcode), EncodeOperands(xs, symtab), Zeros(Rest(xs)));
        PendingAll(pending, symtab, p, Instr(opcode, xs), Offset(p) + 4);
        Extended(p, Instr(opcode, xs));
      }
    }

    lemma Extended(p: seq<Statement>, s: Statement)
      ensures var q := p + [s];
        && Offset(q) == Offset(p) + Size(s, Offset(p))
        && (forall t :: Image(q, t) == Image(p, t) + Encode(s, Offset(p), t))
        && (forall l :: Slots(q, l) == Slots(p, l) + StatementSlots(s, Offset(p), l))
        && Labels(q) == (if s.Label? then Labels(p)[s.name := Offset(p)] else Labels(p))
    {
      hide Encode, StatementSlots, Size;
      var q := p + [s];
      assert q[..|q| - 1] == p;
    }

    method PatchPending(slots: seq<nat>, v: int) returns (ok: bool)
      requires Within(slots, |output|)
      modifies this`output
      ensures ok == (|slots| != 0 ==> Fits(v))
      ensures ok ==> output == Patch(old(output), slots, v)
    {
      hide Overwrite;
      for i := 0 to |slots|
        invariant output == Patch(old(output), slots[..i], v)
        invariant i > 0 ==> Fits(v)
      {
        assert slots[..i + 1][..i] == slots[..i];
        if !Fits(v) {
          return false;
        }
        output := Overwrite(output, slots[i], v);
      }
      assert slots[..|slots|] == slots;
      return true;
    }

    /** A label: pending references to it are patched where they stand. */
    method DefineLabel(l: string, ghost p: seq<Statement>) returns (ok: bool)
      requires After(p)
      modifies this
      ensures ok == Accepts(p, Label(l))
      ensures ok ==> After(p + [Label(l)])
    {
      hide Patch, Image, Labels, Slots;
      if l in symtab {
        return false;
      }
      var v := |output|;
      var slots := if l in pending then pending[l] else [];
      assert slots == Slots(p, l);
      ImagePatched(p, Labels(p), l, v);
      symtab := symtab[l := v];
      pending := pending - {l};
      ok := PatchPending(slots, v);
      Extended(p, Label(l));
    }

    method DoStatement(s: Statement, ghost p: seq<Statement>) returns (ok: bool)
      requires After(p)
      modifies this
      ensures ok == Accepts(p, s)
      ensures ok ==> After(p + [s])
    {
      hide Image, Labels, Slots, EncodeData;
      Extended(p, s);
      ok := true;
      match s {
        case Align(unit) =>
          if unit == 0 {
            return false;
          }
          output := output + Zeros(unit - |output| % unit);
        case Zero(count) =>
          output := output + Zeros(count);
        case Data(items) =>
          ok := EmitData(items);
        case Label(l) =>
          ok := DefineLabel(l, p);
        case Instr(opcode, xs) =>
          ok := EmitInstr(opcode, xs, p);
      }
    }

    /** One pass over the statements. */
    method DoParse(p: seq<Statement>) returns (ok: bool)
      requires After([])
      modifies this
      ensures ok == Accepted(p)
      ensures ok ==> After(p)
    {
      hide Accepts;
      for i := 0 to |p|
        invariant Accepted(p[..i]) && After(p[..i])
      {
        assert p[..i + 1][..i] == p[..i] && p[..i] + [p[i]] == p[..i + 1];
        ok := DoStatement(p[i], p[..i]);
        if !ok {
          if Accepted(p) { AcceptedPrefix(p, i + 1); }
          return false;
        }
      }
      assert p[..|p|] == p;
      return true;
    }
  }

  // -------- one pass is two passes --------

  lemma {:induction false} OperandSlotsReferred(xs: seq<Operand>, at: nat, l: string)
    ensures |OperandSlots(xs, at, l)| != 0 <==> Name(l) in xs
  {
    if |xs| != 0 {
      OperandSlotsReferred(xs[..|xs| - 1], at, l);
      assert xs == xs[..|xs| - 1] + [xs[|xs| - 1]];
    }
  }

  lemma ReferredLast(p: seq<Statement>, l: string)
    requires |p| != 0
    ensures Referred(p, l) <==> Referred(p[..|p| - 1], l) || Refers(p[|p| - 1], l)
  {
    hide Refers;
    var q := p[..|p| - 1];
    if Refers(p[|p| - 1], l) { assert Referred(p, l); }
    if Referred(q, l) {
      var i :| 0 <= i < |q| && Refers(q[i], l);
      assert Refers(p[i], l);
    }
    if Referred(p, l) && !Refers(p[|p| - 1], l) {
      var i :| 0 <= i < |p| && Refers(p[i], l);
      assert Refers(q[i], l);
    }
  }

  lemma {:induction false} SlotsReferred(p: seq<Statement>, l: string)
    ensures |Slots(p, l)| != 0 <==> Referred(p, l)
  {
    if |p| != 0 {
      SlotsReferred(p[..|p| - 1], l);
      ReferredLast(p, l);
      var s := p[|p| - 1];
      if s.Instr? { OperandSlotsReferred(s.operands, Offset(p[..|p| - 1]) + 4, l); }
    }
  }

  /** The labels collected are the labels there are. */
  lemma {:induction false} LabelsAre(p: seq<Statement>, l: string)
    ensures l in Labels(p) <==> Label(l) in p
  {
    if |p| != 0 {
      LabelsAre(p[..|p| - 1], l);
      assert p == p[..|p| - 1] + [p[|p| - 1]];
    }
  }

  lemma DistinctLast(p: seq<Statement>)
    requires |p| != 0
    ensures var q, s := p[..|p| - 1], p[|p| - 1];
      Distinct(p) <==> Distinct(q) && (s.Label? ==> s.name !in Labels(q))
  {
    var q, s := p[..|p| - 1], p[|p| - 1];
    if s.Label? { LabelsAre(q, s.name); }
    assert Distinct(p) ==> Distinct(q) by {
      if Distinct(p) {
        forall i, j | 0 <= i < j < |q| && q[i].Label? && q[j].Label? ensures q[i].name != q[j].name {
          assert p[i] == q[i] && p[j] == q[j];
        }
      }
    }
    if s.Label? && Label(s.name) in q {
      var i :| 0 <= i < |q| && q[i] == Label(s.name);
      assert p[i].Label? && p[i].name == s.name;
      assert !Distinct(p);
    }
  }

  ghost predicate LabelsFit(p: seq<Statement>) {
    forall l :: l in Labels(p) && Referred(p, l) ==> Fits(Labels(p)[l])
  }

  predicate NamesFit(xs: seq<Operand>, t: Table) {
    forall i :: 0 <= i < |xs| && xs[i].Name? ==> OperandFits(xs[i], t)
  }

  lemma LabelsFitLabel(p: seq<Statement>)
    requires |p| != 0 && p[|p| - 1].Label? && p[|p| - 1].name !in Labels(p[..|p| - 1])
    ensures var q, l := p[..|p| - 1], p[|p| - 1].name;
      LabelsFit(p) <==> LabelsFit(q) && (|Slots(q, l)| != 0 ==> Fits(Offset(q)))
  {
    hide Slots, Offset, Referred;
    var q, l := p[..|p| - 1], p[|p| - 1].name;
    SlotsReferred(q, l);
    forall k ensures Referred(p, k) == Referred(q, k) { ReferredLast(p, k); }
    assert Labels(p) == Labels(q)[l := Offset(q)];
    if LabelsFit(p) {
      forall k | k in Labels(q) && Referred(q, k) ensures Fits(Labels(q)[k]) {
        assert Labels(p)[k] == Labels(q)[k];
      }
    }
  }

  lemma LabelsFitInstr(p: seq<Statement>)
    requires |p| != 0 && p[|p| - 1].Instr?
    ensures var q, s := p[..|p| - 1], p[|p| - 1];
      LabelsFit(p) <==> (LabelsFit(q) && NamesFit(s.operands, Labels(q)))
  {
    hide Slots, Offset, Referred;
    var q, s := p[..|p| - 1], p[|p| - 1];
    forall k ensures Referred(p, k) <==> Referred(q, k) || Name(k) in s.operands { ReferredLast(p, k); }
    assert Labels(p) == Labels(q);
    if LabelsFit(p) {
      forall i | 0 <= i < |s.operands| && s.operands[i].Name? ensures OperandFits(s.operands[i], Labels(q)) {
        assert Name(s.operands[i].id) in s.operands;
      }
    }
  }

  lemma LabelsFitOther(p: seq<Statement>)
    requires |p| != 0 && !p[|p| - 1].Instr? && !p[|p| - 1].Label?
    ensures LabelsFit(p) == LabelsFit(p[..|p| - 1])
  {
    hide Referred;
    var q := p[..|p| - 1];
    forall k ensures Referred(p, k) == Referred(q, k) { ReferredLast(p, k); }
    assert Labels(p) == Labels(q);
  }

  lemma EncodableLast(p: seq<Statement>)
    requires |p| != 0
    ensures AllEncodable(p) <==> AllEncodable(p[..|p| - 1]) && Encodable(p[|p| - 1])
  {
    hide Encodable;
    var q := p[..|p| - 1];
    if AllEncodable(q) {
      forall i | 0 <= i < |p| - 1 ensures Encodable(p[i]) { assert q[i] == p[i]; }
    }
  }

  lemma AcceptsMeans(q: seq<Statement>, s: Statement)
    ensures s.Label? ==>
      (Accepts(q, s) <==> s.name !in Labels(q) && (|Slots(q, s.name)| != 0 ==> Fits(Offset(q))))
    ensures s.Instr? ==>
      (Accepts(q, s) <==> (Encodable(s) && NamesFit(s.operands, Labels(q))))
    ensures !s.Label? && !s.Instr? ==> (Accepts(q, s) <==> Encodable(s))
  {
    hide Labels, Slots, Offset;
    if s.Instr? && Encodable(s) {
      forall i | 0 <= i < |s.operands| && s.operands[i].Number? ensures OperandFits(s.operands[i], Labels(q)) {
        assert s.operands[i] in s.operands;
      }
    }
  }

  /** The one pass gets through exactly the programs that are clean. */
  lemma {:induction false} AcceptedMeans(p: seq<Statement>)
    ensures Accepted(p) <==> Clean(p)
  {
    hide Encodable, AllEncodable, Distinct, LabelsFit, Accepts, Labels, Slots, Offset, NamesFit, Clean;
    CleanMeans(p);
    if |p| == 0 {
      CleanEmpty();
      assert p == [];
    } else {
      var q, s := p[..|p| - 1], p[|p| - 1];
      AcceptedMeans(q);
      CleanMeans(q);
      EncodableLast(p);
      DistinctLast(p);
      AcceptsMeans(q, s);
      if s.Label? {
        if s.name !in Labels(q) { LabelsFitLabel(p); }
        LabelEncodable(s);
      } else if s.Instr? {
        LabelsFitInstr(p);
      } else {
        LabelsFitOther(p);
      }
    }
  }

  lemma LabelEncodable(s: Statement)
    ensures s.Label? ==> Encodable(s)
  {
  }

  lemma CleanMeans(p: seq<Statement>)
    ensures Clean(p) <==> AllEncodable(p) && Distinct(p) && LabelsFit(p)
  {
    hide AllEncodable, Labels, Referred;
  }

  lemma CleanEmpty()
    ensures Clean([])
  {
  }

  /** Assembling: one pass, and an error if references are left over.  The result is the two-pass
      assembler's, for every program. */
  method Assemble(p: seq<Statement>) returns (image: Option<seq<Byte>>)
    ensures image == TwoPass(p)
  {
    hide Image, Labels, Slots, Clean, Accepted, Referred;
    AcceptedMeans(p);
    var state := new OnePass();
    var ok := state.DoParse(p);
    forall l ensures |Slots(p, l)| != 0 <==> Referred(p, l) { SlotsReferred(p, l); }
    if ok && |state.pending| == 0 {
      assert state.pending == map[];
      assert Resolved(p) by {
        forall l | Referred(p, l) ensures l in Labels(p) { assert l !in state.pending; }
      }
      return Some(state.output);
    }
    if ok {
      var l :| l in state.pending;
      assert Referred(p, l) && l !in Labels(p);
    }
    return None;
  }
}
