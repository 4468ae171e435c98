/** The assembler's instruction table and its agreement with the processor's. */
module Grammar {
  import opened Instructions

  /** The mnemonics in order, with the kinds of operand each takes; the position is the opcode. */
  function InstOp(i: int): (string, seq<Arg>)
    requires 0 <= i < OPCODES
  {
    match i
    case 0x00 => ("nop", [])
    case 0x01 => ("savew", [Reg, Addr])
    case 0x02 => ("loadw", [Reg, Addr])
    case 0x03 => ("saveb", [Reg, Addr])
    case 0x04 => ("loadb", [Reg, Addr])
    case 0x05 => ("savewr", [Reg, Reg])
    case 0x06 => ("loadwr", [Reg, Reg])
    case 0x07 => ("savebr", [Reg, Reg])
    case 0x08 => ("loadbr", [Reg, Reg])
    case 0x09 => ("savewi", [Immed, Addr])
    case 0x0a => ("loadwi", [Reg, Immed])
    case 0x0b => ("savebi", [Immed, Addr])
    case 0x0c => ("loadbi", [Reg, Immed])
    case 0x0d => ("savewri", [Immed, Reg])
    case 0x0e => ("savebri", [Immed, Reg])
    case 0x0f => ("add", [Reg, Reg, Reg])
    case 0x10 => ("sub", [Reg, Reg, Reg])
    case 0x11 => ("mul", [Reg, Reg, Reg])
    case 0x12 => ("div", [Reg, Reg, Reg])
    case 0x13 => ("mod", [Reg, Reg, Reg])
    case 0x14 => ("addi", [Reg, Immed, Reg])
    case 0x15 => ("subi", [Reg, Immed, Reg])
    case 0x16 => ("muli", [Reg, Immed, Reg])
    case 0x17 => ("divi", [Reg, Immed, Reg])
    case 0x18 => ("modi", [Reg, Immed, Reg])
    case 0x19 => ("jmp", [Addr])
    case 0x1a => ("jmpr", [Reg])
    case 0x1b => ("jmplt", [Reg, Reg, Addr])
    case 0x1c => ("jmpgt", [Reg, Reg, Addr])
    case 0x1d => ("jmple", [Reg, Reg, Addr])
    case 0x1e => ("jmpge", [Reg, Reg, Addr])
    case 0x1f => ("jmpeq", [Reg, Reg, Addr])
    case 0x20 => ("jmpne", [Reg, Reg, Addr])
    case 0x21 => ("jmplti", [Reg, Immed, Addr])
    case 0x22 => ("jmpgti", [Reg, Immed, Addr])
    case 0x23 => ("jmplei", [Reg, Immed, Addr])
    case 0x24 => ("jmpgei", [Reg, Immed, Addr])
    case 0x25 => ("jmpeqi", [Reg, Immed, Addr])
    case 0x26 => ("jmpnei", [Reg, Immed, Addr])
    case 0x27 => ("jmpltr", [Reg, Reg, Reg])
    case 0x28 => ("jmpgtr", [Reg, Reg, Reg])
    case 0x29 => ("jmpler", [Reg, Reg, Reg])
    case 0x2a => ("jmpger", [Reg, Reg, Reg])
    case 0x2b => ("jmpeqr", [Reg, Reg, Reg])
    case 0x2c => ("jmpner", [Reg, Reg, Reg])
    case 0x2d => ("jmpltri", [Reg, Reg, Reg])
    case 0x2e => ("jmpgtri", [Reg, Reg, Reg])
    case 0x2f => ("jmpleri", [Reg, Reg, Reg])
    case 0x30 => ("jmpgeri", [Reg, Reg, Reg])
    case 0x31 => ("jmpeqri", [Reg, Reg, Reg])
    case 0x32 => ("jmpneri", [Reg, Reg, Reg])
    case 0x33 => ("halt", [])
    case 0x34 => ("intr", [])
    case 0x35 => ("rfe", [])
    case 0x36 => ("wait", [])
    case 0x37 => ("swap", [Reg, Reg])
    case 0x38 => ("copy", [Reg, Reg])
    case 0x39 => ("and", [Reg, Reg, Reg])
    case 0x3a => ("or", [Reg, Reg, Reg])
    case 0x3b => ("xor", [Reg, Reg, Reg])
    case 0x3c => ("andi", [Reg, Immed, Reg])
    case 0x3d => ("ori", [Reg, Immed, Reg])
    case 0x3e => ("xori", [Reg, Immed, Reg])
    case 0x3f => ("not", [Reg, Reg])
    case 0x40 => ("shl", [Reg, Reg, Reg])
    case 0x41 => ("shr", [Reg, Reg, Reg])
    case 0x42 => ("shli", [Reg, Immed, Reg])
    case 0x43 => ("shri", [Reg, Immed, Reg])
    case 0x44 => ("cpuid", [])
    case 0x45 => ("strapr", [Reg, Addr])
    case _ => ("strapi", [Immed, Addr])
  }

  /** The processor's operand types as a list, without the unused ones. */
  function Taken(kinds: (Arg, Arg, Arg)): seq<Arg> {
    (if kinds.0.None? then [] else [kinds.0])
    + (if kinds.1.None? then [] else [kinds.1])
    + (if kinds.2.None? then [] else [kinds.2])
  }

  predicate Agrees(i: int)
    requires 0 <= i < OPCODES
  {
    Taken(ArgTypes(Decode(i))) == InstOp(i).1
  }

  lemma MovesAgree(i: int)
    requires 0 <= i < 0x0f
    ensures Agrees(i)
  {
  }

  lemma ArithmeticAgrees(i: int)
    requires 0x0f <= i < 0x1b
    ensures Agrees(i)
  {
  }

  lemma BranchesAgree(i: int)
    requires 0x1b <= i < 0x27
    ensures Agrees(i)
  {
  }

  lemma IndirectBranchesAgree(i: int)
    requires 0x27 <= i < 0x33
    ensures Agrees(i)
  {
  }

  lemma SystemAgrees(i: int)
    requires 0x33 <= i < 0x3c
    ensures Agrees(i)
  {
  }

  lemma OthersAgree(i: int)
    requires 0x3c <= i < OPCODES
    ensures Agrees(i)
  {
  }

  /** For every opcode the processor takes the operands the assembler parsed, in number and kind. */
  lemma TablesAgree(i: int)
    requires 0 <= i < OPCODES
    ensures Taken(ArgTypes(Decode(i))) == InstOp(i).1
  {
    hide Taken, ArgTypes, Decode, InstOp;
    if i < 0x0f { MovesAgree(i); }
    else if i < 0x1b { ArithmeticAgrees(i); }
    else if i < 0x27 { BranchesAgree(i); }
    else if i < 0x33 { IndirectBranchesAgree(i); }
    else if i < 0x3c { SystemAgrees(i); }
    else { OthersAgree(i); }
  }

  /** The second forms of the arithmetic, the branches and the bitwise instructions are named after the
      first ones: `i` for a word as second operand, `r` for a target in a register. */
  lemma Forms(k: int)
    ensures 0 <= k < 5 ==> InstOp(0x14 + k).0 == InstOp(0x0f + k).0 + "i"
    ensures 0 <= k < 6 ==> InstOp(0x21 + k).0 == InstOp(0x1b + k).0 + "i"
    ensures 0 <= k < 6 ==> InstOp(0x27 + k).0 == InstOp(0x1b + k).0 + "r"
    ensures 0 <= k < 6 ==> InstOp(0x2d + k).0 == InstOp(0x1b + k).0 + "ri"
    ensures 0 <= k < 3 ==> InstOp(0x3c + k).0 == InstOp(0x39 + k).0 + "i"
    ensures 0 <= k < 2 ==> InstOp(0x42 + k).0 == InstOp(0x40 + k).0 + "i"
  {
  }
}
