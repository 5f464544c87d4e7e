/** The regular structure of the NMOS 6502 opcodes, as an independent account of the instruction table
  * (tools/opcodes6502.py:2-24): two bits choose a group, three an operation, and three an addressing mode. */
module OpcodeStructure {
  import opened Bytes
  import opened Opcodes

  /** Group 1: the accumulator operations in all eight modes; only a store has no immediate operand. */
  function AccumulatorGroup(a: nat, b: nat): Entry {
    if a == 4 && b == 2 then Unknown
    else
      Op(if a == 0 then ORA else if a == 1 then AND else if a == 2 then EOR else if a == 3 then ADC
         else if a == 4 then STA else if a == 5 then LDA else if a == 6 then CMP else SBC,
         if b == 0 then IndX else if b == 1 then Zp else if b == 2 then Imm else if b == 3 then Abs
         else if b == 4 then IndY else if b == 5 then ZpX else if b == 6 then AbsY else AbsX)
  }

  /** Group 2: shifts, increments and the X register, which is indexed by Y. */
  function ShiftGroup(a: nat, b: nat): Entry {
    var name := if a == 0 then ASL else if a == 1 then ROL else if a == 2 then LSR else if a == 3 then ROR
                else if a == 4 then STX else if a == 5 then LDX else if a == 6 then DEC else INC;
    if b == 1 then Op(name, Zp)
    else if b == 3 then Op(name, Abs)
    else if b == 5 then Op(name, if a == 4 || a == 5 then ZpY else ZpX)
    else if b == 7 then if a == 4 then Unknown else Op(name, if a == 5 then AbsY else AbsX)
    else if b == 2 then
      if a < 4 then Op(name, Acc)
      else Op(if a == 4 then TXA else if a == 5 then TAX else if a == 6 then DEX else NOP, Imp)
    else if b == 6 then if a == 4 then Op(TXS, Imp) else if a == 5 then Op(TSX, Imp) else Unknown
    else if b == 0 && a == 5 then Op(LDX, Imm)
    else Unknown
  }

  /** The Y register, BIT and the two jumps, by operation. */
  function IndexGroup(a: nat, mode: Mode): Entry {
    if a == 4 then Op(STY, mode) else if a == 5 then Op(LDY, mode) else if a == 6 then Op(CPY, mode)
    else if a == 7 then Op(CPX, mode) else Unknown
  }

  /** Group 0: control flow, the stack, the flags and the index registers. */
  function ControlGroup(a: nat, b: nat): Entry {
    if b == 0 then
      if a == 0 then Op(BRK, Imp) else if a == 1 then Op(JSR, Abs) else if a == 2 then Op(RTI, Imp)
      else if a == 3 then Op(RTS, Imp) else if a == 4 then Unknown else IndexGroup(a, Imm)
    else if b == 1 then if a == 1 then Op(BIT, Zp) else IndexGroup(a, Zp)
    else if b == 2 then
      Op(if a == 0 then PHP else if a == 1 then PLP else if a == 2 then PHA else if a == 3 then PLA
         else if a == 4 then DEY else if a == 5 then TAY else if a == 6 then INY else INX, Imp)
    else if b == 3 then
      if a == 1 then Op(BIT, Abs) else if a == 2 then Op(JMP, Abs) else if a == 3 then Op(JMP, Ind)
      else IndexGroup(a, Abs)
    else if b == 4 then
      Op(if a == 0 then BPL else if a == 1 then BMI else if a == 2 then BVC else if a == 3 then BVS
         else if a == 4 then BCC else if a == 5 then BCS else if a == 6 then BNE else BEQ, Rel)
    else if b == 5 then if a == 4 || a == 5 then IndexGroup(a, ZpX) else Unknown
    else if b == 6 then
      Op(if a == 0 then CLC else if a == 1 then SEC else if a == 2 then CLI else if a == 3 then SEI
         else if a == 4 then TYA else if a == 5 then CLV else if a == 6 then CLD else SED, Imp)
    else if a == 5 then IndexGroup(a, AbsX) else Unknown
  }

  function Grouped(a: nat, b: nat, c: nat): Entry {
    if c == 1 then AccumulatorGroup(a, b) else if c == 2 then ShiftGroup(a, b) else if c == 0 then ControlGroup(a, b)
    else Unknown
  }

  function Structured(opcode: byte): Entry {
    Grouped(opcode / 32, opcode / 4 % 8, opcode % 4)
  }

  lemma Row0Structured(opcode: byte)
    requires 0x00 <= opcode < 0x20
    ensures LowQuarter(opcode) == Structured(opcode)
  {}

  lemma Row1Structured(opcode: byte)
    requires 0x20 <= opcode < 0x40
    ensures LowQuarter(opcode) == Structured(opcode)
  {}

  lemma Row2Structured(opcode: byte)
    requires 0x40 <= opcode < 0x60
    ensures LowMiddleQuarter(opcode) == Structured(opcode)
  {}

  lemma Row3Structured(opcode: byte)
    requires 0x60 <= opcode < 0x80
    ensures LowMiddleQuarter(opcode) == Structured(opcode)
  {}

  lemma Row4Structured(opcode: byte)
    requires 0x80 <= opcode < 0xA0
    ensures HighMiddleQuarter(opcode) == Structured(opcode)
  {}

  lemma Row5Structured(opcode: byte)
    requires 0xA0 <= opcode < 0xC0
    ensures HighMiddleQuarter(opcode) == Structured(opcode)
  {}

  lemma Row6Structured(opcode: byte)
    requires 0xC0 <= opcode < 0xE0
    ensures HighQuarter(opcode) == Structured(opcode)
  {}

  lemma Row7Structured(opcode: byte)
    requires 0xE0 <= opcode < 0x100
    ensures HighQuarter(opcode) == Structured(opcode)
  {}

  /** The table holds exactly what the structure says. */
  lemma TableIsStructured(opcode: byte)
    ensures Lookup(opcode) == Structured(opcode)
  {
    hide Structured;
    if opcode < 0x20 {
      Row0Structured(opcode);
    } else if opcode < 0x40 {
      Row1Structured(opcode);
    } else if opcode < 0x60 {
      Row2Structured(opcode);
    } else if opcode < 0x80 {
      Row3Structured(opcode);
    } else if opcode < 0xA0 {
      Row4Structured(opcode);
    } else if opcode < 0xC0 {
      Row5Structured(opcode);
    } else if opcode < 0xE0 {
      Row6Structured(opcode);
    } else {
      Row7Structured(opcode);
    }
  }

  /** The bit fields of an opcode, and its entry by them. */
  lemma Split(opcode: byte) returns (a: nat, b: nat, c: nat)
    ensures a < 8 && b < 8 && c < 4 && opcode as int == 32 * a + 4 * b + c
    ensures Lookup(opcode) == Grouped(a, b, c)
    ensures opcode / 32 == a && opcode % 4 == c && opcode % 32 == 4 * b + c
  {
    TableIsStructured(opcode);
    hide Lookup, Grouped;
    a, b, c := opcode / 32, opcode / 4 % 8, opcode % 4;
    assert opcode / 4 == 8 * a + b;
  }

  // ---- no two opcodes are alike ----

  lemma AccumulatorRowsDiffer(a: nat, b: nat, c: nat, d: nat)
    requires a < 8 && b < 8 && c < 8 && d < 8 && AccumulatorGroup(a, b).Op? && AccumulatorGroup(a, b) == AccumulatorGroup(c, d)
    ensures a == c && b == d
  {}

  lemma ShiftRowsDiffer(a: nat, b: nat, c: nat, d: nat)
    requires a < 8 && b < 8 && c < 8 && d < 8 && ShiftGroup(a, b).Op? && ShiftGroup(a, b) == ShiftGroup(c, d)
    ensures a == c && b == d
  {}

  lemma ControlRowsDiffer(a: nat, b: nat, c: nat, d: nat)
    requires a < 8 && b < 8 && c < 8 && d < 8 && ControlGroup(a, b).Op? && ControlGroup(a, b) == ControlGroup(c, d)
    ensures a == c && b == d
  {}

  lemma GroupsDiffer(a: nat, b: nat, c: nat, d: nat)
    requires a < 8 && b < 8 && c < 8 && d < 8
    ensures AccumulatorGroup(a, b).Op? ==> AccumulatorGroup(a, b) != ShiftGroup(c, d) && AccumulatorGroup(a, b) != ControlGroup(c, d)
    ensures ShiftGroup(a, b).Op? ==> ShiftGroup(a, b) != ControlGroup(c, d)
  {}

  /** A name and a mode belong to one opcode at most, so the assembler's inverse of the table loses none. */
  lemma TableIsInjective(first: byte, second: byte)
    requires Lookup(first).Op? && Lookup(first) == Lookup(second)
    ensures first == second
  {
    hide Lookup, AccumulatorGroup, ShiftGroup, ControlGroup;
    var a, b, g := Split(first);
    var c, d, h := Split(second);
    GroupsDiffer(a, b, c, d);
    GroupsDiffer(c, d, a, b);
    if g == 1 {
      AccumulatorRowsDiffer(a, b, c, d);
    } else if g == 2 {
      ShiftRowsDiffer(a, b, c, d);
    } else {
      ControlRowsDiffer(a, b, c, d);
    }
  }

  /** The assembler's index of the table gives every documented opcode back. */
  lemma ReverseExactly(opcode: byte)
    requires Lookup(opcode).Op?
    ensures Reverse(Lookup(opcode).name, Lookup(opcode).mode) == Some(opcode)
  {
    hide Reverse;
    var r := Reverse(Lookup(opcode).name, Lookup(opcode).mode);
    if r.Some? {
      TableIsInjective(opcode, r.value);
    }
    hide Lookup;
  }
}
