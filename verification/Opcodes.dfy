/** The documented NMOS 6502 instruction table shared by every tool
    (tools/opcodes6502.py). No unofficial opcode has an entry. */
module Opcodes {
  import opened Bytes

  datatype Name =
    | ADC | AND | ASL | BCC | BCS | BEQ | BIT | BMI | BNE | BPL | BRK | BVC | BVS | CLC | CLD | CLI
    | CLV | CMP | CPX | CPY | DEC | DEX | DEY | EOR | INC | INX | INY | JMP | JSR | LDA | LDX | LDY
    | LSR | NOP | ORA | PHA | PHP | PLA | PLP | ROL | ROR | RTI | RTS | SBC | SEC | SED | SEI | STA
    | STX | STY | TAX | TAY | TSX | TXA | TXS | TYA

  datatype Mode = Imp | Acc | Imm | Zp | ZpX | ZpY | Abs | AbsX | AbsY | Ind | IndX | IndY | Rel

  /** An entry of the instruction table, or Unknown where the table has none. */
  datatype Entry = Op(name: Name, mode: Mode) | Unknown

  function Length(mode: Mode): (n: nat)
    ensures 1 <= n <= 3
  {
    match mode
    case Imp => 1 case Acc => 1
    case Abs => 3 case AbsX => 3 case AbsY => 3 case Ind => 3
    case _ => 2
  }

  function LowQuarter(opcode: byte): Entry {
    match opcode
    case 0x00 => Op(BRK, Imp) case 0x01 => Op(ORA, IndX) case 0x05 => Op(ORA, Zp)
    case 0x06 => Op(ASL, Zp) case 0x08 => Op(PHP, Imp) case 0x09 => Op(ORA, Imm)
    case 0x0A => Op(ASL, Acc) case 0x0D => Op(ORA, Abs) case 0x0E => Op(ASL, Abs)
    case 0x10 => Op(BPL, Rel) case 0x11 => Op(ORA, IndY) case 0x15 => Op(ORA, ZpX)
    case 0x16 => Op(ASL, ZpX) case 0x18 => Op(CLC, Imp) case 0x19 => Op(ORA, AbsY)
    case 0x1D => Op(ORA, AbsX) case 0x1E => Op(ASL, AbsX) case 0x20 => Op(JSR, Abs)
    case 0x21 => Op(AND, IndX) case 0x24 => Op(BIT, Zp) case 0x25 => Op(AND, Zp)
    case 0x26 => Op(ROL, Zp) case 0x28 => Op(PLP, Imp) case 0x29 => Op(AND, Imm)
    case 0x2A => Op(ROL, Acc) case 0x2C => Op(BIT, Abs) case 0x2D => Op(AND, Abs)
    case 0x2E => Op(ROL, Abs) case 0x30 => Op(BMI, Rel) case 0x31 => Op(AND, IndY)
    case 0x35 => Op(AND, ZpX) case 0x36 => Op(ROL, ZpX) case 0x38 => Op(SEC, Imp)
    case 0x39 => Op(AND, AbsY) case 0x3D => Op(AND, AbsX) case 0x3E => Op(ROL, AbsX)
    case _ => Unknown
  }

  function LowMiddleQuarter(opcode: byte): Entry {
    match opcode
    case 0x40 => Op(RTI, Imp) case 0x41 => Op(EOR, IndX) case 0x45 => Op(EOR, Zp)
    case 0x46 => Op(LSR, Zp) case 0x48 => Op(PHA, Imp) case 0x49 => Op(EOR, Imm)
    case 0x4A => Op(LSR, Acc) case 0x4C => Op(JMP, Abs) case 0x4D => Op(EOR, Abs)
    case 0x4E => Op(LSR, Abs) case 0x50 => Op(BVC, Rel) case 0x51 => Op(EOR, IndY)
    case 0x55 => Op(EOR, ZpX) case 0x56 => Op(LSR, ZpX) case 0x58 => Op(CLI, Imp)
    case 0x59 => Op(EOR, AbsY) case 0x5D => Op(EOR, AbsX) case 0x5E => Op(LSR, AbsX)
    case 0x60 => Op(RTS, Imp) case 0x61 => Op(ADC, IndX) case 0x65 => Op(ADC, Zp)
    case 0x66 => Op(ROR, Zp) case 0x68 => Op(PLA, Imp) case 0x69 => Op(ADC, Imm)
    case 0x6A => Op(ROR, Acc) case 0x6C => Op(JMP, Ind) case 0x6D => Op(ADC, Abs)
    case 0x6E => Op(ROR, Abs) case 0x70 => Op(BVS, Rel) case 0x71 => Op(ADC, IndY)
    case 0x75 => Op(ADC, ZpX) case 0x76 => Op(ROR, ZpX) case 0x78 => Op(SEI, Imp)
    case 0x79 => Op(ADC, AbsY) case 0x7D => Op(ADC, AbsX) case 0x7E => Op(ROR, AbsX)
    case _ => Unknown
  }

  function HighMiddleQuarter(opcode: byte): Entry {
    match opcode
    case 0x81 => Op(STA, IndX) case 0x84 => Op(STY, Zp) case 0x85 => Op(STA, Zp)
    case 0x86 => Op(STX, Zp) case 0x88 => Op(DEY, Imp) case 0x8A => Op(TXA, Imp)
    case 0x8C => Op(STY, Abs) case 0x8D => Op(STA, Abs) case 0x8E => Op(STX, Abs)
    case 0x90 => Op(BCC, Rel) case 0x91 => Op(STA, IndY) case 0x94 => Op(STY, ZpX)
    case 0x95 => Op(STA, ZpX) case 0x96 => Op(STX, ZpY) case 0x98 => Op(TYA, Imp)
    case 0x99 => Op(STA, AbsY) case 0x9A => Op(TXS, Imp) case 0x9D => Op(STA, AbsX)
    case 0xA0 => Op(LDY, Imm) case 0xA1 => Op(LDA, IndX) case 0xA2 => Op(LDX, Imm)
    case 0xA4 => Op(LDY, Zp) case 0xA5 => Op(LDA, Zp) case 0xA6 => Op(LDX, Zp)
    case 0xA8 => Op(TAY, Imp) case 0xA9 => Op(LDA, Imm) case 0xAA => Op(TAX, Imp)
    case 0xAC => Op(LDY, Abs) case 0xAD => Op(LDA, Abs) case 0xAE => Op(LDX, Abs)
    case 0xB0 => Op(BCS, Rel) case 0xB1 => Op(LDA, IndY) case 0xB4 => Op(LDY, ZpX)
    case 0xB5 => Op(LDA, ZpX) case 0xB6 => Op(LDX, ZpY) case 0xB8 => Op(CLV, Imp)
    case 0xB9 => Op(LDA, AbsY) case 0xBA => Op(TSX, Imp) case 0xBC => Op(LDY, AbsX)
    case 0xBD => Op(LDA, AbsX) case 0xBE => Op(LDX, AbsY)
    case _ => Unknown
  }

  function HighQuarter(opcode: byte): Entry {
    match opcode
    case 0xC0 => Op(CPY, Imm) case 0xC1 => Op(CMP, IndX) case 0xC4 => Op(CPY, Zp)
    case 0xC5 => Op(CMP, Zp) case 0xC6 => Op(DEC, Zp) case 0xC8 => Op(INY, Imp)
    case 0xC9 => Op(CMP, Imm) case 0xCA => Op(DEX, Imp) case 0xCC => Op(CPY, Abs)
    case 0xCD => Op(CMP, Abs) case 0xCE => Op(DEC, Abs) case 0xD0 => Op(BNE, Rel)
    case 0xD1 => Op(CMP, IndY) case 0xD5 => Op(CMP, ZpX) case 0xD6 => Op(DEC, ZpX)
    case 0xD8 => Op(CLD, Imp) case 0xD9 => Op(CMP, AbsY) case 0xDD => Op(CMP, AbsX)
    case 0xDE => Op(DEC, AbsX) case 0xE0 => Op(CPX, Imm) case 0xE1 => Op(SBC, IndX)
    case 0xE4 => Op(CPX, Zp) case 0xE5 => Op(SBC, Zp) case 0xE6 => Op(INC, Zp)
    case 0xE8 => Op(INX, Imp) case 0xE9 => Op(SBC, Imm) case 0xEA => Op(NOP, Imp)
    case 0xEC => Op(CPX, Abs) case 0xED => Op(SBC, Abs) case 0xEE => Op(INC, Abs)
    case 0xF0 => Op(BEQ, Rel) case 0xF1 => Op(SBC, IndY) case 0xF5 => Op(SBC, ZpX)
    case 0xF6 => Op(INC, ZpX) case 0xF8 => Op(SED, Imp) case 0xF9 => Op(SBC, AbsY)
    case 0xFD => Op(SBC, AbsX) case 0xFE => Op(INC, AbsX)
    case _ => Unknown
  }

  function Lookup(opcode: byte): Entry {
    if opcode < 0x40 then LowQuarter(opcode)
    else if opcode < 0x80 then LowMiddleQuarter(opcode)
    else if opcode < 0xC0 then HighMiddleQuarter(opcode)
    else HighQuarter(opcode)
  }

  /** The highest opcode below bound with this name and addressing mode: what a
      dictionary filled from the table in ascending order would hold. */
  function LastBelow(name: Name, mode: Mode, bound: nat): (r: Option<byte>)
    requires bound <= 0x100
    ensures r.Some? ==> r.value < bound && Lookup(r.value) == Op(name, mode)
    ensures r.None? ==> forall o: byte :: o < bound ==> Lookup(o) != Op(name, mode)
  {
    if bound == 0 then None
    else if Lookup(bound - 1) == Op(name, mode) then Some(bound - 1)
    else LastBelow(name, mode, bound - 1)
  }

  /** The assembler's inverse index of the table, by name and addressing mode. */
  function Reverse(name: Name, mode: Mode): (r: Option<byte>)
    ensures r.Some? ==> Lookup(r.value) == Op(name, mode)
    ensures r.None? ==> forall o: byte :: Lookup(o) != Op(name, mode)
  {
    LastBelow(name, mode, 0x100)
  }

  predicate Known(opcode: byte) {
    Lookup(opcode).Op?
  }

  /** Instruction length in bytes; 0 where the table has no entry. */
  function Size(opcode: byte): (n: nat)
    ensures n <= 3
    ensures n > 0 <==> Known(opcode)
  {
    match Lookup(opcode)
    case Op(_, mode) => Length(mode)
    case Unknown => 0
  }

  /** The eight conditional branches. */
  predicate IsBranch(name: Name) {
    name.BPL? || name.BMI? || name.BVC? || name.BVS? || name.BCC? || name.BCS? || name.BNE? || name.BEQ?
  }

  /** The displacement byte of a relative branch. */
  function Signed(b: byte): int {
    if b < 0x80 then b else b - 0x100
  }

  function BranchTarget(pc: word, displacement: byte): word {
    (pc + 2 + Signed(displacement)) % 0x1_0000
  }
}
