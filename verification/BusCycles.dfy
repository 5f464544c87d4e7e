/** Cycle counts as bus accesses: an independent account of the timing tables (tools/guest_cycles.py:12-83).
  * Every cycle of the processor reads or writes one byte, wanted or not. */
module BusCycles {
  import opened Bytes
  import opened StatusRegister
  import opened Opcodes
  import opened OpcodeStructure
  import opened GuestCycles

  /** By opcode bits: the operations that write their operand, and those that read it first. */
  predicate Writes(opcode: byte) {
    (opcode % 4 == 2 && opcode / 32 != 5) || (opcode % 4 != 2 && opcode / 32 == 4)
  }

  predicate ReadsAndWrites(opcode: byte) {
    opcode % 4 == 2 && opcode / 32 != 4 && opcode / 32 != 5
  }

  /** The opcode and its operand; a single byte is followed by a read for nothing. */
  function Fetches(mode: Mode): nat {
    if Length(mode) == 1 then 2 else Length(mode)
  }

  /** Two bytes of a pointer, and one read while an index is added: always in page zero and before a write. */
  function Addressing(mode: Mode, writes: bool): nat {
    (if mode.IndX? || mode.IndY? || mode.Ind? then 2 else 0)
    + (if mode.ZpX? || mode.ZpY? || mode.IndX? then 1
       else if (mode.AbsX? || mode.AbsY? || mode.IndY?) && writes then 1
       else 0)
  }

  predicate HasOperand(mode: Mode) {
    Length(mode) > 1 && !mode.Imm? && !mode.Rel? && !mode.Ind?
  }

  /** Stack bytes, with one cycle to step S before the first pull, one inside JSR, one for RTS to step the address, and
    * two for BRK to read its vector. */
  function StackCycles(name: Name): nat {
    match name
    case PHA => 1 case PHP => 1
    case PLA => 1 + 1 case PLP => 1 + 1
    case JSR => 2 + 1
    case RTS => 2 + 1 + 1
    case RTI => 3 + 1
    case BRK => 3 + 2
    case _ => 0
  }

  /** The least number of accesses of an instruction. */
  function Accesses(op: Entry, writes: bool, both: bool): nat
    requires op.Op?
  {
    var jumps := op.name.JMP? || op.name.JSR?;
    Fetches(op.mode) + StackCycles(op.name) + Addressing(op.mode, writes && !jumps)
    + (if !HasOperand(op.mode) || jumps then 0 else if both then 3 else 1)
  }

  /** The index whose carry costs a cycle: of a read through a full address. */
  function Carried(mode: Mode, writes: bool): Adjustment {
    if mode.Rel? then Branch
    else if writes then Fixed
    else if mode.AbsX? then ByX else if mode.AbsY? then ByY else if mode.IndY? then ByPointer else Fixed
  }

  /** What the names of an entry say about its mode and about its operand. */
  predicate Formed(op: Entry, writes: bool, both: bool) {
    op.Op? ==>
      && (IsBranch(op.name) <==> op.mode.Rel?)
      && (op.mode.Ind? ==> op.name.JMP?) && (op.name.JMP? ==> op.mode.Abs? || op.mode.Ind?) && (op.name.JSR? ==> op.mode.Abs?)
      && (Special(op.name).Some? && !op.name.JSR? ==> op.mode.Imp?)
      && (IsReadModifyWrite(op.name) ==> op.mode.Acc? || ReadModifyWriteBase(op.mode).Some?)
      && (IsStoreName(op.name) ==> StoreBase(op.mode).Some?)
      && (HasOperand(op.mode) && !op.name.JMP? && !op.name.JSR? ==>
            (both <==> IsReadModifyWrite(op.name)) && (writes <==> IsReadModifyWrite(op.name) || IsStoreName(op.name)))
  }

  lemma AccumulatorFormed(a: nat, b: nat)
    requires a < 8 && b < 8
    ensures Formed(AccumulatorGroup(a, b), a == 4, false)
  {}

  lemma ShiftFormed(a: nat, b: nat)
    requires a < 8 && b < 8
    ensures Formed(ShiftGroup(a, b), a != 5, a != 4 && a != 5)
  {}

  lemma ControlFormed(a: nat, b: nat)
    requires a < 8 && b < 8
    ensures Formed(ControlGroup(a, b), a == 4, false)
  {}

  lemma TableIsFormed(opcode: byte)
    ensures Formed(Lookup(opcode), Writes(opcode), ReadsAndWrites(opcode))
  {
    hide Lookup, Formed, AccumulatorGroup, ShiftGroup, ControlGroup;
    var a, b, c := Split(opcode);
    AccumulatorFormed(a, b);
    ShiftFormed(a, b);
    ControlFormed(a, b);
    NothingFormed(Writes(opcode), ReadsAndWrites(opcode));
  }

  lemma NothingFormed(writes: bool, both: bool)
    ensures Formed(Unknown, writes, both)
  {}

  /** A jump never carries, and only what has an operand in memory can. */
  lemma FormedCounts(op: Entry, writes: bool, both: bool)
    requires op.Op? && Formed(op, writes, both)
    ensures Metadata(op) == Some(Timing(Accesses(op, writes, both), Carried(op.mode, writes)))
  {}

  /** The tables count the bus accesses of every documented opcode. */
  lemma TablesCountAccesses(opcode: byte)
    requires Known(opcode)
    ensures var op := Lookup(opcode); var writes := Writes(opcode);
      Metadata(op) == Some(Timing(Accesses(op, writes, ReadsAndWrites(opcode)), Carried(op.mode, writes)))
  {
    hide Lookup, Formed, Metadata;
    TableIsFormed(opcode);
    FormedCounts(Lookup(opcode), Writes(opcode), ReadsAndWrites(opcode));
  }
}
