/** Branches, by the bits of their opcodes: the flag they test, where they go, and what every instruction costs
  * (tools/guest_cycles.py:17-20,59-83, tools/timeline_program.py:211-213). */
module GuestBranches {
  import opened Bytes
  import opened StatusRegister
  import opened Opcodes
  import opened OpcodeStructure
  import opened GuestCycles
  import opened BusCycles
  import M = GuestMachine

  /** The weight of the flag that a branch opcode tests: N, V, C or Z. */
  function Tested(opcode: byte): nat {
    if opcode / 64 == 0 then 0x80 else if opcode / 64 == 1 then 0x40 else if opcode / 64 == 2 then 0x01 else 0x02
  }

  /** Bit 5 of the opcode is the value the flag must have. */
  predicate Goes(opcode: byte, p: byte) {
    Bit(p, Tested(opcode)) <==> opcode / 32 % 2 == 1
  }

  lemma BranchNames(opcode: byte)
    ensures Lookup(opcode).Op? && Lookup(opcode).mode.Rel? <==> opcode % 32 == 16
    ensures opcode % 32 == 16 ==> Lookup(opcode) == ControlGroup(opcode / 32, 4)
  {
    hide Lookup, ShiftGroup, AccumulatorGroup, ControlGroup;
    var a, b, c := Split(opcode);
    NotRelative(a, b);
  }

  lemma NotRelative(a: nat, b: nat)
    requires a < 8 && b < 8
    ensures AccumulatorGroup(a, b).Op? ==> !AccumulatorGroup(a, b).mode.Rel?
    ensures ShiftGroup(a, b).Op? ==> !ShiftGroup(a, b).mode.Rel?
    ensures ControlGroup(a, b).Op? && ControlGroup(a, b).mode.Rel? <==> b == 4
  {}

  lemma TakenInGroup(a: nat, opcode: byte, p: Status)
    requires a < 8 && opcode / 32 == a
    ensures ControlGroup(a, 4).Op? && IsBranch(ControlGroup(a, 4).name)
    ensures BranchTaken(ControlGroup(a, 4).name, p) <==> Goes(opcode, Pack(p))
  {
    hide Pack, Bit;
    ArithmeticBits(p);
    assert opcode / 64 == a / 2 && opcode / 32 % 2 == a % 2;
  }

  /** Exactly the branches whose flag has the value in their opcode are taken. */
  lemma TakenByBit(opcode: byte, p: Status)
    requires opcode % 32 == 16
    ensures Known(opcode) && IsBranch(Lookup(opcode).name) && Lookup(opcode).mode == Rel
    ensures BranchTaken(Lookup(opcode).name, p) <==> Goes(opcode, Pack(p))
  {
    hide Lookup, ControlGroup, BranchTaken, Goes, IsBranch;
    BranchNames(opcode);
    TakenInGroup(opcode / 32, opcode, p);
  }

  /** Where a displacement leads from the next instruction. */
  function Landing(pc: word, displacement: byte): word {
    (pc + 2 + (if displacement < 0x80 then displacement else displacement - 0x100)) % 0x1_0000
  }

  /** A branch changes the program counter alone. */
  lemma BranchExecutes(g: M.Guest, row: M.Row, e: M.Effect)
    requires row.opcode % 32 == 16 && row.operand < 0x100
    ensures Known(row.opcode)
    ensures M.Execute(g, row, e)
      == g.(pc := if Goes(row.opcode, Pack(g.p)) then Landing(g.pc, row.operand) else (g.pc + 2) % 0x1_0000)
  {
    hide Lookup, BranchTaken, Goes;
    TakenByBit(row.opcode, g.p);
  }

  /** Cycles beyond the bus accesses of the shortest case: a carry of a read, or a taken branch and its change of page. */
  function Beyond(i: Instruction, mode: Mode): nat {
    var carried := Carried(mode, Writes(i.opcode));
    match carried
    case Fixed => 0
    case ByX => if i.operand % 0x100 + i.x as int >= 0x100 then 1 else 0
    case ByY => if i.operand % 0x100 + i.y as int >= 0x100 then 1 else 0
    case ByPointer => if i.pointer.Some? && i.pointer.value % 0x100 + i.y as int >= 0x100 then 1 else 0
    case Branch =>
      if !Goes(i.opcode, Pack(i.p)) || i.operand >= 0x100 then 0
      else if Landing(i.pc, i.operand) / 0x100 == (i.pc + 2) % 0x1_0000 / 0x100 then 1
      else 2
  }

  /** The exact cost of every documented instruction: its bus accesses. */
  lemma CostExactly(i: Instruction)
    requires Known(i.opcode) && (Size(i.opcode) == 2 ==> i.operand < 0x100)
    requires var op := Lookup(i.opcode); op.mode.IndY? && !Writes(i.opcode) ==> i.pointer.Some?
    ensures var op := Lookup(i.opcode);
      Cost(i) == Ok(Accesses(op, Writes(i.opcode), ReadsAndWrites(i.opcode)) + Beyond(i, op.mode))
  {
    TablesCountAccesses(i.opcode);
    hide Metadata, Accesses, Pack, Goes, BranchTaken;
    AllWellTimed(i.opcode);
    BranchNames(i.opcode);
    if i.opcode % 32 == 16 {
      TakenByBit(i.opcode, i.p);
    }
    hide Lookup, Writes, ReadsAndWrites;
  }
}
