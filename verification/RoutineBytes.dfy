/** The two recognized routines, instruction by instruction at their offsets (tools/native_controller.py:11-34,
  * tools/native_dispatch.py:8-32). */
module RoutineBytes {
  import opened Bytes
  import opened Opcodes
  import opened OpcodeStructure
  import opened NativeCfg
  import opened BuildNative
  import opened CallPatterns
  import I = BankImages

  /** The program holds this instruction at an offset, and classification starts one there. */
  predicate Reads(prg: seq<byte>, counts: seq<int>, at: nat, opcode: byte, operand: word)
    requires |counts| == |prg|
  {
    Start(counts, at) && Fits(prg, at) && prg[at] == opcode && OperandAt(prg, at) == operand
  }

  lemma StepReads(prg: seq<byte>, counts: seq<int>, step: Step, at: nat, opcode: byte)
    requires |counts| == |prg| && Lookup(opcode) == Op(step.name, step.mode)
    ensures MatchesStep(prg, counts, step, at) ==>
      Reads(prg, counts, at, opcode, step.operand) && Size(prg[at]) == Length(step.mode)
  {
    hide Lookup;
    if MatchesStep(prg, counts, step, at) {
      TableIsInjective(prg[at], opcode);
    }
  }

  lemma MatchStep(prg: seq<byte>, counts: seq<int>, pattern: seq<Step>, k: nat, at: nat, opcode: byte)
    requires |counts| == |prg| && k < |pattern| && Matches(prg, counts, pattern[k..], at)
    requires Lookup(opcode) == Op(pattern[k].name, pattern[k].mode)
    ensures Reads(prg, counts, at, opcode, pattern[k].operand)
    ensures Matches(prg, counts, pattern[k + 1..], at + Length(pattern[k].mode))
  {
    hide Lookup, MatchesStep, Reads;
    assert pattern[k..][0] == pattern[k] && pattern[k..][1..] == pattern[k + 1..];
    StepReads(prg, counts, pattern[k], at, opcode);
  }

  /** The opcodes of both routines. */
  lemma RoutineOpcodes()
    ensures Lookup(0xA0) == Op(LDY, Imm) && Lookup(0x8C) == Op(STY, Abs) && Lookup(0x88) == Op(DEY, Imp)
    ensures Lookup(0xAD) == Op(LDA, Abs) && Lookup(0x85) == Op(STA, Zp) && Lookup(0x4A) == Op(LSR, Acc)
    ensures Lookup(0x05) == Op(ORA, Zp) && Lookup(0x36) == Op(ROL, ZpX) && Lookup(0xD0) == Op(BNE, Rel)
    ensures Lookup(0x60) == Op(RTS, Imp)
  {}

  lemma DispatchOpcodes()
    ensures Lookup(0x0A) == Op(ASL, Acc) && Lookup(0x84) == Op(STY, Zp) && Lookup(0xA8) == Op(TAY, Imp)
    ensures Lookup(0xC8) == Op(INY, Imp) && Lookup(0x68) == Op(PLA, Imp) && Lookup(0x85) == Op(STA, Zp)
    ensures Lookup(0xB1) == Op(LDA, IndY) && Lookup(0xA4) == Op(LDY, Zp) && Lookup(0x6C) == Op(JMP, Ind)
  {}

  /** The strobe: 1 and then 0 to $4016, and a count of eight. */
  lemma ControllerStrobes(prg: seq<byte>, counts: seq<int>, i: nat)
    requires |counts| == |prg| && Matches(prg, counts, CONTROLLER, i)
    ensures Reads(prg, counts, i, 0xA0, 1) && Reads(prg, counts, i + 2, 0x8C, 0x4016) && Reads(prg, counts, i + 5, 0x88, 0)
    ensures Reads(prg, counts, i + 6, 0x8C, 0x4016) && Reads(prg, counts, i + 9, 0xA0, 8)
    ensures Matches(prg, counts, CONTROLLER[5..], i + 11)
  {
    RoutineOpcodes();
    hide Lookup, Matches, Reads;
    assert CONTROLLER[0..] == CONTROLLER;
    MatchStep(prg, counts, CONTROLLER, 0, i, 0xA0);
    MatchStep(prg, counts, CONTROLLER, 1, i + 2, 0x8C);
    MatchStep(prg, counts, CONTROLLER, 2, i + 5, 0x88);
    MatchStep(prg, counts, CONTROLLER, 3, i + 6, 0x8C);
    MatchStep(prg, counts, CONTROLLER, 4, i + 9, 0xA0);
  }

  /** One pad: two bits of a port, joined through scratch and shifted into a byte indexed by X. */
  predicate Polls(prg: seq<byte>, counts: seq<int>, at: nat, port: word, scratch: byte, result: byte)
    requires |counts| == |prg|
  {
    && Reads(prg, counts, at, 0xAD, port) && Reads(prg, counts, at + 3, 0x85, scratch) && Reads(prg, counts, at + 5, 0x4A, 0)
    && Reads(prg, counts, at + 6, 0x05, scratch) && Reads(prg, counts, at + 8, 0x4A, 0) && Reads(prg, counts, at + 9, 0x36, result)
  }

  lemma ControllerPolls(prg: seq<byte>, counts: seq<int>, pattern: seq<Step>, k: nat, at: nat, port: word, scratch: byte,
                        result: byte)
    requires |counts| == |prg| && k + 6 <= |pattern| && Matches(prg, counts, pattern[k..], at)
    requires pattern[k] == Step(LDA, Abs, port) && pattern[k + 1] == Step(STA, Zp, scratch)
    requires pattern[k + 2] == pattern[k + 4] == Step(LSR, Acc, 0) && pattern[k + 3] == Step(ORA, Zp, scratch)
    requires pattern[k + 5] == Step(ROL, ZpX, result)
    ensures Polls(prg, counts, at, port, scratch, result) && Matches(prg, counts, pattern[k + 6..], at + 11)
  {
    RoutineOpcodes();
    hide Lookup, Matches, Reads;
    MatchStep(prg, counts, pattern, k, at, 0xAD);
    MatchStep(prg, counts, pattern, k + 1, at + 3, 0x85);
    MatchStep(prg, counts, pattern, k + 2, at + 5, 0x4A);
    MatchStep(prg, counts, pattern, k + 3, at + 6, 0x05);
    MatchStep(prg, counts, pattern, k + 4, at + 8, 0x4A);
    MatchStep(prg, counts, pattern, k + 5, at + 9, 0x36);
  }

  /** The controller routine: a strobe, then eight times both ports, through a branch back to the first read, and RTS. */
  lemma ControllerRoutine(prg: seq<byte>, counts: seq<int>, i: nat, pc: word)
    requires |counts| == |prg| && Matches(prg, counts, CONTROLLER, i)
    ensures Reads(prg, counts, i, 0xA0, 1) && Reads(prg, counts, i + 2, 0x8C, 0x4016) && Reads(prg, counts, i + 5, 0x88, 0)
    ensures Reads(prg, counts, i + 6, 0x8C, 0x4016) && Reads(prg, counts, i + 9, 0xA0, 8)
    ensures Polls(prg, counts, i + 11, 0x4016, 4, 0) && Polls(prg, counts, i + 22, 0x4017, 5, 1)
    ensures Reads(prg, counts, i + 33, 0x88, 0) && Reads(prg, counts, i + 34, 0xD0, 0xE7) && Reads(prg, counts, i + 36, 0x60, 0)
    ensures pc as int + 34 < 0x1_0000 ==> BranchTarget(pc + 34, 0xE7) == pc + 11
  {
    RoutineOpcodes();
    hide Lookup, Matches, Reads, Polls;
    ControllerStrobes(prg, counts, i);
    ControllerPolls(prg, counts, CONTROLLER, 5, i + 11, 0x4016, 4, 0);
    ControllerPolls(prg, counts, CONTROLLER, 11, i + 22, 0x4017, 5, 1);
    MatchStep(prg, counts, CONTROLLER, 17, i + 33, 0x88);
    MatchStep(prg, counts, CONTROLLER, 18, i + 34, 0xD0);
    MatchStep(prg, counts, CONTROLLER, 19, i + 36, 0x60);
  }

  /** The dispatch routine first takes the address of the table behind the call from the stack. */
  lemma DispatchTakesTable(prg: seq<byte>, counts: seq<int>, i: nat)
    requires |counts| == |prg| && Matches(prg, counts, DISPATCH, i)
    ensures Reads(prg, counts, i, 0x0A, 0) && Reads(prg, counts, i + 1, 0x84, 3) && Reads(prg, counts, i + 3, 0xA8, 0)
    ensures Reads(prg, counts, i + 4, 0xC8, 0) && Reads(prg, counts, i + 5, 0x68, 0) && Reads(prg, counts, i + 6, 0x85, 0)
    ensures Reads(prg, counts, i + 8, 0x68, 0) && Reads(prg, counts, i + 9, 0x85, 1)
    ensures Matches(prg, counts, DISPATCH[8..], i + 11)
  {
    DispatchOpcodes();
    hide Lookup, Matches, Reads;
    assert DISPATCH[0..] == DISPATCH;
    MatchStep(prg, counts, DISPATCH, 0, i, 0x0A);
    MatchStep(prg, counts, DISPATCH, 1, i + 1, 0x84);
    MatchStep(prg, counts, DISPATCH, 2, i + 3, 0xA8);
    MatchStep(prg, counts, DISPATCH, 3, i + 4, 0xC8);
    MatchStep(prg, counts, DISPATCH, 4, i + 5, 0x68);
    MatchStep(prg, counts, DISPATCH, 5, i + 6, 0x85);
    MatchStep(prg, counts, DISPATCH, 6, i + 8, 0x68);
    MatchStep(prg, counts, DISPATCH, 7, i + 9, 0x85);
  }

  /** Then it reads a word of the table, by twice A plus one, and jumps through it with Y restored. */
  lemma DispatchRoutine(prg: seq<byte>, counts: seq<int>, i: nat)
    requires |counts| == |prg| && Matches(prg, counts, DISPATCH, i)
    ensures Reads(prg, counts, i, 0x0A, 0) && Reads(prg, counts, i + 1, 0x84, 3) && Reads(prg, counts, i + 3, 0xA8, 0)
    ensures Reads(prg, counts, i + 4, 0xC8, 0) && Reads(prg, counts, i + 5, 0x68, 0) && Reads(prg, counts, i + 6, 0x85, 0)
    ensures Reads(prg, counts, i + 8, 0x68, 0) && Reads(prg, counts, i + 9, 0x85, 1)
    ensures Reads(prg, counts, i + 11, 0xB1, 0) && Reads(prg, counts, i + 13, 0x85, 2) && Reads(prg, counts, i + 15, 0xC8, 0)
    ensures Reads(prg, counts, i + 16, 0xB1, 0) && Reads(prg, counts, i + 18, 0xA4, 3) && Reads(prg, counts, i + 20, 0x85, 3)
    ensures Reads(prg, counts, i + 22, 0x6C, 2)
  {
    DispatchOpcodes();
    hide Lookup, Matches, Reads;
    DispatchTakesTable(prg, counts, i);
    MatchStep(prg, counts, DISPATCH, 8, i + 11, 0xB1);
    MatchStep(prg, counts, DISPATCH, 9, i + 13, 0x85);
    MatchStep(prg, counts, DISPATCH, 10, i + 15, 0xC8);
    MatchStep(prg, counts, DISPATCH, 11, i + 16, 0xB1);
    MatchStep(prg, counts, DISPATCH, 12, i + 18, 0xA4);
    MatchStep(prg, counts, DISPATCH, 13, i + 20, 0x85);
    MatchStep(prg, counts, DISPATCH, 14, i + 22, 0x6C);
  }

  /** Where a recognized routine is looked for is what every bank mapping shows at its address. */
  lemma FixedIsShown(address: word, slot: nat)
    requires address >= 0xE000
    ensures FixedOffset(address) == I.Shown(slot, address)
  {}
}
