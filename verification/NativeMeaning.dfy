/** What the translated code does to each memory access: left native exactly where that is sound, at the same cost. */
module NativeMeaning {
  import opened Bytes
  import opened Opcodes
  import opened OpcodeStructure
  import opened NativeCfg
  import opened BuildNative
  import opened NativeSafe
  import opened NativeAddress
  import opened CallPatterns
  import DirectCalls
  import Pipeline
  import G = GuestCycles

  /** Modes whose operand names memory to read or write. */
  predicate NamesMemory(mode: Mode) {
    Length(mode) > 1 && mode != Imm && mode != Rel && mode != Ind
  }

  /** The instruction of the program at i accesses memory through a mode other than the two pointer modes. */
  predicate AccessAt(prg: seq<byte>, i: nat) {
    && Fits(prg, i) && NamesMemory(Lookup(prg[i]).mode)
    && Lookup(prg[i]).name != JMP && Lookup(prg[i]).name != JSR
    && Lookup(prg[i]).mode != IndX && Lookup(prg[i]).mode != IndY
  }

  predicate OperatesOnMemory(op: Entry) {
    op.Op? ==>
      && (NamesMemory(op.mode) ==> (IsOperation(op.name) <==> op.name != JMP && op.name != JSR))
      && (op.mode == Imp || op.mode == Rel || op.mode == Ind ==> !IsOperation(op.name))
      && (op.name == JMP || op.name == JSR ==> op.mode == Abs || op.mode == Ind)
  }

  lemma AccumulatorsOperate(a: nat, b: nat)
    requires a < 8 && b < 8
    ensures OperatesOnMemory(AccumulatorGroup(a, b))
  {}

  lemma ShiftsOperate(a: nat, b: nat)
    requires a < 8 && b < 8
    ensures OperatesOnMemory(ShiftGroup(a, b))
  {}

  lemma ControlsOperate(a: nat, b: nat)
    requires a < 8 && b < 8
    ensures OperatesOnMemory(ControlGroup(a, b))
  {}

  /** The classifier's operations are the documented accesses to memory: what names memory and does not jump there, and
    * nothing that has no operand, branches or jumps. */
  lemma OperationsAreAccesses(opcode: byte)
    requires Known(opcode)
    ensures var op := Lookup(opcode);
      && (NamesMemory(op.mode) ==> (IsOperation(op.name) <==> op.name != JMP && op.name != JSR))
      && (op.mode == Imp || op.mode == Rel || op.mode == Ind ==> !IsOperation(op.name))
      && (op.name == JMP || op.name == JSR ==> op.mode == Abs || op.mode == Ind)
  {
    hide Lookup, IsOperation, NamesMemory, AccumulatorGroup, ShiftGroup, ControlGroup;
    var a, b, c := Split(opcode);
    AccumulatorsOperate(a, b);
    ShiftsOperate(a, b);
    ControlsOperate(a, b);
  }

  lemma AccessIsModelled(prg: seq<byte>, i: nat)
    requires AccessAt(prg, i)
    ensures Access(Lookup(prg[i]), OperandAt(prg, i))
  {
    OperationsAreAccesses(prg[i]);
    hide Lookup, IsOperation;
  }

  ghost predicate SoundHere(prg: seq<byte>, i: nat, native: word)
    requires AccessAt(prg, i)
  {
    AccessIsModelled(prg, i);
    Sound(Lookup(prg[i]).mode, OperandAt(prg, i), native)
  }

  lemma AccessIsNoTrapOpcode(prg: seq<byte>, i: nat)
    requires AccessAt(prg, i)
    ensures prg[i] != 0x02 && prg[i] != 0x20 && !Lookup(prg[i]).name.TXS?
  {
    assert Lookup(0x20).name == JSR;
    assert Lookup(0x02) == Unknown;
  }

  /** The operands of each instruction length. */
  lemma OperandFitsExactly(operand: int, mode: Mode)
    ensures OperandFits(operand, Length(mode))
      <==> 0 <= operand <= (if Length(mode) == 1 then 0 else if Length(mode) == 2 then 0xFF else 0xFFFF)
  {}

  /** The bytes of an instruction are its opcode and its operand. */
  lemma InstructionIsEncoded(prg: seq<byte>, i: nat)
    requires Fits(prg, i)
    ensures OperandFits(OperandAt(prg, i), Size(prg[i]))
    ensures prg[i..i + Size(prg[i])] == Encoded(prg[i], OperandAt(prg, i))
  {
    hide Lookup;
    var n := Size(prg[i]);
    if n == 3 {
      assert prg[i..i + 3] == [prg[i], prg[i + 1], prg[i + 2]];
    } else if n == 2 {
      assert prg[i..i + 2] == [prg[i], prg[i + 1]];
    } else {
      assert prg[i..i + 1] == [prg[i]];
    }
  }

  /** Zero-page indexing from 0 needs no emulation, yet only the safe pass leaves it native. */
  predicate ZeroIndexed(prg: seq<byte>, i: nat)
    requires AccessAt(prg, i)
  {
    (Lookup(prg[i]).mode.ZpX? || Lookup(prg[i]).mode.ZpY?) && OperandAt(prg, i) == 0
  }

  lemma IssuedUntrapped(prg: seq<byte>, i: nat)
    requires AccessAt(prg, i)
    ensures !Trapped(prg, i)
      <==> Issued(Lookup(prg[i]), OperandAt(prg, i)) == Some(OperandAt(prg, i)) && !ZeroIndexed(prg, i)
  {
    AccessIsModelled(prg, i);
    hide Opcodes.Lookup;
  }

  /** The final code keeps an access native exactly when some operand makes that sound for every index, and then holds
    * that operand; without the safe pass, exactly when its own operand does and it is not indexed from 0. Every other
    * access is a trap or a call. */
  lemma FinalAccess(prg: seq<byte>, counts: seq<int>, opts: DirectCalls.Options, symbols: DirectCalls.Symbols, i: nat)
    requires Pipeline.LabelsResident(prg, counts, opts, symbols) && Start(counts, i) && AccessAt(prg, i)
    ensures var final := Pipeline.Final(prg, counts, opts, symbols, i);
      (final[0] == prg[i] <==>
        if opts.safeAddresses then exists native: word :: SoundHere(prg, i, native)
        else SoundHere(prg, i, OperandAt(prg, i)) && !ZeroIndexed(prg, i))
      && (forall native: word :: SoundHere(prg, i, native) && final[0] == prg[i] ==>
            OperandFits(native, Size(prg[i])) && final == Encoded(prg[i], native))
      && (final[0] != prg[i] ==> final[0] == 0x02 || final[0] == 0x20)
  {
    hide Opcodes.Lookup, Intercept, DirectCalls.Planned, CallPatterns.CallsPattern, Sound, Issued, ZeroIndexed;
    var op, operand := Lookup(prg[i]), OperandAt(prg, i);
    AccessIsNoTrapOpcode(prg, i);
    AccessIsModelled(prg, i);
    InstructionIsEncoded(prg, i);
    NoRoutine(prg, counts, i);
    IssuedAt(prg, i);
    IssuedUntrapped(prg, i);
    IssuedExactlyWhenSound(op, operand, operand);
    forall native: word | SoundHere(prg, i, native)
      ensures Issued(op, operand) == Some(native)
    {
      IssuedExactlyWhenSound(op, operand, native);
    }
    if Issued(op, operand).Some? {
      IssuedExactlyWhenSound(op, operand, Issued(op, operand).value);
      assert SoundHere(prg, i, Issued(op, operand).value);
    }
  }

  /** An access through a pointer is always trapped. */
  lemma FinalIndirect(prg: seq<byte>, counts: seq<int>, opts: DirectCalls.Options, symbols: DirectCalls.Symbols, i: nat)
    requires Pipeline.LabelsResident(prg, counts, opts, symbols) && Start(counts, i) && Fits(prg, i)
    requires Lookup(prg[i]).mode == IndX || Lookup(prg[i]).mode == IndY
    ensures Pipeline.Final(prg, counts, opts, symbols, i) == [0x02, prg[i]]
  {
    assert Lookup(0x20) == Op(JSR, Abs);
    NoRoutine(prg, counts, i);
    IndirectTrap(prg, i);
    hide Opcodes.Lookup, Intercept, DirectCalls.Planned, CallPatterns.CallsPattern;
  }

  lemma IndirectTrap(prg: seq<byte>, i: nat)
    requires Fits(prg, i)
    requires Lookup(prg[i]).mode == IndX || Lookup(prg[i]).mode == IndY
    ensures Trapped(prg, i) && !Choose(prg, i).Native? && Patch(prg, i) == [0x02, prg[i]]
  {
    OperationsAreAccesses(prg[i]);
    hide Opcodes.Lookup;
  }

  /** PLP is left native, so the guest may set any flag, D too, before a later store. */
  lemma PullStaysNative(prg: seq<byte>, counts: seq<int>, opts: DirectCalls.Options, symbols: DirectCalls.Symbols, i: nat)
    requires Pipeline.LabelsResident(prg, counts, opts, symbols) && Start(counts, i) && i < |prg| && prg[i] == 0x28
    ensures Fits(prg, i) && Refusal(prg, counts, i).None?
    ensures Pipeline.Final(prg, counts, opts, symbols, i) == [0x28]
  {
    assert Lookup(0x28) == Op(PLP, Imp);
    NoRoutine(prg, counts, i);
    hide Opcodes.Lookup, DirectCalls.Planned, CallPatterns.CallsPattern;
    assert prg[i..i + 1] == [0x28];
  }

  /** The opcodes that may be refused. */
  predicate RefusedBy(opcode: byte, op: Entry) {
    op.Op? ==>
      && (op.name == TXS <==> opcode == 0x9A) && (op.name == BRK <==> opcode == 0x00) && (op.name == SED <==> opcode == 0xF8)
      && (op.mode == Ind <==> opcode == 0x6C) && (opcode == 0x6C ==> op.name == JMP)
  }

  lemma GroupRefused(a: nat, b: nat, opcode: byte)
    requires a < 8 && b < 8
    ensures opcode as int == 32 * a + 4 * b ==> RefusedBy(opcode, ControlGroup(a, b))
    ensures opcode as int == 32 * a + 4 * b + 1 ==> RefusedBy(opcode, AccumulatorGroup(a, b))
    ensures opcode as int == 32 * a + 4 * b + 2 ==> RefusedBy(opcode, ShiftGroup(a, b))
  {}

  lemma RefusedOpcodes(opcode: byte)
    ensures RefusedBy(opcode, Lookup(opcode))
  {
    hide Lookup, AccumulatorGroup, ShiftGroup, ControlGroup;
    var a, b, c := Split(opcode);
    GroupRefused(a, b, opcode);
  }

  /** Which classified instructions are refused, in this order: unknown opcodes; those cut off or overlapped; TXS but right
    * after LDX #$FF; BRK and SED; and an indirect JMP through the last byte of a page. */
  lemma RefusedExactly(prg: seq<byte>, counts: seq<int>, i: nat)
    requires |counts| == |prg| && i < |prg|
    ensures var r := Refusal(prg, counts, i);
      if Lookup(prg[i]) == Unknown then r == Some(UnknownOpcode(i))
      else if i + Size(prg[i]) > |prg| || exists j :: i < j < i + Size(prg[i]) && counts[j] != 0 then
        r == Some(OverlappingOrTruncated(i))
      else if prg[i] == 0x9A then r == if i > 1 && prg[i - 2] == 0xA2 && prg[i - 1] == 0xFF then None else Some(StackTransfer(i))
      else if prg[i] == 0x00 || prg[i] == 0xF8 then r == Some(NeedsTranslation(i))
      else if prg[i] == 0x6C && prg[i + 1] == 0xFF then r == Some(IndirectPageWrap(i))
      else r == None
  {
    RefusedOpcodes(prg[i]);
    hide Lookup;
    if i + Size(prg[i]) <= |prg| && Size(prg[i]) == 3 {
      LowByte(prg[i + 1], prg[i + 2]);
    }
  }

  lemma LowByte(low: byte, high: byte)
    ensures LittleEndian(low, high) % 0x100 == low
  {}

  /** No pass changes the length of an instruction. */
  lemma FinalKeepsLength(prg: seq<byte>, counts: seq<int>, opts: DirectCalls.Options, symbols: DirectCalls.Symbols, i: nat)
    requires Pipeline.LabelsResident(prg, counts, opts, symbols) && Start(counts, i) && Fits(prg, i)
    ensures |Pipeline.Final(prg, counts, opts, symbols, i)| == Size(prg[i])
  {
    hide Intercept, DirectCalls.Planned;
    if CallsPattern(prg, counts, CONTROLLER, i) || CallsPattern(prg, counts, DISPATCH, i) {
      Pipeline.JsrStaysPlain(prg, i);
    }
  }

  lemma NoRoutine(prg: seq<byte>, counts: seq<int>, i: nat)
    requires |counts| == |prg| && i < |prg| && prg[i] != 0x20
    ensures !CallsPattern(prg, counts, CONTROLLER, i) && !CallsPattern(prg, counts, DISPATCH, i)
  {}

  /** Classification and substitution issue an operand exactly at the starts they leave native. */
  lemma IssuedAt(prg: seq<byte>, i: nat)
    requires AccessAt(prg, i)
    ensures var issued := Issued(Lookup(prg[i]), OperandAt(prg, i));
      (issued.None? <==> Trapped(prg, i) && !Choose(prg, i).Native?)
      && (issued.Some? && Trapped(prg, i) ==> issued.value == Choose(prg, i).operand)
      && (issued.Some? && !Trapped(prg, i) ==> issued.value == OperandAt(prg, i))
  {
    AccessIsModelled(prg, i);
    hide Opcodes.Lookup, Intercept;
  }

  /** A substitution keeps the charged cycles, whatever the registers. */
  lemma SubstitutionKeepsCost(i: G.Instruction)
    requires Rule(Lookup(i.opcode), i.operand).Native?
    ensures G.Cost(i.(operand := Rule(Lookup(i.opcode), i.operand).operand)) == G.Cost(i)
  {
    hide Opcodes.Lookup, IsOperation;
    var native := Rule(Lookup(i.opcode), i.operand).operand;
    LowByteStays(i.operand);
    G.AllWellTimed(i.opcode);
    hide Rule;
    assert native % 0x100 == i.operand % 0x100;
  }

  lemma LowByteStays(operand: word)
    ensures operand % 0x800 % 0x100 == operand % 0x100
  {}
}
