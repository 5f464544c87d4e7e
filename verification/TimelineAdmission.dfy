/** What the decoder admits, address by address (tools/timeline_program.py:44-101): the gates open in one order, and each
  * access needs so many of them. */
module TimelineAdmission {
  import opened Bytes
  import opened Opcodes
  import opened OpcodeStructure
  import opened StatusRegister
  import opened TimelineDecode
  import M = GuestMachine
  import B = GuestBranches

  /** How many gates are open, in the order RAM, ROM, mapper, cartridge RAM, CPU I/O, PPU, CHR. */
  function Opened(g: Gates): nat {
    if g.chrBlank then 7 else if g.ppuBlank then 6 else if g.cpuIo then 5 else if g.cartridgeRam then 4
    else if g.mapper then 3 else if g.rom then 2 else if g.ram then 1 else 0
  }

  /** More gates than there are. */
  const NEVER: nat := 8

  /** The gates that let a program read and write an address with any instruction. */
  function ForMemory(address: nat): nat {
    if address < 0x2000 then 1
    else if address < 0x5C00 then NEVER
    else if address < 0x6000 then 5
    else if address < 0x8000 then 4
    else 2
  }

  /** The gates that let STA write a register. */
  function ForStore(address: nat): nat {
    if 0x2000 <= address < 0x4000 then 6
    else if address == 0x5100 || 0x5114 <= address < 0x5118 then 3
    else if address == 0x5102 || address == 0x5103 || address == 0x5113 then 4
    else if address == 0x5104 || address == 0x5205 || address == 0x5206 then 5
    else if 0x5105 <= address < 0x5108 then 6
    else if address == 0x5101 || 0x5120 <= address < 0x512C || address == 0x5130 then 7
    else NEVER
  }

  /** The gates that let LDA read one. */
  function ForLoad(address: nat): nat {
    if 0x2000 <= address < 0x4000 then 6 else if address == 0x5205 || address == 0x5206 then 5 else NEVER
  }

  function Least(a: nat, b: nat): nat {
    if a <= b then a else b
  }

  /** How many gates an instruction needs, by its opcode: none for jumps, branches and what stays in registers, page zero
    * or the first two pages; one for an index; and for a full address those of its region. BRK is never admitted. */
  function Needed(opcode: byte, mode: Mode, operand: nat): nat {
    if opcode == 0x00 then NEVER
    else if mode.Imp? || mode.Acc? || mode.Imm? || mode.Zp? || mode.Rel? || opcode == 0x20 || opcode == 0x4C then 0
    else if opcode == 0x6C then ForMemory(operand)
    else if mode.Abs? then
      if operand < 0x200 then 0
      else if opcode == 0x8D then Least(ForMemory(operand), ForStore(operand))
      else if opcode == 0xAD then Least(ForMemory(operand), ForLoad(operand))
      else ForMemory(operand)
    else 1
  }

  /** What the opcodes say about the names the decoder tests. */
  predicate Classed(opcode: byte, op: Entry) {
    op.Op? ==>
      && (op.name.BRK? <==> opcode == 0x00) && (op.name.BRK? ==> op.mode.Imp?)
      && (IsBranch(op.name) <==> op.mode.Rel?)
      && (op.name.JSR? <==> opcode == 0x20) && (op.name.JMP? <==> opcode == 0x4C || opcode == 0x6C)
      && (op.mode.Ind? <==> opcode == 0x6C) && (opcode == 0x20 || opcode == 0x4C ==> op.mode.Abs?)
      && (Control(op.name) && !op.name.JMP? && !op.name.JSR? ==> op.mode.Imp?)
      && (op.name.STA? && op.mode.Abs? <==> opcode == 0x8D) && (op.name.LDA? && op.mode.Abs? <==> opcode == 0xAD)
  }

  lemma ControlClassed(a: nat, b: nat, opcode: byte)
    requires a < 8 && b < 8 && opcode as int == 32 * a + 4 * b
    ensures Classed(opcode, ControlGroup(a, b))
  {}

  lemma AccumulatorClassed(a: nat, b: nat, opcode: byte)
    requires a < 8 && b < 8 && opcode as int == 32 * a + 4 * b + 1
    ensures Classed(opcode, AccumulatorGroup(a, b))
  {}

  lemma ShiftClassed(a: nat, b: nat, opcode: byte)
    requires a < 8 && b < 8 && opcode as int == 32 * a + 4 * b + 2
    ensures Classed(opcode, ShiftGroup(a, b))
  {}

  lemma NothingClassed(opcode: byte)
    ensures Classed(opcode, Unknown)
  {}

  lemma TableClassed(opcode: byte)
    ensures Classed(opcode, Lookup(opcode))
  {
    hide Lookup, Classed, ControlGroup, AccumulatorGroup, ShiftGroup;
    var a, b, c := Split(opcode);
    if c == 0 {
      ControlClassed(a, b, opcode);
    } else if c == 1 {
      AccumulatorClassed(a, b, opcode);
    } else if c == 2 {
      ShiftClassed(a, b, opcode);
    } else {
      NothingClassed(opcode);
    }
  }

  /** An instruction is admitted exactly when enough gates are open. */
  lemma AdmittedExactly(g: Gates, opcode: byte, operand: nat)
    requires GatesNested(g) && Known(opcode)
    ensures var op := Lookup(opcode);
      Allowed(g, op.name, op.mode, operand) <==> Opened(g) >= Needed(opcode, op.mode, operand)
  {
    TableClassed(opcode);
    ClassedIsAdmitted(g, opcode, Lookup(opcode), operand);
    hide Lookup, Classed, Allowed, Needed;
  }

  lemma ClassedIsAdmitted(g: Gates, opcode: byte, op: Entry, operand: nat)
    requires GatesNested(g) && op.Op? && Classed(opcode, op)
    ensures Allowed(g, op.name, op.mode, operand) <==> Opened(g) >= Needed(opcode, op.mode, operand)
  {
    if op.mode.Abs? && !op.name.JMP? && !op.name.JSR? {
      AbsoluteIsAdmitted(g, opcode, op, operand);
    } else {
      hide Storable, Ported, MapperRegister, ForStore, ForLoad;
    }
  }

  lemma AbsoluteIsAdmitted(g: Gates, opcode: byte, op: Entry, operand: nat)
    requires GatesNested(g) && op.Op? && Classed(opcode, op) && op.mode.Abs? && !op.name.JMP? && !op.name.JSR?
    ensures Allowed(g, op.name, op.mode, operand) <==> Opened(g) >= Needed(opcode, op.mode, operand)
  {
    ReadableExactly(g, operand);
    StorableExactly(g, operand);
    PortedExactly(g, operand);
    hide Readable, Storable, Ported, ForMemory, ForStore, ForLoad, Control, GatesNested, Opened;
  }

  lemma ReadableExactly(g: Gates, operand: nat)
    requires GatesNested(g)
    ensures Readable(g, operand) <==> Opened(g) >= ForMemory(operand)
  {}

  lemma PortedExactly(g: Gates, operand: nat)
    requires GatesNested(g)
    ensures Ported(g, operand) <==> Opened(g) >= ForLoad(operand)
  {}

  lemma StorableExactly(g: Gates, operand: nat)
    requires GatesNested(g)
    ensures Storable(g, operand) || Ported(g, operand) <==> Opened(g) >= ForStore(operand)
  {}

  /** A program of one instruction is outside the contract exactly when too few gates are open; else it is decoded,
    * unless it goes to an address that is not declared. */
  lemma OneLineExactly(g: Gates, code: seq<byte>, origin: int)
    requires GatesNested(g) && Fits(|code|, origin) && Known(code[0]) && |code| == Size(code[0])
    ensures var op := Lookup(code[0]); var r := Decoded(g, code, origin, [origin]);
      var line := Line(origin, op.name, op.mode, code, Value(code[1..]));
      if Opened(g) < Needed(code[0], op.mode, Value(code[1..])) then r == Err(OutsideContract)
      else r == if Reaches(g, [origin], line) then Ok([line]) else Err(UnknownTarget)
  {
    var op := Lookup(code[0]);
    var line := Line(origin, op.name, op.mode, code, Value(code[1..]));
    AdmittedExactly(g, code[0], Value(code[1..]));
    hide Lookup, Allowed, Needed, GatesNested, Reaches, Opened;
    assert code[0..|code|] == code;
    assert LineAt(code, origin, 0) == Ok(line);
    assert LinesFrom(g, code, origin, |code|) == Ok([]);
    var lines: seq<Line> := [line] + [];
    assert lines == [line] && lines[0] == line;
  }

  /** Everything that g opens, h opens too, with the same static targets. */
  predicate OpensMore(g: Gates, h: Gates) {
    && (g.ram ==> h.ram) && (g.rom ==> h.rom) && (g.mapper ==> h.mapper) && (g.cartridgeRam ==> h.cartridgeRam)
    && (g.cpuIo ==> h.cpuIo) && (g.ppuBlank ==> h.ppuBlank) && (g.chrBlank ==> h.chrBlank) && g.targets == h.targets
  }

  /** Opening a gate refuses nothing that was decoded before. */
  lemma OpeningKeepsDecoding(g: Gates, h: Gates, code: seq<byte>, origin: int, starts: seq<int>)
    requires OpensMore(g, h) && GatesNested(h) && Decoded(g, code, origin, starts).Ok?
    ensures Decoded(h, code, origin, starts) == Decoded(g, code, origin, starts)
  {
    var lines := Decoded(g, code, origin, starts).value;
    DecodesExactly(g, code, origin, starts, lines);
    DecodesExactly(h, code, origin, starts, lines);
    hide Decoded, Tiles, GatesNested, Fits, Rising;
    forall i | 0 <= i < |lines| ensures Allowed(h, lines[i].name, lines[i].mode, lines[i].operand) {
      OpeningAdmits(g, h, lines[i].name, lines[i].mode, lines[i].operand);
    }
    hide Allowed;
    assert AllReach(h, starts, lines);
  }

  lemma OpeningAdmits(g: Gates, h: Gates, name: Name, mode: Mode, operand: int)
    requires OpensMore(g, h) && Allowed(g, name, mode, operand)
    ensures Allowed(h, name, mode, operand)
  {
    hide IsBranch, Control, Indexed;
  }

  /** The refusals before any instruction is looked at: gates out of order, a code outside the cartridge window or over
    * 2048 bytes, and starts that do not rise. */
  lemma RefusedExactly(g: Gates, code: seq<byte>, origin: int, starts: seq<int>)
    ensures var r := Decoded(g, code, origin, starts); var n := Opened(g);
      var ordered := g.ram == (n >= 1) && g.rom == (n >= 2) && g.mapper == (n >= 3) && g.cartridgeRam == (n >= 4)
        && g.cpuIo == (n >= 5) && g.ppuBlank == (n >= 6)
        && (g.targets.Some? ==> n >= 3 && forall t <- g.targets.value :: 0x8000 <= t < 0x1_0000);
      var bounded := 0 < |code| <= 0x800 && 0x8000 <= origin <= 0xFFF0 && origin + |code| <= 0xFFFA;
      && (r == Err(GateMissing) <==> !ordered)
      && (r == Err(Unbounded) <==> ordered && !bounded)
      && (r == Err(Unordered) <==>
            ordered && bounded && exists i {:trigger starts[i]} :: 0 < i < |starts| && starts[i] <= starts[i - 1])
  {
    LinesRefuse(g, code, origin, 0);
    RisingByNeighbours(starts);
    hide LinesFrom, Rising, AtStarts, AllReach;
  }

  lemma {:induction false} RisesTo(starts: seq<int>, i: nat, j: nat)
    requires i < j < |starts| && forall k {:trigger starts[k]} :: 0 < k < |starts| ==> starts[k - 1] < starts[k]
    ensures starts[i] < starts[j]
    decreases j
  {
    assert starts[j - 1] < starts[j];
    if i < j - 1 {
      RisesTo(starts, i, j - 1);
    }
  }

  lemma RisingByNeighbours(starts: seq<int>)
    ensures Rising(starts) <==> forall k {:trigger starts[k]} :: 0 < k < |starts| ==> starts[k - 1] < starts[k]
  {
    if forall k {:trigger starts[k]} :: 0 < k < |starts| ==> starts[k - 1] < starts[k] {
      forall i, j | 0 <= i < j < |starts| ensures starts[i] < starts[j] {
        RisesTo(starts, i, j);
      }
    }
  }

  /** The target that decoding checks for a branch is where it goes when it is taken. */
  lemma BranchTargetIsExecuted(line: Line, opcode: byte, g: M.Guest, e: M.Effect)
    requires opcode % 32 == 16 && Known(opcode) && Lookup(opcode) == Op(line.name, line.mode)
    requires line.pc == g.pc && 0 <= line.operand < 0x100 && B.Goes(opcode, Pack(g.p))
    ensures Target(line) == Some(M.Execute(g, M.Row(opcode, line.operand), e).pc)
  {
    B.BranchNames(opcode);
    B.BranchExecutes(g, M.Row(opcode, line.operand), e);
    TableClassed(opcode);
    hide M.Execute, Lookup, Pack, B.Goes, Control;
  }

  /** The target that decoding checks for a jump or a call is where it goes. */
  lemma JumpTargetIsExecuted(line: Line, opcode: byte, g: M.Guest, e: M.Effect)
    requires Known(opcode) && Lookup(opcode) == Op(line.name, line.mode) && 0 <= line.operand < 0x1_0000
    requires (line.name == JMP || line.name == JSR) && line.mode == Abs
    ensures Target(line) == Some(M.Execute(g, M.Row(opcode, line.operand), e).pc)
  {
    hide Lookup;
  }

  /** Nothing else has a target in the code. */
  lemma TargetExists(line: Line)
    ensures Target(line).Some? <==> line.mode == Rel || ((line.name == JMP || line.name == JSR) && line.mode == Abs)
  {}

  lemma {:induction false} LinesRefuse(g: Gates, code: seq<byte>, origin: int, pos: nat)
    requires pos <= |code|
    ensures LinesFrom(g, code, origin, pos).Err? ==>
      (var e := LinesFrom(g, code, origin, pos).error; e.UnknownOpcode? || e.Truncated? || e.OutsideContract?)
    decreases |code| - pos
  {
    hide Lookup, Allowed, Value;
    if pos < |code| && LineAt(code, origin, pos).Ok? {
      LinesRefuse(g, code, origin, pos + Length(LineAt(code, origin, pos).value.mode));
    }
  }
}
