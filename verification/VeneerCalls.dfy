/** The calls in the final code: which accesses and routines get one, and where it goes (tools/direct_calls.py:16-105,
  * tools/native_controller.py:37-70, tools/native_dispatch.py:34-67). */
module VeneerCalls {
  import opened Bytes
  import opened Opcodes
  import opened NativeCfg
  import opened BuildNative
  import opened DirectCalls
  import CallPatterns
  import Pipeline
  import M = GuestMachine
  import E = GuestEffects

  /** The accesses that each bridge routine serves, by routine. */
  predicate Serves(h: Handler, opcode: byte, address: word) {
    var store := opcode == 0x8C || opcode == 0x8D || opcode == 0x8E;
    match h
    case Write(slot) =>
      store && (if slot < 8 then 0x2000 <= address < 0x4000 && (address - slot) % 8 == 0
                else address == (if slot == 8 then 0x4014 else if slot == 9 then 0x4016 else if slot == 10 then 0x5203 else 0x5204)
                     && slot < 12)
    case Read(slot) =>
      opcode == 0xAD && (if slot == 0 then 0x2000 <= address < 0x4000 && (address - 2) % 8 == 0
                         else address == (if slot == 1 then 0x4016 else if slot == 2 then 0x4017 else 0x5204) && slot < 4)
    case Mapper(register) =>
      store && register == address && 0x5100 <= address < 0x512C && !(0x5115 <= address <= 0x5117)
    case Backing(register) => store && register == address && (0x4000 <= address < 0x4014 || address == 0x4015)
    case _ => false
  }

  /** Each access has at most one routine, and the one that serves it. */
  lemma HandlerExactly(opcode: byte, address: word, h: Handler)
    ensures HandlerKind(opcode, address) == Some(h) <==> Serves(h, opcode, address)
  {
    if 0x2000 <= address < 0x4000 && h.Write? && h.slot < 8 {
      SameRemainder(address, h.slot);
    }
    if 0x2000 <= address < 0x4000 {
      SameRemainder(address, 2);
    }
  }

  lemma SameRemainder(address: nat, slot: nat)
    requires slot < 8 <= address
    ensures (address - slot) % 8 == 0 <==> address % 8 == slot
  {
    var q, r := address / 8, address % 8;
    assert address - slot == 8 * q + (r - slot);
  }

  /** With the options: selectors go to the bank routine, sound registers to the counters, all else as above. */
  lemma PlannedExactly(opcode: byte, address: word, opts: Options, h: Handler)
    ensures var store := opcode == 0x8C || opcode == 0x8D || opcode == 0x8E;
      var bank := opts.bankDirect && store && 0x5115 <= address <= 0x5117;
      var sound := opts.audioCounters && store && 0x4000 <= address <= 0x4017 && address != 0x4014 && address != 0x4016;
      Planned(opcode, address, opts) == Some(h)
      <==> if bank then h == Bank(address) else if sound then h == Apu(address - 0x4000) else Serves(h, opcode, address)
  {
    HandlerExactly(opcode, address, h);
    hide HandlerKind, Serves;
  }

  /** Every access with a routine is one that classification traps and that no native operand could replace. */
  lemma PlannedIsTrapped(prg: seq<byte>, opts: Options, i: nat)
    requires Fits(prg, i) && Lookup(prg[i]).mode == Abs && Planned(prg[i], OperandAt(prg, i), opts).Some?
    ensures Trapped(prg, i) && !Pipeline.MadeSafe(prg, opts, i)
    ensures 0x2000 <= OperandAt(prg, i) < 0x5205
  {
    assert Lookup(0x8C) == Op(STY, Abs) && Lookup(0x8D) == Op(STA, Abs) && Lookup(0x8E) == Op(STX, Abs);
    assert Lookup(0xAD) == Op(LDA, Abs);
    hide Lookup;
  }

  /** Which call a start gets: a planned access its own veneer, a JSR to a recognized routine that routine's wrapper. */
  lemma CallsExactly(prg: seq<byte>, counts: seq<int>, opts: Options, i: nat, l: Label)
    requires |counts| == |prg| && Fits(prg, i)
    requires Pipeline.CallLabel(prg, counts, opts, i) == Some(l)
    ensures opts.direct && i + 3 <= |prg|
    ensures var address := prg[i + 1] as int + 0x100 * prg[i + 2] as int;
      match l
      case Direct(opcode, a) => opcode == prg[i] && a == address && Lookup(prg[i]).mode == Abs && Planned(opcode, a, opts).Some?
      case Controller(target) => opts.controller && prg[i] == 0x20 && target == address && 0xE000 <= target < 0xFFFA
      case Dispatch(target) => opts.dispatch && prg[i] == 0x20 && target == address && 0xE000 <= target < 0xFFFA
  {
    assert Lookup(0x20) == Op(JSR, Abs);
    hide Lookup, Planned, Intercept, CallPatterns.Matches;
  }

  /** A label is resident in the work RAM that all executable banks but the last mirror. */
  lemma ResidentExactly(symbols: Symbols, l: Label)
    ensures Resident(symbols, l) <==> l in symbols && 0x1000 <= symbols[l] < 0x1800
  {}

  /** With the veneers on, every planned absolute access gets one, whatever the other options. */
  lemma PlannedIsCalled(prg: seq<byte>, counts: seq<int>, opts: Options, i: nat)
    requires |counts| == |prg| && Fits(prg, i)
    ensures Pipeline.HasVeneer(prg, opts, i)
      <==> opts.direct && Lookup(prg[i]).mode == Abs && Planned(prg[i], OperandAt(prg, i), opts).Some?
    ensures Pipeline.HasVeneer(prg, opts, i) ==>
      Pipeline.CallLabel(prg, counts, opts, i) == Some(Direct(prg[i], OperandAt(prg, i)))
  {
    if Lookup(prg[i]).mode == Abs && Planned(prg[i], OperandAt(prg, i), opts).Some? {
      PlannedIsTrapped(prg, opts, i);
    }
    hide Lookup, Planned, Trapped, Pipeline.MadeSafe;
  }

  /** The final bytes of a start with a call are a JSR to its label: executed, they go there and leave the address of their
    * last byte on the stack. */
  lemma FinalCalls(prg: seq<byte>, counts: seq<int>, opts: Options, symbols: Symbols, i: nat, l: Label, g: M.Guest, e: M.Effect)
    requires Pipeline.LabelsResident(prg, counts, opts, symbols) && Start(counts, i) && Fits(prg, i)
    requires Pipeline.CallLabel(prg, counts, opts, i) == Some(l)
    ensures var final := Pipeline.Final(prg, counts, opts, symbols, i);
      && |final| == 3 && Known(final[0]) && l in symbols && 0x1000 <= symbols[l] < 0x1800
      && var next := M.Execute(g, M.Row(final[0], LittleEndian(final[1], final[2])), e);
        next.pc == symbols[l] && next.stack.page[g.stack.s] == (g.pc + 2) % 0x1_0000 / 0x100
        && next.stack.page[E.Lower(g.stack.s, 1)] == (g.pc + 2) % 0x1_0000 % 0x100
  {
    hide Pipeline.CallLabel, Lookup;
    E.CallByOpcode(g, symbols[l], e);
    E.CallOpcodes();
    assert LittleEndian(symbols[l] % 0x100, symbols[l] / 0x100) == symbols[l];
    hide M.Execute;
  }
}
