/** The expanded code map against execution: the addresses the worklist queues are exactly those that instructions go to
  * (tools/native_cfg.py:19-53), and it maps them exactly where every bank mapping agrees. */
module ControlFlow {
  import opened Bytes
  import opened StatusRegister
  import opened Opcodes
  import opened OpcodeStructure
  import opened NativeCfg
  import opened InterruptBoundary
  import M = GuestMachine
  import B = GuestBranches
  import I = BankImages

  /** The instruction of the program at i, as the guest executes it. */
  function RowAt(prg: seq<byte>, i: nat): M.Row
    requires Fits(prg, i)
  {
    M.Row(prg[i], OperandAt(prg, i))
  }

  /** Some state at pc goes on to t. */
  ghost predicate LeadsTo(prg: seq<byte>, i: nat, pc: word, t: word)
    requires Fits(prg, i)
  {
    exists g: M.Guest, e: M.Effect :: g.pc == pc && M.Execute(g, RowAt(prg, i), e).pc == t
  }

  /** The opcodes whose next address is not in the code: BRK, RTI, RTS and the indirect JMP. */
  predicate Computed(opcode: byte) {
    opcode == 0x00 || opcode == 0x40 || opcode == 0x60 || opcode == 0x6C
  }

  /** How an opcode moves on, by its bits. */
  predicate MovesAs(opcode: byte, op: Entry) {
    op.Op? ==>
      && (opcode % 32 == 16 <==> op.mode.Rel?) && (opcode % 32 == 16 <==> IsBranch(op.name))
      && (op.name.JSR? <==> opcode == 0x20) && (op.name.JMP? <==> opcode == 0x4C || opcode == 0x6C)
      && (op.name.RTS? <==> opcode == 0x60) && (op.name.RTI? <==> opcode == 0x40) && (op.name.BRK? <==> opcode == 0x00)
      && (opcode == 0x20 || opcode == 0x4C ==> op.mode.Abs?) && (opcode == 0x6C ==> op.mode.Ind?)
  }

  lemma ControlMoves(a: nat, b: nat, opcode: byte)
    requires a < 8 && b < 8 && opcode as int == 32 * a + 4 * b
    ensures MovesAs(opcode, ControlGroup(a, b))
  {
    assert opcode % 32 == 4 * b;
  }

  lemma AccumulatorMoves(a: nat, b: nat, opcode: byte)
    requires a < 8 && b < 8 && opcode as int == 32 * a + 4 * b + 1
    ensures MovesAs(opcode, AccumulatorGroup(a, b))
  {
    assert opcode % 32 == 4 * b + 1;
  }

  lemma ShiftMoves(a: nat, b: nat, opcode: byte)
    requires a < 8 && b < 8 && opcode as int == 32 * a + 4 * b + 2
    ensures MovesAs(opcode, ShiftGroup(a, b))
  {
    assert opcode % 32 == 4 * b + 2;
  }

  lemma TableMoves(opcode: byte)
    ensures MovesAs(opcode, Lookup(opcode))
  {
    hide Lookup, MovesAs, ControlGroup, AccumulatorGroup, ShiftGroup;
    var a, b, c := Split(opcode);
    if c == 0 {
      ControlMoves(a, b, opcode);
    } else if c == 1 {
      AccumulatorMoves(a, b, opcode);
    } else if c == 2 {
      ShiftMoves(a, b, opcode);
    } else {
      NothingMoves(opcode);
    }
  }

  lemma NothingMoves(opcode: byte)
    ensures MovesAs(opcode, Unknown)
  {}

  lemma BranchTargets(prg: seq<byte>, noreturn: set<word>, i: nat, pc: word)
    requires Fits(prg, i) && prg[i] % 32 == 16
    ensures Size(prg[i]) == 2 && OperandAt(prg, i) == prg[i + 1]
    ensures Targets(prg, noreturn, i, pc) == [B.Landing(pc, prg[i + 1]), (pc + 2) % 0x1_0000]
  {
    TableMoves(prg[i]);
    hide Lookup, B.Landing, BranchTarget;
    LandingIsTarget(pc, prg[i + 1]);
  }

  /** Where an instruction goes that neither branches nor calls. */
  function Next(prg: seq<byte>, i: nat, pc: word): word
    requires Fits(prg, i)
  {
    if prg[i] == 0x4C then OperandAt(prg, i) else (pc + Size(prg[i])) % 0x1_0000
  }

  lemma OtherTargets(prg: seq<byte>, noreturn: set<word>, i: nat, pc: word)
    requires Fits(prg, i) && !Computed(prg[i]) && prg[i] != 0x20 && prg[i] % 32 != 16
    ensures Targets(prg, noreturn, i, pc) == [Next(prg, i, pc)]
  {
    TableMoves(prg[i]);
    hide Lookup, BranchTarget;
  }

  lemma OtherExecutes(prg: seq<byte>, i: nat, g: M.Guest, e: M.Effect)
    requires Fits(prg, i) && !Computed(prg[i]) && prg[i] != 0x20 && prg[i] % 32 != 16
    ensures M.Execute(g, RowAt(prg, i), e).pc == Next(prg, i, g.pc)
  {
    TableMoves(prg[i]);
    hide Lookup, BranchTarget, Pack, Unpack, Top, Push, Pop;
  }

  /** Whatever the state and whatever the data, execution goes to an address the worklist queues. */
  lemma ExecutionIsQueued(prg: seq<byte>, noreturn: set<word>, i: nat, g: M.Guest, e: M.Effect)
    requires Fits(prg, i) && !Computed(prg[i])
    ensures M.Execute(g, RowAt(prg, i), e).pc in Targets(prg, noreturn, i, g.pc)
  {
    hide Lookup, B.Goes, Pack, B.Landing, M.Execute, Targets;
    if prg[i] % 32 == 16 {
      BranchTargets(prg, noreturn, i, g.pc);
      B.BranchExecutes(g, RowAt(prg, i), e);
    } else if prg[i] == 0x20 {
      CallTargets(prg, noreturn, i, g, e, M.Execute(g, RowAt(prg, i), e).pc);
    } else {
      OtherTargets(prg, noreturn, i, g.pc);
      OtherExecutes(prg, i, g, e);
    }
  }

  lemma LandingIsTarget(pc: word, displacement: byte)
    ensures B.Landing(pc, displacement) == BranchTarget(pc, displacement)
  {}

  /** A state at pc with all four arithmetic flags alike. */
  function StateAt(pc: word, flag: bool): M.Guest {
    M.Guest(0, pc, 0, 0, 0, Status(flag, flag, false, false, false, false, flag, flag), Stack(seq(PAGE, _ => 0), 0),
            false, false, 0, 0)
  }

  const SILENT := M.Effect(0, 0, 0, false, false, false, false, seq(PAGE, _ => 0), 0, None)

  lemma BothWays(opcode: byte, pc: word)
    requires opcode % 32 == 16
    ensures B.Goes(opcode, Pack(StateAt(pc, opcode / 32 % 2 == 1).p)) && !B.Goes(opcode, Pack(StateAt(pc, opcode / 32 % 2 == 0).p))
  {
    hide Pack, Bit;
    ArithmeticBits(StateAt(pc, true).p);
    ArithmeticBits(StateAt(pc, false).p);
  }

  /** Every address the worklist queues, except after a call, is where some state goes. */
  lemma QueuedIsExecution(prg: seq<byte>, noreturn: set<word>, i: nat, pc: word, t: word)
    requires Fits(prg, i) && !Computed(prg[i]) && prg[i] != 0x20 && t in Targets(prg, noreturn, i, pc)
    ensures LeadsTo(prg, i, pc, t)
  {
    hide Lookup, B.Goes, Pack, B.Landing, M.Execute, Targets;
    var row := RowAt(prg, i);
    var yes, no := StateAt(pc, prg[i] / 32 % 2 == 1), StateAt(pc, prg[i] / 32 % 2 == 0);
    if prg[i] % 32 == 16 {
      BranchTargets(prg, noreturn, i, pc);
      BothWays(prg[i], pc);
      B.BranchExecutes(yes, row, SILENT);
      B.BranchExecutes(no, row, SILENT);
      assert M.Execute(yes, row, SILENT).pc == t || M.Execute(no, row, SILENT).pc == t;
    } else {
      OtherTargets(prg, noreturn, i, pc);
      OtherExecutes(prg, i, yes, SILENT);
      assert M.Execute(yes, row, SILENT).pc == t;
    }
  }

  /** The queue holds exactly the addresses that execution goes to. */
  lemma TargetsAreFlow(prg: seq<byte>, noreturn: set<word>, i: nat, pc: word, t: word)
    requires Fits(prg, i) && !Computed(prg[i]) && prg[i] != 0x20
    ensures t in Targets(prg, noreturn, i, pc) <==> LeadsTo(prg, i, pc, t)
  {
    hide Targets, M.Execute;
    if t in Targets(prg, noreturn, i, pc) {
      QueuedIsExecution(prg, noreturn, i, pc, t);
    }
    if LeadsTo(prg, i, pc, t) {
      var g: M.Guest, e: M.Effect :| g.pc == pc && M.Execute(g, RowAt(prg, i), e).pc == t;
      ExecutionIsQueued(prg, noreturn, i, g, e);
    }
  }

  /** A call queues its target, and the instruction after it unless the target is not to return. */
  lemma CallTargets(prg: seq<byte>, noreturn: set<word>, i: nat, g: M.Guest, e: M.Effect, t: word)
    requires Fits(prg, i) && prg[i] == 0x20
    ensures i + 3 <= |prg| && var target := prg[i + 1] as int + 0x100 * prg[i + 2] as int;
      && M.Execute(g, RowAt(prg, i), e).pc == target
      && (t in Targets(prg, noreturn, i, g.pc)
          <==> t == target || (target !in noreturn && t == (g.pc + 3) % 0x1_0000))
  {
    assert Lookup(0x20) == Op(JSR, Abs);
    hide Lookup;
  }

  /** The opcodes after which nothing is queued. */
  lemma ComputedTargets(prg: seq<byte>, noreturn: set<word>, i: nat, pc: word)
    requires Fits(prg, i) && Computed(prg[i]) && prg[i] != 0x00
    ensures Targets(prg, noreturn, i, pc) == []
  {
    TableMoves(prg[i]);
    hide Lookup;
  }

  /** A target is not to return exactly when some traced call of it was never seen to. */
  lemma NoReturnExactly(prg: seq<byte>, counts: seq<nat>, target: word)
    requires |counts| == |prg|
    ensures target in NoReturn(prg, counts)
      <==> (exists i :: 0 <= i && i + 3 < |prg| && prg[i] == 0x20 && counts[i] > 0 && counts[i + 3] == 0
              && prg[i + 1] as int + 0x100 * prg[i + 2] as int == target)
  {}

  /** Followed instructions: documented and complete, and neither BRK nor SED. */
  lemma LiveExactly(prg: seq<byte>, i: nat)
    ensures Live(prg, i) <==> Fits(prg, i) && prg[i] != 0x00 && prg[i] != 0xF8
  {
    if i < |prg| {
      StoppedOpcodes(prg[i]);
    }
    hide Lookup;
  }

  lemma StoppedOpcodes(opcode: byte)
    ensures Lookup(opcode).Op? ==> (Lookup(opcode).name.BRK? <==> opcode == 0x00) && (Lookup(opcode).name.SED? <==> opcode == 0xF8)
  {}

  /** From every mapped start, at the address it was mapped at, one executed instruction leads to a mapped start, to an
    * edge reported unresolved, out of the program, or to a place that was refused. */
  lemma FlowStaysMapped(prg: seq<byte>, pcs: seq<word>, r: Outcome, i: nat, g: M.Guest, e: M.Effect)
    requires r.Expanded? && |pcs| == |prg| && Closed(prg, pcs, r) && Start(r.counts, i)
    requires Fits(prg, i) && !Computed(prg[i]) && prg[i] != 0xF8 && g.pc == pcs[i]
    ensures var next := M.Execute(g, RowAt(prg, i), e).pc;
      match Physical(i, g.pc, next)
      case None => Edge(i, next) in r.unresolved
      case Some(d) => d >= |prg| || Start(r.counts, d) || Barred(prg, r.counts, d)
  {
    LiveExactly(prg, i);
    ExecutionIsQueued(prg, r.noreturn, i, g, e);
    hide Targets, M.Execute, Barred, Physical, Lookup;
  }

  /** Some state goes from pc to t, or the call at pc returns there. */
  ghost predicate Reaches(prg: seq<byte>, i: nat, pc: word, t: word)
    requires Fits(prg, i)
  {
    LeadsTo(prg, i, pc, t) || (prg[i] == 0x20 && t as int == (pc as int + 3) % 0x1_0000)
  }

  lemma QueuedIsReached(prg: seq<byte>, noreturn: set<word>, i: nat, pc: word, t: word)
    requires Live(prg, i) && t in Targets(prg, noreturn, i, pc)
    ensures Fits(prg, i) && Reaches(prg, i, pc, t)
  {
    LiveExactly(prg, i);
    hide Lookup, Targets, M.Execute, Live;
    if prg[i] == 0x20 {
      CallTargets(prg, noreturn, i, StateAt(pc, true), SILENT, t);
    } else if Computed(prg[i]) {
      ComputedTargets(prg, noreturn, i, pc);
      assert false;
    } else {
      QueuedIsExecution(prg, noreturn, i, pc, t);
    }
  }

  /** Every inferred start is where some state goes from a traced or earlier inferred start, or where a call there returns
    * to, at the address it is mapped at. */
  lemma InferredIsReached(prg: seq<byte>, counts: seq<nat>, pcs: seq<word>, pcs': seq<word>, r: Outcome, k: nat)
    returns (q: nat)
    requires r.Expanded? && |counts| == |pcs| == |pcs'| == |prg| && IsExpansion(prg, counts, pcs, pcs', r)
    requires k < |r.inferred|
    ensures var d := r.inferred[k];
      && d < |prg| && q < |prg| && |r.counts| == |prg| && counts[d] == 0 && r.counts[d] == -1
      && (counts[q] > 0 || q in r.inferred[..k]) && Fits(prg, q) && Physical(q, pcs'[q], pcs'[d]) == Some(d)
      && Reaches(prg, q, pcs'[q], pcs'[d])
  {
    hide Lookup, Targets, M.Execute, Closed, Physical, Reaches, Live, Fits;
    var d := r.inferred[k];
    assert d in r.inferred;
    assert Justified(prg, counts, r.noreturn, pcs', r.inferred[..k], Visit(d, pcs'[d]));
    q :| (Observed(counts, q) || q in r.inferred[..k]) && Successor(prg, r.noreturn, pcs', q, Visit(d, pcs'[d]));
    EarlierIsInside(prg, counts, pcs, pcs', r, k, q);
    hide IsExpansion;
    QueuedIsReached(prg, r.noreturn, q, pcs'[q], pcs'[d]);
  }

  lemma EarlierIsInside(prg: seq<byte>, counts: seq<nat>, pcs: seq<word>, pcs': seq<word>, r: Outcome, k: nat, q: nat)
    requires r.Expanded? && |counts| == |pcs| == |pcs'| == |prg| && IsExpansion(prg, counts, pcs, pcs', r)
    requires k < |r.inferred| && (Observed(counts, q) || q in r.inferred[..k])
    ensures q < |prg|
  {
    hide Lookup, Targets, Closed, Physical, CodeMap, Live, Justified;
    if q in r.inferred[..k] {
      assert q in r.inferred;
    }
  }

  /** No other start is added, and no other address changed. */
  lemma OthersStay(prg: seq<byte>, counts: seq<nat>, pcs: seq<word>, pcs': seq<word>, r: Outcome, i: nat)
    requires r.Expanded? && |counts| == |pcs| == |pcs'| == |prg| && IsExpansion(prg, counts, pcs, pcs', r)
    requires i < |prg| && i !in r.inferred
    ensures |r.counts| == |prg| && r.counts[i] == counts[i] && pcs'[i] == pcs[i]
  {
    hide Lookup, Targets, Closed, Physical, Live, Justified, Fits;
    assert r.counts[i] == if Observed(counts, i) then counts[i] else 0;
  }

  /** Every reported edge is a place some start goes to, or returns to, under an unknown mapping. */
  lemma UnresolvedIsReached(prg: seq<byte>, counts: seq<nat>, pcs: seq<word>, pcs': seq<word>, r: Outcome, e: Edge)
    requires r.Expanded? && |counts| == |pcs| == |pcs'| == |prg| && IsExpansion(prg, counts, pcs, pcs', r)
    requires e in r.unresolved
    ensures e.from < |prg| && |r.counts| == |prg| && r.counts[e.from] != 0 && Fits(prg, e.from)
    ensures Physical(e.from, pcs'[e.from], e.target) == None && Reaches(prg, e.from, pcs'[e.from], e.target)
  {
    hide Lookup, Targets, M.Execute, Closed, Physical, Reaches, Justified, Fits;
    QueuedIsReached(prg, r.noreturn, e.from, pcs'[e.from], e.target);
  }

  /** Byte j belongs to the instruction that starts at s. */
  predicate Holds(prg: seq<byte>, s: nat, j: nat) {
    Fits(prg, s) && s <= j < s + Size(prg[s])
  }

  /** A refused place: no followed instruction fits there, or one of its bytes belongs to another start. */
  lemma BarredExactly(prg: seq<byte>, counts: seq<int>, d: nat)
    ensures Barred(prg, counts, d)
      <==> !Live(prg, d) || exists s: nat, j: nat :: s != d && Start(counts, s) && Holds(prg, s, j) && Holds(prg, d, j)
  {
    hide Lookup;
    if Live(prg, d) {
      if Barred(prg, counts, d) {
        var s: nat :| s != d && Start(counts, s) && Fits(prg, s) && Meet(prg, s, d);
        assert Holds(prg, s, if s < d then d else s) && Holds(prg, d, if s < d then d else s);
      }
      if s: nat, j: nat :| s != d && Start(counts, s) && Holds(prg, s, j) && Holds(prg, d, j) {
        assert Meet(prg, s, d);
      }
    }
  }

  // ---- bank mapping ----

  /** In the mapping of this slot, the CPU sees offset i at pc. */
  predicate Sees(slot: nat, pc: word, i: nat)
    requires pc >= 0x8000
  {
    slot < 32 && I.Shown(slot, pc) == i
  }

  /** A target is mapped to an offset exactly when every mapping under which the branch runs shows it there. */
  lemma PhysicalExactly(i: nat, pc: word, target: word, slot: nat, d: nat)
    requires pc >= 0x8000 && target >= 0x8000 && Sees(slot, pc, i)
    ensures Physical(i, pc, target) == Some(d) <==> forall s :: Sees(s, pc, i) ==> Sees(s, target, d)
  {
    if Physical(i, pc, target).Some? {
      forall s | Sees(s, pc, i) ensures Sees(s, target, Physical(i, pc, target).value) {
        MappedIsSeen(s, i, pc, target);
      }
      assert Sees(slot, target, Physical(i, pc, target).value);
    } else {
      UnmappedDiffers(slot, i, pc, target);
    }
  }

  lemma OnlyCartridgeIsMapped(i: nat, pc: word, target: word)
    requires Physical(i, pc, target).Some?
    ensures target >= 0x8000 && (target < 0xE000 ==> pc >= 0x8000)
  {}

  lemma MappedIsSeen(slot: nat, i: nat, pc: word, target: word)
    requires pc >= 0x8000 && target >= 0x8000 && Sees(slot, pc, i) && Physical(i, pc, target).Some?
    ensures Sees(slot, target, Physical(i, pc, target).value)
  {
    if target < 0xE000 {
      if pc < 0xC000 {
        assert i / 0x4000 == slot % 16;
      } else {
        assert i / 0x2000 == I.CBank(slot);
      }
    }
  }

  /** Without a mapped offset, another mapping shows the same branch and a different target. */
  lemma UnmappedDiffers(slot: nat, i: nat, pc: word, target: word)
    requires pc >= 0x8000 && target >= 0x8000 && Sees(slot, pc, i) && Physical(i, pc, target).None?
    ensures exists s :: Sees(s, pc, i) && I.Shown(s, target) != I.Shown(slot, target)
  {
    var turned := if slot < 16 then slot + 16 else slot - 16;
    var moved := if slot % 16 == 0 then slot + 1 else slot - 1;
    assert turned % 16 == slot % 16 && turned / 16 != slot / 16;
    assert moved / 16 == slot / 16 && moved % 16 != slot % 16;
    assert slot / 16 < 2 && turned / 16 < 2;
    if target >= 0xC000 {
      assert Sees(turned, pc, i);
      assert I.CBank(turned) != I.CBank(slot);
    } else {
      assert Sees(moved, pc, i);
      assert I.Shown(moved, target) != I.Shown(slot, target);
    }
  }
}
