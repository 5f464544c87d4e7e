/** Recognition of whole routines by instruction pattern, and of the calls to
    them (tools/native_controller.py and tools/native_dispatch.py). */
module CallPatterns {
  import opened Bytes
  import opened Opcodes
  import opened NativeCfg
  import opened BuildNative
  import opened DirectCalls

  datatype Step = Step(name: Name, mode: Mode, operand: word)

  /** Eight serial controller reads into two zero-page bytes. */
  const CONTROLLER: seq<Step> := [
    Step(LDY, Imm, 1), Step(STY, Abs, 0x4016), Step(DEY, Imp, 0),
    Step(STY, Abs, 0x4016), Step(LDY, Imm, 8),
    Step(LDA, Abs, 0x4016), Step(STA, Zp, 4), Step(LSR, Acc, 0),
    Step(ORA, Zp, 4), Step(LSR, Acc, 0), Step(ROL, ZpX, 0),
    Step(LDA, Abs, 0x4017), Step(STA, Zp, 5), Step(LSR, Acc, 0),
    Step(ORA, Zp, 5), Step(LSR, Acc, 0), Step(ROL, ZpX, 1),
    Step(DEY, Imp, 0), Step(BNE, Rel, 0xE7), Step(RTS, Imp, 0)
  ]

  /** A jump through the word table that follows the call. */
  const DISPATCH: seq<Step> := [
    Step(ASL, Acc, 0), Step(STY, Zp, 3), Step(TAY, Imp, 0), Step(INY, Imp, 0),
    Step(PLA, Imp, 0), Step(STA, Zp, 0), Step(PLA, Imp, 0), Step(STA, Zp, 1),
    Step(LDA, IndY, 0), Step(STA, Zp, 2), Step(INY, Imp, 0), Step(LDA, IndY, 0),
    Step(LDY, Zp, 3), Step(STA, Zp, 3), Step(JMP, Ind, 2)
  ]

  predicate MatchesStep(prg: seq<byte>, counts: seq<int>, step: Step, i: nat)
    requires |counts| == |prg|
  {
    && Start(counts, i)
    && Lookup(prg[i]) == Op(step.name, step.mode)
    && Alone(prg, counts, i)
    && OperandAt(prg, i) == step.operand
  }

  /** Classified code at i reads as the pattern, instruction after instruction. */
  predicate Matches(prg: seq<byte>, counts: seq<int>, pattern: seq<Step>, i: nat)
    requires |counts| == |prg|
  {
    pattern == [] ||
    (MatchesStep(prg, counts, pattern[0], i) && Matches(prg, counts, pattern[1..], i + Length(pattern[0].mode)))
  }

  method ComputeMatches(prg: seq<byte>, counts: seq<int>, pattern: seq<Step>, at: nat) returns (b: bool)
    requires |counts| == |prg|
    ensures b == Matches(prg, counts, pattern, at)
  {
    var offset: nat := at;
    for k := 0 to |pattern|
      invariant Matches(prg, counts, pattern, at) == Matches(prg, counts, pattern[k..], offset)
    {
      var Step(name, mode, operand) := pattern[k];
      assert pattern[k..][0] == pattern[k] && pattern[k..][1..] == pattern[k + 1..];
      if offset >= |prg| || counts[offset] == 0 || Lookup(prg[offset]) != Op(name, mode) {
        return false;
      }
      if !Alone(prg, counts, offset) || OperandAt(prg, offset) != operand {
        return false;
      }
      offset := offset + Length(mode);
    }
    b := true;
  }

  /** Both routines start differently, so no call can be replaced twice. */
  lemma PatternsExclude(prg: seq<byte>, counts: seq<int>, i: nat)
    requires |counts| == |prg| && Matches(prg, counts, CONTROLLER, i)
    ensures !Matches(prg, counts, DISPATCH, i)
  {
    assert CONTROLLER[0] == Step(LDY, Imm, 1) && DISPATCH[0] == Step(ASL, Acc, 0);
  }

  /** The last 8 KiB bank is mapped at $E000 whatever the selectors hold. */
  function FixedOffset(address: word): nat
    requires address >= 0xE000
  {
    address as int - 0xE000 + 0x3E000
  }

  /** A classified JSR into the fixed last bank whose target matches the pattern. */
  predicate CallsPattern(prg: seq<byte>, counts: seq<int>, pattern: seq<Step>, i: nat)
    requires |counts| == |prg|
  {
    && Start(counts, i) && prg[i] == 0x20 && Alone(prg, counts, i)
    && 0xE000 <= OperandAt(prg, i) < 0xFFFA
    && Matches(prg, counts, pattern, FixedOffset(OperandAt(prg, i)))
  }

  function WrapperLabel(controller: bool, target: word): Label {
    if controller then Controller(target) else Dispatch(target)
  }

  function WrapperSite(prg: seq<byte>, controller: bool, i: nat): CallSite
    requires i + 3 <= |prg| && prg[i] == 0x20
  {
    CallSite(i, [0x20, prg[i + 1], prg[i + 2]], WrapperLabel(controller, OperandAt(prg, i)))
  }

  function Pattern(controller: bool): seq<Step> {
    if controller then CONTROLLER else DISPATCH
  }

  /** Exactly the calls to the routine below bound, in ascending order. */
  ghost predicate PlannedCalls(prg: seq<byte>, counts: seq<int>, controller: bool, sites: seq<CallSite>, bound: nat)
    requires |counts| == |prg|
  {
    && (forall k, l :: 0 <= k < l < |sites| ==> sites[k].at < sites[l].at)
    && (forall k {:trigger sites[k]} :: 0 <= k < |sites| ==>
          sites[k].at < bound && CallsPattern(prg, counts, Pattern(controller), sites[k].at)
          && sites[k] == WrapperSite(prg, controller, sites[k].at))
    && (forall i: nat :: i < bound && CallsPattern(prg, counts, Pattern(controller), i) ==>
          exists k :: 0 <= k < |sites| && sites[k].at == i)
  }

  datatype PlanOutcome = WrongSize | Planned(sites: seq<CallSite>)

  method Plan(prg: seq<byte>, counts: seq<int>, controller: bool) returns (r: PlanOutcome)
    ensures r.WrongSize? <==> |prg| != 0x40000 || |counts| != |prg|
    ensures r.Planned? ==> PlannedCalls(prg, counts, controller, r.sites, |prg|)
  {
    if |prg| != 0x40000 || |counts| != |prg| {
      return WrongSize;
    }
    var sites: seq<CallSite> := [];
    for i := 0 to |prg|
      invariant PlannedCalls(prg, counts, controller, sites, i)
    {
      if counts[i] == 0 || prg[i] != 0x20 || !Alone(prg, counts, i) {
        assert !CallsPattern(prg, counts, Pattern(controller), i);
        continue;
      }
      var address := OperandAt(prg, i);
      if !(0xE000 <= address < 0xFFFA) {
        assert !CallsPattern(prg, counts, Pattern(controller), i);
        continue;
      }
      var matched := ComputeMatches(prg, counts, Pattern(controller), FixedOffset(address));
      if matched {
        assert CallsPattern(prg, counts, Pattern(controller), i);
        ghost var before := sites;
        sites := sites + [WrapperSite(prg, controller, i)];
        assert sites[|before|].at == i && forall k :: 0 <= k < |before| ==> sites[k] == before[k];
      } else {
        assert !CallsPattern(prg, counts, Pattern(controller), i);
      }
    }
    r := Planned(sites);
  }
}
